# Mamils ride journal — a Dafny model of its core

Mamils is a ride journal for cyclists. A React front end shows rides on a
Leaflet map, lets the user add rides with photos and a geocoded location,
and talks to a small Express server that keeps the rides in a JSON file.
When the server is unreachable, the front end falls back to the browser's
local storage. An older front end (`src/`) keeps the rides in local storage
only.

This project models the logic of that system in Dafny and proves what it
promises:

- **Ride store** (`ride_store.dfy`, `legacy_store.dfy`). The offline-tolerant
  store is a class holding the rides, the offline flag, the advisory message,
  the loading flag and the storage key. Its invariant: in offline mode the
  stored list is the current list. Every remote call is a parameter of type
  `Remote<T>`: an ok body, a non-ok response, or a thrown error. Each method
  states the new state for each of those outcomes. The older store keeps the
  stored list equal to the current list after every change.
- **Map grouping** (`ride_grouping.dfy`, `map_view.dfy`). `GroupRides` is the
  grouping loop, proved equal to a specification function `Grouped`. Lemmas
  prove that `Grouped`:
  - assigns every ride to exactly one group, the first whose centre is
    strictly within 0.001 degrees;
  - fixes each centre at the group's first member;
  - never puts two centres within tolerance of each other;
  - keeps input order inside each group and creation order across groups;
  - is sensitive to input order.

  The map centre, the zoom, the marker style and the thumbnail overflow badges
  are functions with their properties.
- **Server** (`ride_server.dfy`). Each REST handler takes the data file's
  state and returns the response and the file's new state. POST and PUT are
  methods, because they change the loaded list in place. GET and DELETE are
  pure functions. Lemmas show that:
  - a second DELETE of the same id is a 404;
  - GET after POST returns the new ride;
  - GET after PUT returns the merged ride.
- **Photos** (`photo_store.dfy`, `photo_selector.dfy`, `photo_upload.dfy`):
  - the photo library hook, including the upload request body built by a loop;
  - the picker's toggle, which flips one id and restores the list when
    toggled twice, and its year filter;
  - the upload form's image filter, index removal and reset rules.
- **Location search** (`locations.dfy`, `location_service.dfy`,
  `location_search.dfy`):
  - formatting of geocoding results, including the city, town, village
    fallback;
  - the error messages, including the geolocation error codes;
  - the search box state: the search trigger, selection, clearing and typing.
- **Add-ride forms** (`add_ride_form.dfy`, `legacy_add_ride_form.dfy`): the
  validation on the input strings and the record each form builds.
  `AddRideForm.ServerAcceptsSubmitted` shows a consequence that spans the
  tiers. The form accepts a coordinate of 0, because its test is on the
  string "0". The server rejects it with a 400, because its test is
  JavaScript truthiness on the number. The store then keeps such a ride
  offline. `AddRideForm.ServerDropsPhotos` shows that the server stores every
  field of a submitted ride except its photos.

Shared pieces are `Wrappers`, `Rides`, `Api`, `Photos`, `Locations`, `Text`
and `KeyedLists`. `KeyedLists` holds the `filter`, `map`, `find` and
`findIndex` patterns over a key, with their lemmas.

Some of the code's behaviour is easy to misread from its names and
comments; the model follows what the code does:

- A ride joins the *first* group, in creation order, within tolerance, not
  the nearest one. `RideGrouping.FirstFitNotNearest` exhibits a ride that
  joins a farther group.
- `addRide` does not validate its draft. Any failure, including the
  server's validation 400, switches the store to offline mode; nothing is
  raised.
- `updateRide` does not fall back on a remote failure. It records the
  message and rejects. Offline, an unknown id is a silent no-op rather than
  a not-found error.
- Offline, `deleteRide` of an absent id succeeds silently. Only the server's
  DELETE reports a 404.

## Model

| member | source | states |
|---|---|---|
| RideStore.StoredRides | frontend/src/hooks/useRides.js:33-34 | an absent key reads as the empty list, a saved list as itself |
| RideStore.RideRepository.constructor | frontend/src/hooks/useRides.js:7-10 | no rides, loading, no error, online; the invariant holds |
| RideStore.RideRepository.Persist | frontend/src/hooks/useRides.js:54-58 | in offline mode the key receives the current list; online it is untouched |
| RideStore.RideRepository.FetchRides | frontend/src/hooks/useRides.js:13-46 | success: the server's list, online, error cleared. Failure with readable storage: the stored list or [], offline, the offline advisory. Unreadable storage: [], "Unable to load rides", mode unchanged. Always not loading, invariant kept |
| RideStore.RideRepository.AddRide | frontend/src/hooks/useRides.js:61-114 | appends exactly one ride and never rejects. Offline: the locally stamped draft. Online: the server's record. Any online failure: offline mode, the stamped draft and the "Added ride offline" advisory |
| RideStore.RideRepository.UpdateRide | frontend/src/hooks/useRides.js:117-153 | offline: every ride with the id becomes the given ride stamped with updatedAt. Online success: every ride with the server record's id becomes it. Failure: message recorded and rethrown; list and mode unchanged. Online, local storage is left as it was |
| RideStore.RideRepository.DeleteRide | frontend/src/hooks/useRides.js:156-182 | offline or on success: every ride with the id removed, others in order. Failure: message recorded and rethrown; list and mode unchanged. Online, local storage is left as it was |
| RideStore.OfflineSession | frontend/src/hooks/useRides.js:13-182 | with the API down, a fetch switches to offline mode, an add keeps exactly the stamped draft, and deleting it twice leaves no rides, the second delete also resolving |
| Rides.StampKeepsDraft | frontend/src/hooks/useRides.js:65-69 | a stamped draft keeps every draft field and gets exactly the given id and createdAt, no updatedAt |
| Api.FailureMessage | frontend/src/hooks/useRides.js:137-140 | the rethrown message is the response's non-empty error field, else the fallback; a thrown error keeps its own message |
| KeyedLists.RemoveKey | frontend/src/hooks/useRides.js:162 | never longer; an element stays exactly when its key differs |
| KeyedLists.RemoveKeyIsSubsequence | frontend/src/hooks/useRides.js:175 | removing by key keeps the relative order of the rest |
| KeyedLists.RemoveKeyAppend | frontend/src/hooks/useRides.js:162 | removal distributes over concatenation |
| KeyedLists.RemoveKeySingleton | frontend/src/hooks/useRides.js:162 | a one-element list loses its element exactly when the key matches |
| KeyedLists.RemoveKeyCount | frontend/src/hooks/useRides.js:162 | the length lost is the number of elements with the key |
| KeyedLists.CountKeyZero | frontend/src/hooks/useRides.js:162 | no element has the key exactly when the count is zero |
| KeyedLists.RemoveKeyLengthUnchanged | backend/server.js:127-132 | the length is unchanged exactly when no element has the key |
| KeyedLists.RemoveKeyAbsent | src/hooks/useRides.js:32-34 | removing an absent key returns the list itself |
| KeyedLists.RemoveKeyIdempotent | frontend/src/hooks/useRides.js:162 | removing twice is removing once |
| KeyedLists.ReplaceKey | frontend/src/hooks/useRides.js:123-125 | same length; each element with the key is replaced, every other element is unchanged |
| KeyedLists.ReplaceKeyAbsent | src/hooks/useRides.js:26-30 | replacing an absent key leaves the list unchanged |
| KeyedLists.ReplaceKeyIdempotent | frontend/src/hooks/useRides.js:143-145 | replacing with a record of that key twice is replacing once |
| KeyedLists.ReplaceKeyKeepsKeys | frontend/src/hooks/useRides.js:123-125 | replacing with a record of the same key keeps every position's key |
| KeyedLists.IndexOfKey | backend/server.js:100 | the first index with the key, or none exactly when no element has it |
| KeyedLists.FindKeyFirst | backend/server.js:147 | find yields the first element with the key, or nothing exactly when none has it |
| KeyedLists.FindKeyAppendFresh | backend/server.js:83 | after appending a record with a fresh key, finding that key yields it |
| KeyedLists.KeepKeysIn | frontend/src/hooks/usePhotos.js:164 | an element is kept exactly when its key is listed |
| KeyedLists.KeepKeysInCounts | frontend/src/hooks/usePhotos.js:164 | every copy of a listed element is kept, and no copy of any other |
| KeyedLists.KeepKeysInAppend | frontend/src/hooks/usePhotos.js:164 | filtering distributes over concatenation |
| KeyedLists.KeepKeysInSingleton | frontend/src/hooks/usePhotos.js:164 | a one-element list is kept exactly when its key is listed |
| KeyedLists.KeepKeysInIsSubsequence | frontend/src/hooks/usePhotos.js:164 | the kept elements stay in list order |
| KeyedLists.KeepKeysInKeepsAll | frontend/src/components/PhotoUpload.jsx:13-15 | nothing is dropped exactly when every key is listed |
| KeyedLists.DropIndexInRange | frontend/src/components/PhotoUpload.jsx:42-44 | filtering out index i removes exactly the i-th element |
| KeyedLists.DropIndexOutOfRange | frontend/src/components/PhotoUpload.jsx:42-44 | an index out of range removes nothing |
| LegacyRideStore.WithId | src/hooks/useRides.js:23 | the draft's own id wins over the clock; all other fields are copied |
| LegacyRideStore.LegacyRides.constructor | src/hooks/useRides.js:7-15 | the stored list when the key holds one, else []; storage equals the list |
| LegacyRideStore.LegacyRides.AddRide | src/hooks/useRides.js:22-24 | exactly one ride appended at the end; storage follows |
| LegacyRideStore.LegacyRides.UpdateRide | src/hooks/useRides.js:26-30 | every ride with the id replaced wholesale, no merge and no stamp; storage follows |
| LegacyRideStore.LegacyRides.DeleteRide | src/hooks/useRides.js:32-34 | every ride with the id removed, others in order; storage follows |
| RideGrouping.NearSelf | frontend/src/components/MapView.jsx:408-411 | a ride is within tolerance of the centre it founds |
| RideGrouping.NearSymmetric | frontend/src/components/MapView.jsx:398-402 | the tolerance test is symmetric |
| RideGrouping.FindGroup | frontend/src/components/MapView.jsx:397-403 | the first group whose centre is strictly within 0.001; none exactly when no centre is |
| RideGrouping.Place | frontend/src/components/MapView.jsx:405-413 | joins the found group by a push at its end, or opens a group centred on the ride at the end; centres never change |
| RideGrouping.GroupRides | frontend/src/components/MapView.jsx:389-417 | the loop computes Grouped(rides) |
| RideGrouping.GroupedIsClustered | frontend/src/components/MapView.jsx:395-414 | every group starts with its centre ride; every ride is assigned; each group's members are exactly its assigned rides, in input order |
| RideGrouping.GroupedEmpty | frontend/src/components/MapView.jsx:390 | no groups exactly when there are no rides |
| RideGrouping.MembersFitFirst | frontend/src/components/MapView.jsx:397-403 | every member is within tolerance of its centre and of no earlier centre |
| RideGrouping.CentresApart | frontend/src/components/MapView.jsx:405-413 | any two centres are at least the tolerance apart |
| RideGrouping.GroupedCountsEveryRide | frontend/src/components/MapView.jsx:395-414 | the group sizes sum to the number of rides |
| RideGrouping.GroupedExtends | frontend/src/components/MapView.jsx:395-414 | more rides never remove or re-centre an existing group; they only append members |
| RideGrouping.JoinedKeepsAssignments | frontend/src/components/MapView.jsx:405-406 | a push changes no centre, so every position finds the same group as before |
| RideGrouping.JoinedCentredOnFirst | frontend/src/components/MapView.jsx:405-406 | after a push every group still starts with the ride its centre came from |
| RideGrouping.JoinedMembersExact | frontend/src/components/MapView.jsx:405-406 | after a push every group holds exactly the rides assigned to it, in input order |
| RideGrouping.PlaceJoinsClustered | frontend/src/components/MapView.jsx:405-406 | joining an existing group keeps the grouping exact |
| RideGrouping.OpenedKeepsAssignments | frontend/src/components/MapView.jsx:407-413 | opening a group moves no earlier ride to another group |
| RideGrouping.OpenedCentredOnFirst | frontend/src/components/MapView.jsx:407-413 | the opened group is centred on its one ride; older groups are untouched |
| RideGrouping.OpenedAllAssigned | frontend/src/components/MapView.jsx:407-413 | after a group is opened every ride, the new one included, has a group |
| RideGrouping.OpenedMembersExact | frontend/src/components/MapView.jsx:407-413 | after a group is opened every group holds exactly the rides assigned to it |
| RideGrouping.PlaceOpensClustered | frontend/src/components/MapView.jsx:407-413 | opening a group keeps the grouping exact |
| RideGrouping.TotalMembersGrow | frontend/src/components/MapView.jsx:406 | a push into a group adds one member in total |
| RideGrouping.OrderExamplePositions | frontend/src/components/MapView.jsx:398-402 | rides at (0,0), (0,0.0005), (0,0.002): the first two are within tolerance, the third beyond it from both |
| RideGrouping.OrderSensitiveForward | frontend/src/components/MapView.jsx:395-414 | for such rides A, B, C in this order the groups are {A,B},{C} |
| RideGrouping.BackwardTwoGroups | frontend/src/components/MapView.jsx:395-414 | C then B open two groups |
| RideGrouping.OrderSensitiveBackward | frontend/src/components/MapView.jsx:395-414 | the same rides in reverse group as {C},{B,A} |
| RideGrouping.FirstFitPositions | frontend/src/components/MapView.jsx:398-402 | rides at (0,0), (0,0.0015), (0,0.0009): the first two are beyond tolerance, the third within it of both and nearer the second |
| RideGrouping.FirstFitTwoGroups | frontend/src/components/MapView.jsx:395-414 | the first two such rides open two groups |
| RideGrouping.FirstFitNotNearest | frontend/src/components/MapView.jsx:397-403 | the third joins the earlier group although the later centre is nearer |
| MapView.MapCenter | frontend/src/components/MapView.jsx:420-432 | the default centre for no rides and the ride's location for one; that the mean of several lies in their bounding box is `MapView.CentreInsideBox` |
| MapView.CentreInsideBox | frontend/src/components/MapView.jsx:427-429 | the mean centre lies inside any box holding all rides |
| MapView.SumsInBox | frontend/src/components/MapView.jsx:427-428 | each coordinate sum lies between n copies of the box's lower and of its upper corner |
| MapView.ScaledIsProduct | frontend/src/components/MapView.jsx:427-429 | n copies of a coordinate add up to n times it |
| MapView.MapZoom | frontend/src/components/MapView.jsx:434-441 | zoom 10 exactly for one ride, 6 otherwise |
| MapView.GroupIcon | frontend/src/components/MapView.jsx:156-199 | blue cluster styling with a count exactly when the group has more than one ride; the size and anchor follow the style |
| MapView.PopupThumbnails | frontend/src/components/MapView.jsx:278-295 | at most the first 9 photos in order; only the ninth carries a "+n" badge, present exactly when there are more than 9 photos, and shown plus hidden is the total |
| MapView.MiniPreview | frontend/src/components/MapView.jsx:355-371 | the first 3 photos, and a "+n" badge exactly when there are more than 3, with n the rest |
| RideServer.ReadRides | backend/server.js:25-33 | a parsed file yields its list; a missing or unparseable file yields [] |
| RideServer.WriteRides | backend/server.js:36-39 | reading back what was written yields the same list |
| RideServer.GetAll | backend/server.js:44-52 | 200 with the file's list |
| RideServer.GetOne | backend/server.js:143-158 | 200 with the first ride carrying the id exactly when one exists, else 404 "Ride not found" |
| RideServer.NewRide | backend/server.js:69-81 | required fields as sent; absent numbers become 0; absent notes become ''; photos always []; createdAt stamped, no updatedAt |
| RideServer.Post | backend/server.js:55-91 | falsy name, date, location, lat or lng (0 included): 400, file unchanged. Otherwise the new ride appended at the end and 201 with it; a failed write gives 500, the file taken to be as it was |
| RideServer.Merge | backend/server.js:107-112 | sent fields override; the id is forced to the path id; updatedAt stamped; the rest kept |
| RideServer.MergeEmpty | backend/server.js:107-112 | an empty patch only stamps updatedAt |
| RideServer.Put | backend/server.js:94-120 | unknown or non-numeric id: 404, file unchanged. Otherwise the first ride with the id replaced by the merge, others and length unchanged, 200 with it; a failed write gives 500, the file taken to be as it was |
| RideServer.Delete | backend/server.js:123-140 | 404 exactly when no ride has the id, file unchanged; otherwise every ride with the id removed and 200 "Ride deleted successfully"; a failed write never gives 200: it gives 500 or, when nothing matched, 404, the file taken to be as it was |
| RideServer.DeleteTwiceNotFound | backend/server.js:127-135 | after a successful delete, deleting the same id again is a 404 |
| RideServer.PostThenGet | backend/server.js:66-86 | a ride posted under a fresh id is what GET by that id returns |
| RideServer.PutThenGet | backend/server.js:99-113 | after a PUT, GET by the id returns the merged ride |
| PhotoStore.FetchFailure | frontend/src/hooks/usePhotos.js:23-25 | "Failed to fetch ...: status" for a non-ok response, the thrown message otherwise |
| PhotoStore.FetchFailureNamesStatus | frontend/src/hooks/usePhotos.js:24 | two non-ok responses give the same message exactly when their statuses agree |
| PhotoStore.FieldEntry | frontend/src/hooks/usePhotos.js:67-69 | no part for a falsy field; for a truthy one exactly one part, the field's own text under its name |
| PhotoStore.MetadataEntries | frontend/src/hooks/usePhotos.js:66-75 | dateTaken, description and tags are sent exactly when truthy, one part per truthy field; none is named photos and each is text |
| PhotoStore.MetadataEntriesOnlyFields | frontend/src/hooks/usePhotos.js:66-75 | every metadata part is one of the three fields' own parts; nothing else is sent |
| PhotoStore.MetadataEntriesOrdered | frontend/src/hooks/usePhotos.js:66-75 | the parts come in the order they are appended: dateTaken, then description, then tags |
| PhotoStore.BuildUploadForm | frontend/src/hooks/usePhotos.js:59-75 | every file under photos in input order, then the metadata parts |
| PhotoStore.FormFilesAreTheUpload | frontend/src/hooks/usePhotos.js:62-64 | the photos parts of the body are exactly the files |
| PhotoStore.PhotoLibrary.constructor | frontend/src/hooks/usePhotos.js:6-9 | no photos, no years, not loading, no error |
| PhotoStore.PhotoLibrary.FetchPhotos | frontend/src/hooks/usePhotos.js:12-35 | success replaces the photos and clears the error; failure keeps them and records the message; never loading afterwards |
| PhotoStore.PhotoLibrary.FetchAvailableYears | frontend/src/hooks/usePhotos.js:38-52 | success replaces the years and leaves the error as it was; failure keeps them and records the message |
| PhotoStore.PhotoLibrary.UploadPhotos | frontend/src/hooks/usePhotos.js:55-101 | success appends the new photos after the old ones and refreshes the years, resolving even if that refresh fails. Upload failure: message recorded and rethrown, photos unchanged |
| PhotoStore.PhotoLibrary.UpdatePhoto | frontend/src/hooks/usePhotos.js:104-134 | success replaces every photo with the requested id by the server record, length kept; failure: message recorded and rethrown, photos unchanged |
| PhotoStore.PhotoLibrary.DeletePhoto | frontend/src/hooks/usePhotos.js:137-160 | success removes every photo with the id and refreshes the years; failure: message recorded and rethrown, photos unchanged |
| PhotoStore.PhotoLibrary.PhotosByIds | frontend/src/hooks/usePhotos.js:163-165 | the photos whose id is listed, each as many times as in the library, in library order; unknown ids ignored |
| PhotoSelector.Toggled | frontend/src/components/PhotoSelector.jsx:22-29 | a present id is removed everywhere with other members kept; an absent id is appended at the end |
| PhotoSelector.ToggleFlips | frontend/src/components/PhotoSelector.jsx:24-28 | a toggle flips the membership of that id and of no other |
| PhotoSelector.ToggleKeepsOthers | frontend/src/components/PhotoSelector.jsx:24-28 | the other ids and their order are unchanged |
| PhotoSelector.ToggleTwiceRestores | frontend/src/components/PhotoSelector.jsx:22-29 | toggling an absent id twice restores the list exactly |
| PhotoSelector.YearFilter | frontend/src/components/PhotoSelector.jsx:10-20 | no year: all photos; a year: exactly the photos of that year, each as many times as given, in order |
| PhotoSelector.Selector.constructor | frontend/src/components/PhotoSelector.jsx:5-7 | no year, every photo shown, the selection as passed in |
| PhotoSelector.Selector.SelectYear | frontend/src/components/PhotoSelector.jsx:10-20 | the filtered list follows the chosen year |
| PhotoSelector.Selector.ReceivePhotos | frontend/src/components/PhotoSelector.jsx:10-20 | the filtered list follows new photos |
| PhotoSelector.Selector.TogglePhoto | frontend/src/components/PhotoSelector.jsx:22-30 | the selection becomes its toggle |
| PhotoSelector.Selector.Save | frontend/src/components/PhotoSelector.jsx:32-35 | hands back the local selection |
| PhotoSelector.OpenAndSave | frontend/src/components/PhotoSelector.jsx:7 | saving straight away hands back the selection passed in |
| PhotoUpload.ImageFiles | frontend/src/components/PhotoUpload.jsx:13 | exactly the files whose type starts with "image/", each as many times as given, in input order |
| PhotoUpload.UploadMetadata | frontend/src/components/PhotoUpload.jsx:52-56 | the date defaults to now when empty; description and tags pass through |
| PhotoUpload.UploadSendsDate | frontend/src/components/PhotoUpload.jsx:52-56 | the request always carries a date; description and tags only when filled in |
| PhotoUpload.UploadForm.constructor | frontend/src/components/PhotoUpload.jsx:5-8 | no files and empty fields |
| PhotoUpload.UploadForm.SelectFiles | frontend/src/components/PhotoUpload.jsx:11-20 | the image files are appended after the selection; the warning fires exactly when some file was not an image |
| PhotoUpload.UploadForm.RemoveFile | frontend/src/components/PhotoUpload.jsx:42-44 | exactly the i-th file removed, others in order; out of range nothing changes |
| PhotoUpload.UploadForm.Upload | frontend/src/components/PhotoUpload.jsx:46-71 | empty selection: no call, alert, nothing changes. Otherwise one call with the files and metadata; success resets all four fields, failure keeps them; the alert matches |
| Text.NatToString | frontend/src/hooks/usePhotos.js:24 | the decimal rendering: digits only, no leading zero |
| Text.NatToStringRoundTrip | frontend/src/hooks/usePhotos.js:24 | the rendering reads back as the number |
| Text.NatToStringInjective | frontend/src/hooks/usePhotos.js:24 | different numbers render differently |
| Text.TrimStartIsSuffix | frontend/src/hooks/useLocationSearch.js:9 | stripping leading whitespace keeps a suffix of the input |
| Text.Trim | frontend/src/hooks/useLocationSearch.js:9 | no longer than the input; neither end is whitespace |
| Text.TrimIsInfix | frontend/src/hooks/useLocationSearch.js:9 | the result is the input with its leading and its trailing whitespace removed and nothing else |
| Text.TrimEmpty | frontend/src/hooks/useLocationSearch.js:9 | a string trims to nothing exactly when it is all whitespace |
| Text.Join | frontend/src/components/LocationSearch.jsx:110 | no parts give "", one part gives itself |
| Text.JoinSnoc | frontend/src/components/LocationSearch.jsx:110 | one more part is added after the separator |
| Locations.FirstTruthy | frontend/src/hooks/useLocationSearch.js:42 | city if truthy, else town if truthy, else village |
| Locations.FormatAddress | frontend/src/hooks/useLocationSearch.js:41-46 | the city fallback chain, state, country and postcode copied; no address object gives no fields |
| LocationService.FormatResult | frontend/src/hooks/useLocationSearch.js:36-49 | place_id to id, display_name to name, lat, and lon to lng; type and importance copied |
| LocationService.FormatResults | frontend/src/hooks/useLocationSearch.js:36-49 | one place per result, count and order kept |
| LocationService.FormatResultsKeepsIds | frontend/src/hooks/useLocationSearch.js:36-49 | two formatted places share an id exactly when their results share a place_id |
| LocationService.SearchFailure | frontend/src/hooks/useLocationSearch.js:25-55 | non-ok: "Failed to search location"; no results: "No locations found..."; a thrown error: its message, or the default when empty |
| LocationService.GeolocationMessage | frontend/src/hooks/useLocationSearch.js:123-138 | codes 1, 2 and 3 map to the denied, unavailable and timeout messages, anything else to the unknown one |
| LocationService.GeolocationMessagesDistinct | frontend/src/hooks/useLocationSearch.js:123-138 | the messages are distinct across codes 1-3 and the rest, and never the initial placeholder |
| LocationService.UnnamedPosition | frontend/src/hooks/useLocationSearch.js:107-116 | id 'current', type current_location, empty address, the coordinates, importance 1 |
| LocationService.NamedPosition | frontend/src/hooks/useLocationSearch.js:92-105 | the reverse result's id and name, the browser's coordinates, type current_location, importance 1 |
| LocationService.LocationLookup.constructor | frontend/src/hooks/useLocationSearch.js:4-5 | not loading, no error |
| LocationService.LocationLookup.SearchLocation | frontend/src/hooks/useLocationSearch.js:8-59 | a blank query is rejected with "Please enter a location name" before the state changes; otherwise it resolves with the formatted results, or records the failure message and rejects with the same message; never loading afterwards |
| LocationService.LocationLookup.GetCurrentLocation | frontend/src/hooks/useLocationSearch.js:62-150 | unsupported: rejected at once; a position resolves with the named place, or the unnamed one when reverse lookup fails; a position error records its code's message and rejects with it |
| LocationService.LocationLookup.ClearError | frontend/src/hooks/useLocationSearch.js:157 | the error is cleared |
| LocationSearch.AddressParts | frontend/src/components/LocationSearch.jsx:104-108 | exactly the truthy city, state and country, in that order: one part per truthy field, city first, state next, country last; empty exactly when none is truthy |
| LocationSearch.FormatLocationName | frontend/src/components/LocationSearch.jsx:103-111 | the parts joined with ", ", or the name when there are none |
| LocationSearch.FullAddressLabel | frontend/src/components/LocationSearch.jsx:106-110 | with all three parts the label is "city, state, country" |
| LocationSearch.SearchBox.constructor | frontend/src/components/LocationSearch.jsx:6-10 | empty query and results, nothing shown, searching or selected |
| LocationSearch.SearchBox.SyncSelected | frontend/src/components/LocationSearch.jsx:17-25 | a selected place shows its name, hides the drop-down and marks selection; none unmarks it |
| LocationSearch.SearchBox.QueryChanged | frontend/src/components/LocationSearch.jsx:28-63 | a search is scheduled exactly when nothing is selected and the trimmed query is longer than 2; a short query clears the results and hides the drop-down; nothing happens while selected |
| LocationSearch.SearchBox.SearchCompleted | frontend/src/components/LocationSearch.jsx:40-50 | the scheduled query goes through the hook's search: found places are shown and the error cleared; a failed or empty search empties and hides the drop-down and records the hook's message; searching ends. With nothing scheduled nothing changes |
| LocationSearch.SearchBox.SelectLocation | frontend/src/components/LocationSearch.jsx:77-83 | the query becomes the place's name, the drop-down hides, the place is marked and passed on, and the error is cleared |
| LocationSearch.SearchBox.ClearSelection | frontend/src/components/LocationSearch.jsx:94-101 | query '' and results [], hidden, unmarked, null passed on, error cleared |
| LocationSearch.SearchBox.Type | frontend/src/components/LocationSearch.jsx:129-132 | the query is the typed text and the selection flag is cleared |
| LocationSearch.SearchBox.Focus | frontend/src/components/LocationSearch.jsx:133-135 | the drop-down reopens exactly when there are results and nothing is selected |
| LocationSearch.SearchBox.UseCurrentLocation | frontend/src/components/LocationSearch.jsx:85-92 | a position found selects the named place when the reverse lookup succeeds and the unnamed coordinates otherwise, fills the box with its name, hides the drop-down and clears the error; a geolocation error records its message and leaves query, selection, results and drop-down unchanged; without geolocation nothing changes |
| LocationSearch.PickThenNoSearch | frontend/src/components/LocationSearch.jsx:33-36 | after a place is picked, the query effect schedules no search |
| AddRideForm.Submit | frontend/src/components/AddRideModal.jsx:20-41 | a ride exactly when the name, date, latitude and longitude are filled in (0 passes). Name and date are unchanged, the location is built from the coordinates, empty numbers become 0, notes pass through and photos are the selected ids |
| AddRideForm.RequestBody | frontend/src/hooks/useRides.js:82 | the POST body carries every field of the draft |
| AddRideForm.ServerAcceptsSubmitted | backend/server.js:60-64 | the server accepts a submitted ride exactly when neither coordinate is 0 |
| AddRideForm.ServerDropsPhotos | backend/server.js:69-81 | the stored ride is the stamped draft with its photos emptied |
| LegacyAddRideForm.Submit | src/components/AddRideModal.jsx:12-35 | a ride exactly when the required fields are filled in; no id, the place named "Lausanne", empty numbers become 0, no photos |
| LegacyAddRideForm.SubmittedRideGetsClockId | src/hooks/useRides.js:23 | such a ride gets the clock's id in the store |

## Left out

- Network and browser APIs are not modelled. This covers `fetch`, HTTP
  plumbing, Nominatim, `navigator.geolocation`, `FormData` and multer. Their
  outcomes are parameters: `Remote<T>`, `PositionOutcome`, a `supported` flag,
  and the server's `writeOk`.
- Clocks are parameters. `Date.now()` is `now` and
  `new Date().toISOString()` is `stamp`. Nothing guarantees that `Date.now()`
  ids are unique, and the model assumes it only where a lemma says so.
- `addRide`'s fallback record uses a second `Date.now()` in the code; the
  model uses one `now` for whichever record is kept.
- Local storage is a field holding an absent key, a list, or unparseable
  text. JSON serialisation is taken to round-trip.
- The older store's mount order is not modelled. Its save effect first
  writes `[]`, then the loaded list on the next render.
- A corrupt key in the older store makes `JSON.parse` throw on mount. That
  is not modelled; its constructor takes the parsed list or nothing.
- Floating point is modelled as reals. The grouping compares squared
  distance with 0.001², with no `Math.sqrt`.
- `toFixed(4)` is not modelled. The current-position label takes the
  pair's text as a parameter, `coordinates`.
- `parseFloat` is not modelled. Number inputs are None or a number.
- The server's body numbers are taken to be JSON numbers. String coordinates
  such as "47.0" would also pass its truthiness test; the model does not
  cover them.
- RideServer.Put: a PUT body key is either absent or carries a value of the
  field's type. The server does not validate PUT bodies, so a key with
  `null` or a value of another type could overwrite a field; that is not
  modelled.
- RideServer.Post: a failed write is taken to leave the file as it was.
  `fs.writeFile` truncates the file before writing, so a failure part-way can
  leave a file that the next read takes as `[]`.
- RideServer.Put: the same failed-write simplification as for `Post`.
- RideServer.Delete: the same failed-write simplification as for `Post`.
- RideServer.GetAll: the 500 "Failed to fetch rides" branch, and the same
  branch of GET by id, are not modelled. `readRides` never throws, so only a
  failure to send the response reaches them.
- The health endpoint, Express routing, CORS, `ensureDataDir` and the Mongo
  backend under `src/backend` are not modelled.
- The 500 ms debounce timer, the click-outside listener and the drag-and-drop
  handlers are not modelled. The debounced search is split into
  `QueryChanged` (schedule) and `SearchCompleted` (settle).
- `formatFileSize`, the JSX markup and the Leaflet `divIcon` HTML are not
  modelled. Only the styling decisions of the markers are.
- A photo's calendar year is the abstract attribute `Photo.year`.
- The year passed to `fetchPhotos` only shapes the URL; the server applies it.
- `updatePhoto`'s `updates` only go into the request body.
- Alerts are returned as values. The form's "Please fill in all required
  fields." alert is the None result of `Submit`.
- React's asynchronous state batching is not modelled. Each handler is one
  atomic step, and the mode a handler reads is the mode at call time.
- The mount effects that fetch are not modelled by the constructors; they
  are the first calls after a constructor.
- Text.Trim: strips ASCII whitespace, line terminators, U+00A0, U+FEFF,
  U+2028 and U+2029. It does not strip the other Unicode space separators
  (U+1680, U+2000–U+200A, U+202F, U+205F, U+3000) that JavaScript's `trim`
  removes.
- `frontend/src/components/MapView.jsx` lines 1-140 are a stray duplicate of
  the popup component and are not modelled.
