/**
 * The REST handlers of the ride server: each request reads the JSON data
 * file, works on the list of rides it holds, and writes the list back.
 * A handler is modelled as taking the file's state and returning the
 * response together with the file's new state. The clock (`Date.now()` and
 * the ISO timestamp) and the outcome of the file write are parameters.
 */
module RideServer {
  import opened Wrappers
  import opened Rides
  import opened KeyedLists

  /** The data file: absent, holding text that does not parse, or holding a list of rides. */
  datatype DataFile = Missing | Unparseable | Parsed(rides: seq<Ride>)

  /** `readRides`: the parsed list, or `[]` when the file is missing or unparseable. */
  function ReadRides(f: DataFile): (r: seq<Ride>)
    ensures f.Parsed? ==> r == f.rides
    ensures !f.Parsed? ==> r == []
  {
    if f.Parsed? then f.rides else []
  }

  /** `writeRides` */
  function WriteRides(rides: seq<Ride>): (f: DataFile)
    ensures ReadRides(f) == rides
  {
    Parsed(rides)
  }

  datatype Body = RideBody(ride: Ride) | RideList(rides: seq<Ride>) | Note(message: string) | Failure(error: string)
  datatype Response = Response(status: nat, body: Body)

  const MissingFields := "Missing required fields: name, date, location (lat, lng)"
  const NotFound := "Ride not found"
  const DeletedNote := "Ride deleted successfully"
  const AddFailed := "Failed to add ride"
  const UpdateFailed := "Failed to update ride"
  const DeleteFailed := "Failed to delete ride"

  /** The path id after `parseInt`: None when it is not a number (NaN equals no id). */
  type PathId = Option<Id>

  /** `ride.id === rideId` */
  predicate Matches(r: Ride, pathId: PathId)
  {
    pathId == Some(r.id)
  }

  /** GET /api/rides */
  function GetAll(f: DataFile): (resp: Response)
    ensures resp.status == 200 && resp.body == RideList(ReadRides(f))
  {
    Response(200, RideList(ReadRides(f)))
  }

  /** GET /api/rides/:id: the first ride with the id, or 404. */
  function GetOne(f: DataFile, pathId: PathId): (resp: Response)
    ensures resp.status == 200 || resp == Response(404, Failure(NotFound))
    ensures resp.status == 200 <==>
      pathId.Some? && exists k :: 0 <= k < |ReadRides(f)| && ReadRides(f)[k].id == pathId.value
    ensures resp.status == 200 ==>
              resp.body.RideBody? &&
              exists k :: 0 <= k < |ReadRides(f)| && resp.body.ride == ReadRides(f)[k] &&
                Matches(ReadRides(f)[k], pathId) && forall j :: 0 <= j < k ==> !Matches(ReadRides(f)[j], pathId)
  {
    var rides := ReadRides(f);
    if pathId.None? then Response(404, Failure(NotFound))
    else
      FindKeyFirst(rides, RideId, pathId.value);
      match FindKey(rides, RideId, pathId.value)
      case None => Response(404, Failure(NotFound))
      case Some(r) => Response(200, RideBody(r))
  }

  /** The fields of a POST body; JSON numbers as reals, None where absent
      (for a number: absent or not a number). */
  datatype PostBody = PostBody(
    name: Option<string>,
    date: Option<string>,
    location: Option<PostLocation>,
    distance: Option<real>,
    elevation: Option<real>,
    notes: Option<string>)
  datatype PostLocation = PostLocation(lat: Option<real>, lng: Option<real>)

  /** JavaScript truthiness of an optional string and of an optional number. */
  predicate TruthyText(s: Option<string>) { s.Some? && s.value != "" }
  predicate TruthyNumber(x: Option<real>) { x.Some? && x.value != 0.0 }

  /** `!name || !date || !location || !location.lat || !location.lng` fails it. */
  predicate ValidPost(b: PostBody)
  {
    TruthyText(b.name) && TruthyText(b.date) && b.location.Some? &&
    TruthyNumber(b.location.value.lat) && TruthyNumber(b.location.value.lng)
  }

  /** The record POST builds: required fields as sent, unparseable numbers as 0,
      absent notes as '', no photos whatever the body says, and a creation stamp. */
  function NewRide(b: PostBody, id: Id, stamp: string): (r: Ride)
    requires ValidPost(b)
    ensures r.id == id && r.name == b.name.value && r.date == b.date.value
    ensures r.location == Location(b.location.value.lat.value, b.location.value.lng.value)
    ensures r.distance == (if b.distance.Some? then b.distance.value else 0.0)
    ensures r.elevation == (if b.elevation.Some? then b.elevation.value else 0.0)
    ensures r.notes == (if TruthyText(b.notes) then b.notes.value else "")
    ensures r.photos == [] && r.createdAt == Some(stamp) && r.updatedAt == None
  {
    Ride(id, b.name.value, b.date.value,
         Location(b.location.value.lat.value, b.location.value.lng.value),
         b.distance.GetOr(0.0), b.elevation.GetOr(0.0), b.notes.GetOr(""),
         [], Some(stamp), None)
  }

  /** POST /api/rides */
  method Post(f: DataFile, b: PostBody, now: Id, stamp: string, writeOk: bool) returns (resp: Response, f': DataFile)
    ensures !ValidPost(b) ==> resp == Response(400, Failure(MissingFields)) && f' == f
    ensures ValidPost(b) && writeOk ==>
      resp == Response(201, RideBody(NewRide(b, now, stamp))) &&
      f' == Parsed(ReadRides(f) + [NewRide(b, now, stamp)])
    ensures ValidPost(b) && !writeOk ==> resp == Response(500, Failure(AddFailed)) && f' == f
  {
    if !ValidPost(b) {
      return Response(400, Failure(MissingFields)), f;
    }
    var rides := ReadRides(f);
    var ride := NewRide(b, now, stamp);
    rides := rides + [ride];
    if !writeOk {
      return Response(500, Failure(AddFailed)), f;
    }
    return Response(201, RideBody(ride)), WriteRides(rides);
  }

  /** The fields a PUT body carries; None where the key is absent. */
  datatype Patch = Patch(
    id: Option<Id>,
    name: Option<string>,
    date: Option<string>,
    location: Option<Location>,
    distance: Option<real>,
    elevation: Option<real>,
    notes: Option<string>,
    photos: Option<seq<PhotoId>>,
    createdAt: Option<string>,
    updatedAt: Option<string>)

  /** `{ ...stored, ...updates, id, updatedAt }`: fields sent override, the id is the path
      id whatever the body says, and the update is stamped. */
  function Merge(stored: Ride, updates: Patch, id: Id, stamp: string): (r: Ride)
    ensures r.id == id && r.updatedAt == Some(stamp)
    ensures r.name == updates.name.GetOr(stored.name) && r.date == updates.date.GetOr(stored.date)
    ensures r.location == updates.location.GetOr(stored.location)
    ensures r.distance == updates.distance.GetOr(stored.distance)
    ensures r.elevation == updates.elevation.GetOr(stored.elevation)
    ensures r.notes == updates.notes.GetOr(stored.notes) && r.photos == updates.photos.GetOr(stored.photos)
    ensures r.createdAt == (if updates.createdAt.Some? then updates.createdAt else stored.createdAt)
  {
    Ride(id, updates.name.GetOr(stored.name), updates.date.GetOr(stored.date),
         updates.location.GetOr(stored.location), updates.distance.GetOr(stored.distance),
         updates.elevation.GetOr(stored.elevation), updates.notes.GetOr(stored.notes),
         updates.photos.GetOr(stored.photos),
         if updates.createdAt.Some? then updates.createdAt else stored.createdAt,
         Some(stamp))
  }

  /** An empty patch changes nothing but the stamp (and the id, to the path id). */
  lemma MergeEmpty(stored: Ride, stamp: string)
    ensures Merge(stored, Patch(None, None, None, None, None, None, None, None, None, None), stored.id, stamp) ==
      stored.(updatedAt := Some(stamp))
  {
  }

  /** PUT /api/rides/:id: merge into the FIRST ride with the id, or 404. */
  method Put(f: DataFile, pathId: PathId, updates: Patch, stamp: string, writeOk: bool)
    returns (resp: Response, f': DataFile)
    ensures var rides := ReadRides(f);
      pathId.None? || IndexOfKey(rides, RideId, pathId.value).None? ==>
        resp == Response(404, Failure(NotFound)) && f' == f
    ensures var rides := ReadRides(f);
      pathId.Some? && IndexOfKey(rides, RideId, pathId.value).Some? ==>
        var i := IndexOfKey(rides, RideId, pathId.value).value;
        var merged := Merge(rides[i], updates, pathId.value, stamp);
        (writeOk ==> resp == Response(200, RideBody(merged)) && f' == Parsed(rides[i := merged])) &&
        (!writeOk ==> resp == Response(500, Failure(UpdateFailed)) && f' == f)
  {
    var rides := ReadRides(f);
    if pathId.None? {
      return Response(404, Failure(NotFound)), f;
    }
    var rideId := pathId.value;
    var rideIndex := IndexOfKey(rides, RideId, rideId);
    if rideIndex.None? {
      return Response(404, Failure(NotFound)), f;
    }
    var i := rideIndex.value;
    rides := rides[i := Merge(rides[i], updates, rideId, stamp)];
    if !writeOk {
      return Response(500, Failure(UpdateFailed)), f;
    }
    return Response(200, RideBody(rides[i])), WriteRides(rides);
  }

  /** DELETE /api/rides/:id: drop every ride with the id; 404 when none had it. */
  function Delete(f: DataFile, pathId: PathId, writeOk: bool): (r: (Response, DataFile))
    ensures r.0.status == 404 <==> forall k :: 0 <= k < |ReadRides(f)| ==> !Matches(ReadRides(f)[k], pathId)
    ensures r.0.status == 404 ==> r == (Response(404, Failure(NotFound)), f)
    ensures r.0.status == 200 ==> r == (Response(200, Note(DeletedNote)), Parsed(RemoveKey(ReadRides(f), RideId, pathId.value)))
    ensures r.0.status in {200, 404, 500}
    ensures r.0.status == 500 ==> r == (Response(500, Failure(DeleteFailed)), f) && !writeOk
    ensures !writeOk ==> r.0.status != 200
  {
    var rides := ReadRides(f);
    if pathId.None? then (Response(404, Failure(NotFound)), f)
    else
      var filtered := RemoveKey(rides, RideId, pathId.value);
      RemoveKeyLengthUnchanged(rides, RideId, pathId.value);
      if |rides| == |filtered| then (Response(404, Failure(NotFound)), f)
      else if !writeOk then (Response(500, Failure(DeleteFailed)), f)
      else (Response(200, Note(DeletedNote)), WriteRides(filtered))
  }

  /** Deleting is not idempotent: a second delete of the same id is a 404. */
  lemma DeleteTwiceNotFound(f: DataFile, id: Id)
    requires Delete(f, Some(id), true).0.status == 200
    ensures Delete(Delete(f, Some(id), true).1, Some(id), true).0 == Response(404, Failure(NotFound))
  {
    var left := RemoveKey(ReadRides(f), RideId, id);
    assert Delete(f, Some(id), true).1 == Parsed(left);
    forall k | 0 <= k < |left| ensures !Matches(left[k], Some(id)) {
      assert left[k] in left;
    }
  }

  /** A ride created under a fresh id is what GET by that id then returns. */
  lemma PostThenGet(f: DataFile, b: PostBody, now: Id, stamp: string)
    requires ValidPost(b)
    requires forall k :: 0 <= k < |ReadRides(f)| ==> ReadRides(f)[k].id != now
    ensures GetOne(Parsed(ReadRides(f) + [NewRide(b, now, stamp)]), Some(now)) ==
      Response(200, RideBody(NewRide(b, now, stamp)))
  {
    var rides := ReadRides(f);
    var ride := NewRide(b, now, stamp);
    FindKeyAppendFresh(rides, RideId, ride);
  }

  /** After a successful PUT, GET by the same id returns the merged ride. */
  lemma PutThenGet(rides: seq<Ride>, id: Id, updates: Patch, stamp: string)
    requires IndexOfKey(rides, RideId, id).Some?
    ensures var i := IndexOfKey(rides, RideId, id).value;
      var merged := Merge(rides[i], updates, id, stamp);
      GetOne(Parsed(rides[i := merged]), Some(id)) == Response(200, RideBody(merged))
  {
    var i := IndexOfKey(rides, RideId, id).value;
    var after := rides[i := Merge(rides[i], updates, id, stamp)];
    assert RideId(after[i]) == id;
    assert forall j :: 0 <= j < i ==> after[j] == rides[j] && RideId(after[j]) != id;
    var found := IndexOfKey(after, RideId, id);
    assert found.Some?;
    assert !(found.value < i) && !(found.value > i);
  }
}
