/**
 * The geocoding hook (`useLocationSearch`): a forward search by name and a
 * lookup of the browser's current position, with a loading flag and an
 * error message. The responses of the geocoding service and of the browser's
 * geolocation are parameters.
 */
module LocationService {
  import opened Wrappers
  import opened Text
  import opened Api
  import opened Locations

  const BlankQuery := "Please enter a location name"
  const SearchFailed := "Failed to search location"
  const NoResults := "No locations found. Try a different search term."
  const NotSupported := "Geolocation is not supported by this browser"
  const PermissionDenied := "Location access denied by user"
  const PositionUnavailable := "Location information unavailable"
  const TimedOut := "Location request timed out"
  const UnknownError := "Unknown location error"

  /** One result as the search returns it. */
  function FormatResult(raw: RawResult): (p: Place)
    ensures p.id == PlaceNumber(raw.placeId) && p.name == raw.displayName
    ensures p.lat == raw.lat && p.lng == raw.lon
    ensures p.address == FormatAddress(raw.address)
    ensures p.kind == raw.kind && p.importance == raw.importance
  {
    Place(PlaceNumber(raw.placeId), raw.displayName, raw.lat, raw.lon,
          FormatAddress(raw.address), raw.kind, raw.importance)
  }

  /** `results.map(...)`: one place per result, in the order of the results. */
  function FormatResults(raws: seq<RawResult>): (ps: seq<Place>)
    ensures |ps| == |raws|
    ensures forall i :: 0 <= i < |raws| ==> ps[i] == FormatResult(raws[i])
  {
    if raws == [] then [] else [FormatResult(raws[0])] + FormatResults(raws[1..])
  }

  /** Formatting keeps the order: the ids come out as the `place_id`s went in. */
  lemma FormatResultsKeepsIds(raws: seq<RawResult>, i: nat, j: nat)
    requires i < |raws| && j < |raws|
    ensures FormatResults(raws)[i].id == FormatResults(raws)[j].id <==> raws[i].placeId == raws[j].placeId
  {
  }

  /** The message of a failed search, as the catch block computes it. */
  function SearchFailure(response: Remote<seq<RawResult>>): (m: string)
    requires !response.Ok? || response.data == []
    ensures response.Rejected? ==> m == SearchFailed
    ensures response.Ok? ==> m == NoResults
    ensures response.Unreachable? ==> m == (if response.reason != "" then response.reason else SearchFailed)
  {
    match response
    case Ok(_) => NoResults
    case Rejected(_, _) => SearchFailed
    case Unreachable(reason) => if reason != "" then reason else SearchFailed
  }

  /** The message for a geolocation error code (1, 2, 3 are the W3C codes). */
  function GeolocationMessage(code: int): (m: string)
    ensures code == 1 ==> m == PermissionDenied
    ensures code == 2 ==> m == PositionUnavailable
    ensures code == 3 ==> m == TimedOut
    ensures code !in {1, 2, 3} ==> m == UnknownError
  {
    if code == 1 then PermissionDenied
    else if code == 2 then PositionUnavailable
    else if code == 3 then TimedOut
    else UnknownError
  }

  /** Distinct known codes give distinct messages, none of which is the
      generic "Failed to get current location" the handler starts from. */
  lemma GeolocationMessagesDistinct(a: int, b: int)
    ensures GeolocationMessage(a) == GeolocationMessage(b) <==> a == b || (a !in {1, 2, 3} && b !in {1, 2, 3})
    ensures GeolocationMessage(a) != "Failed to get current location"
  {
    assert PermissionDenied[9] != PositionUnavailable[9];
    assert PermissionDenied[9] != TimedOut[9];
    assert PermissionDenied[9] != UnknownError[9];
    assert PositionUnavailable[9] != TimedOut[9];
    assert PositionUnavailable[9] != UnknownError[9];
    assert TimedOut[9] != UnknownError[9];
    assert "Failed to get current location"[0] != GeolocationMessage(a)[0];
  }

  /** What the browser's `getCurrentPosition` reported. */
  datatype PositionOutcome = Position(latitude: real, longitude: real) | PositionError(code: int)

  /** The place for the current position when reverse geocoding failed;
      `coordinates` is the pair as `toFixed(4)` prints it. */
  function UnnamedPosition(latitude: real, longitude: real, coordinates: string): (p: Place)
    ensures p.id == CurrentPlace && p.kind == Some("current_location") && p.address == EmptyAddress
    ensures p.lat == latitude && p.lng == longitude && p.importance == Some(1.0)
    ensures p.name == "Current Location (" + coordinates + ")"
  {
    Place(CurrentPlace, "Current Location (" + coordinates + ")", latitude, longitude,
          EmptyAddress, Some("current_location"), Some(1.0))
  }

  /** The place for the current position, named by reverse geocoding. */
  function NamedPosition(latitude: real, longitude: real, raw: RawResult): (p: Place)
    ensures p.id == PlaceNumber(raw.placeId) && p.name == raw.displayName
    ensures p.lat == latitude && p.lng == longitude && p.address == FormatAddress(raw.address)
    ensures p.kind == Some("current_location") && p.importance == Some(1.0)
  {
    Place(PlaceNumber(raw.placeId), raw.displayName, latitude, longitude,
          FormatAddress(raw.address), Some("current_location"), Some(1.0))
  }

  class LocationLookup {
    var loading: bool
    var error: Option<string>

    constructor ()
      ensures !loading && error == None
    {
      loading := false;
      error := None;
    }

    /** Search by name. A blank query is rejected before any request and
        before the state is touched; any later failure records the message
        and rejects with the same message. */
    method SearchLocation(query: string, response: Remote<seq<RawResult>>) returns (r: Settled<seq<Place>>)
      modifies this
      ensures Trim(query) == [] ==> r == Thrown(BlankQuery) && loading == old(loading) && error == old(error)
      ensures Trim(query) != [] ==> !loading
      ensures Trim(query) != [] && response.Ok? && response.data != [] ==>
        r == Resolved(FormatResults(response.data)) && error == None
      ensures Trim(query) != [] && (!response.Ok? || response.data == []) ==>
        r == Thrown(SearchFailure(response)) && error == Some(r.message)
    {
      if Trim(query) == [] {
        return Thrown(BlankQuery);
      }
      loading := true;
      error := None;
      if response.Ok? && response.data != [] {
        r := Resolved(FormatResults(response.data));
      } else {
        var message := SearchFailure(response);
        error := Some(message);
        r := Thrown(message);
      }
      loading := false;
    }

    /** The place of the browser's current position. Without geolocation
        support it rejects at once; a failed reverse lookup still resolves,
        with an unnamed place; a position error records its message and
        rejects with it. */
    method GetCurrentLocation(supported: bool, position: PositionOutcome, reverse: Remote<RawResult>, coordinates: string)
      returns (r: Settled<Place>)
      modifies this
      ensures !supported ==> r == Thrown(NotSupported) && loading == old(loading) && error == old(error)
      ensures supported ==> !loading
      ensures supported && position.Position? && reverse.Ok? ==>
        r == Resolved(NamedPosition(position.latitude, position.longitude, reverse.data)) && error == None
      ensures supported && position.Position? && !reverse.Ok? ==>
        r == Resolved(UnnamedPosition(position.latitude, position.longitude, coordinates)) && error == None
      ensures supported && position.PositionError? ==>
        r == Thrown(GeolocationMessage(position.code)) && error == Some(r.message)
    {
      if !supported {
        return Thrown(NotSupported);
      }
      loading := true;
      error := None;
      match position
      case Position(latitude, longitude) =>
        if reverse.Ok? {
          r := Resolved(NamedPosition(latitude, longitude, reverse.data));
        } else {
          r := Resolved(UnnamedPosition(latitude, longitude, coordinates));
        }
        loading := false;
      case PositionError(code) =>
        loading := false;
        var message := GeolocationMessage(code);
        error := Some(message);
        r := Thrown(message);
    }

    method ClearError()
      modifies this`error
      ensures error == None
    {
      error := None;
    }
  }
}
