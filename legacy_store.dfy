/**
 * The earlier, storage-only ride store (`src/hooks/useRides.js`): a list of
 * rides that starts as the stored list and is written back to local storage
 * after every change.
 */
module LegacyRideStore {
  import opened Wrappers
  import opened Rides
  import opened KeyedLists

  datatype NamedLocation = NamedLocation(name: string, lat: real, lng: real)

  /** The ride object handed to `addRide`; it may already carry an id. */
  datatype LegacyDraft = LegacyDraft(
    id: Option<Id>,
    name: string,
    date: string,
    location: NamedLocation,
    distance: real,
    elevation: real,
    notes: string,
    photos: seq<PhotoId>)

  datatype LegacyRide = LegacyRide(
    id: Id,
    name: string,
    date: string,
    location: NamedLocation,
    distance: real,
    elevation: real,
    notes: string,
    photos: seq<PhotoId>)

  function LegacyRideId(r: LegacyRide): Id { r.id }

  /** `{ id: now, ...newRide }`: the spread comes last, so an id the draft
      already carries wins over the clock. */
  function WithId(newRide: LegacyDraft, now: Id): (r: LegacyRide)
    ensures newRide.id.Some? ==> r.id == newRide.id.value
    ensures newRide.id.None? ==> r.id == now
    ensures r.name == newRide.name && r.date == newRide.date && r.location == newRide.location
    ensures r.distance == newRide.distance && r.elevation == newRide.elevation
    ensures r.notes == newRide.notes && r.photos == newRide.photos
  {
    LegacyRide(newRide.id.GetOr(now), newRide.name, newRide.date, newRide.location,
               newRide.distance, newRide.elevation, newRide.notes, newRide.photos)
  }

  class LegacyRides {
    var rides: seq<LegacyRide>
    /** `localStorage[STORAGE_KEY]`, None when the key is absent or empty. */
    var storage: Option<seq<LegacyRide>>

    /** After every change the stored list equals the current list. */
    ghost predicate Valid()
      reads this
    {
      storage == Some(rides)
    }

    /** Mount: the list is the stored one when the key holds something, else
        empty; the save effect then writes it back. */
    constructor (stored: Option<seq<LegacyRide>>)
      ensures Valid()
      ensures rides == stored.GetOr([])
    {
      rides := [];
      storage := stored;
      if stored.Some? {
        rides := stored.value;
      }
      storage := Some(rides);
    }

    method AddRide(newRide: LegacyDraft, now: Id)
      requires Valid()
      modifies this
      ensures Valid()
      ensures rides == old(rides) + [WithId(newRide, now)]
    {
      rides := rides + [WithId(newRide, now)];
      storage := Some(rides);
    }

    /** Every ride with the same id becomes `updated`, wholesale: no merge, no timestamp. */
    method UpdateRide(updated: LegacyRide)
      requires Valid()
      modifies this
      ensures Valid()
      ensures rides == ReplaceKey(old(rides), LegacyRideId, updated.id, updated)
    {
      rides := ReplaceKey(rides, LegacyRideId, updated.id, updated);
      storage := Some(rides);
    }

    method DeleteRide(id: Id)
      requires Valid()
      modifies this
      ensures Valid()
      ensures rides == RemoveKey(old(rides), LegacyRideId, id)
    {
      rides := RemoveKey(rides, LegacyRideId, id);
      storage := Some(rides);
    }
  }
}
