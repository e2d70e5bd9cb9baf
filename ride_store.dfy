/**
 * The offline-tolerant ride store of the web front end (`useRides`): an
 * in-memory list of rides, a flag saying whether the store works against the
 * API or against local storage, an advisory message and a loading flag.
 * Local storage is a field of the store: the one key the hook reads and
 * writes. Each remote call is a parameter giving what the call came back with.
 */
module RideStore {
  import opened Wrappers
  import opened Rides
  import opened Api
  import opened KeyedLists

  const OfflineAdvisory := "Using offline mode - start backend for full features"
  const LoadFailure := "Unable to load rides"
  const AddedOffline := "Added ride offline - start backend to sync"
  const UpdateFailed := "Failed to update ride"
  const DeleteFailed := "Failed to delete ride"

  /** What the storage key holds: nothing, a serialised list, or text that does not parse. */
  datatype Stored = Absent | Saved(rides: seq<Ride>) | Corrupt

  /** The list a successful read of the key yields: `stored ? JSON.parse(stored) : []`. */
  function StoredRides(s: Stored): (r: seq<Ride>)
    requires !s.Corrupt?
    ensures s.Absent? ==> r == []
    ensures s.Saved? ==> r == s.rides
  {
    if s.Saved? then s.rides else []
  }

  class RideRepository {
    var rides: seq<Ride>
    var loading: bool
    var error: Option<string>
    /** `useLocalStorage`: true once the store has fallen back to local storage. */
    var offline: bool
    /** `localStorage[STORAGE_KEY]` */
    var storage: Stored

    /** In offline mode the stored list is always the current list (the persistence effect). */
    ghost predicate Valid()
      reads this
    {
      offline ==> storage == Saved(rides)
    }

    /** The hook's initial state, before the mount effect runs `FetchRides`. */
    constructor (stored: Stored)
      ensures Valid()
      ensures rides == [] && loading && error == None && !offline && storage == stored
    {
      rides := [];
      loading := true;
      error := None;
      offline := false;
      storage := stored;
    }

    /** The effect that writes the list to local storage whenever the list or the mode changes in offline mode. */
    method Persist()
      modifies this`storage
      ensures storage == if offline then Saved(rides) else old(storage)
    {
      if offline {
        storage := Saved(rides);
      }
    }

    /** Load the rides from the API; on any failure fall back to local storage. */
    method FetchRides(remote: Remote<seq<Ride>>)
      requires Valid()
      modifies this
      ensures Valid()
      ensures !loading
      ensures remote.Ok? ==>
        rides == remote.data && !offline && error == None && storage == old(storage)
      ensures !remote.Ok? && !old(storage).Corrupt? ==>
        rides == StoredRides(old(storage)) && offline && error == Some(OfflineAdvisory) &&
        storage == Saved(rides)
      ensures !remote.Ok? && old(storage).Corrupt? ==>
        rides == [] && offline == old(offline) && error == Some(LoadFailure) &&
        storage == old(storage)
    {
      loading := true;
      error := None;
      if remote.Ok? {
        rides := remote.data;
        offline := false;
      } else if !storage.Corrupt? {
        rides := StoredRides(storage);
        offline := true;
        error := Some(OfflineAdvisory);
      } else {
        rides := [];
        error := Some(LoadFailure);
      }
      loading := false;
      Persist();
    }

    /** Add a ride. Offline it is stamped locally; online the server's record is
        appended, and on any failure the store switches to offline mode and
        appends the locally stamped record instead. It never rejects. */
    method AddRide(draft: RideDraft, now: Id, stamp: string, remote: Remote<Ride>) returns (r: Ride)
      requires Valid()
      modifies this
      ensures Valid()
      ensures rides == old(rides) + [r]
      ensures loading == old(loading)
      ensures old(offline) ==> r == Stamp(draft, now, stamp) && offline && error == None
      ensures !old(offline) && remote.Ok? ==>
        r == remote.data && !offline && error == None && storage == old(storage)
      ensures !old(offline) && !remote.Ok? ==>
        r == Stamp(draft, now, stamp) && offline && error == Some(AddedOffline)
    {
      error := None;
      if offline {
        r := Stamp(draft, now, stamp);
        rides := rides + [r];
      } else if remote.Ok? {
        r := remote.data;
        rides := rides + [r];
      } else {
        offline := true;
        r := Stamp(draft, now, stamp);
        rides := rides + [r];
        error := Some(AddedOffline);
      }
      Persist();
    }

    /** Update a ride. Offline every ride with the same id becomes the given
        ride stamped with `updatedAt`; online every ride with the server
        record's id becomes that record. A remote failure sets the advisory and
        rejects, with the list and the mode unchanged. */
    method UpdateRide(updated: Ride, stamp: string, remote: Remote<Ride>) returns (r: Settled<Ride>)
      requires Valid()
      modifies this
      ensures Valid()
      ensures offline == old(offline) && loading == old(loading)
      ensures old(offline) ==>
        r == Resolved(updated) && error == None &&
        rides == ReplaceKey(old(rides), RideId, updated.id, updated.(updatedAt := Some(stamp)))
      ensures !old(offline) && remote.Ok? ==>
        r == Resolved(remote.data) && error == None &&
        rides == ReplaceKey(old(rides), RideId, remote.data.id, remote.data)
      ensures !old(offline) && !remote.Ok? ==>
        r == Thrown(FailureMessage(remote, UpdateFailed)) && error == Some(r.message) &&
        rides == old(rides)
      ensures !old(offline) ==> storage == old(storage)
    {
      error := None;
      if offline {
        rides := ReplaceKey(rides, RideId, updated.id, updated.(updatedAt := Some(stamp)));
        r := Resolved(updated);
      } else if remote.Ok? {
        rides := ReplaceKey(rides, RideId, remote.data.id, remote.data);
        r := Resolved(remote.data);
      } else {
        var message := FailureMessage(remote, UpdateFailed);
        error := Some(message);
        r := Thrown(message);
      }
      Persist();
    }

    /** Delete every ride with the given id. A remote failure sets the advisory
        and rejects, with the list and the mode unchanged. */
    method DeleteRide(id: Id, remote: Remote<()>) returns (r: Settled<()>)
      requires Valid()
      modifies this
      ensures Valid()
      ensures offline == old(offline) && loading == old(loading)
      ensures old(offline) || remote.Ok? ==>
        r == Resolved(()) && error == None && rides == RemoveKey(old(rides), RideId, id)
      ensures !old(offline) && !remote.Ok? ==>
        r == Thrown(FailureMessage(remote, DeleteFailed)) && error == Some(r.message) &&
        rides == old(rides)
      ensures !old(offline) ==> storage == old(storage)
    {
      error := None;
      if offline || remote.Ok? {
        rides := RemoveKey(rides, RideId, id);
        r := Resolved(());
      } else {
        var message := FailureMessage(remote, DeleteFailed);
        error := Some(message);
        r := Thrown(message);
      }
      Persist();
    }
  }

  /** A session that starts online, finds the API down, adds a ride, then deletes it twice. */
  method OfflineSession(draft: RideDraft, now: Id, stamp: string)
    returns (afterAdd: seq<Ride>, afterDeletes: seq<Ride>, offline: bool, secondDelete: Settled<()>)
    ensures offline && afterAdd == [Stamp(draft, now, stamp)] && afterDeletes == []
    ensures secondDelete == Resolved(())
  {
    var store := new RideRepository(Absent);
    store.FetchRides(Unreachable("Failed to fetch"));
    assert store.offline && store.rides == [] && store.error == Some(OfflineAdvisory);
    var added := store.AddRide(draft, now, stamp, Unreachable("unused"));
    assert store.rides == [Stamp(draft, now, stamp)];
    assert store.storage == Saved(store.rides);
    afterAdd := store.rides;
    var gone := store.DeleteRide(now, Unreachable("unused"));
    assert store.rides == [] by {
      assert store.rides == RemoveKey([added], RideId, now);
      RemoveKeySingleton(added, RideId, now);
    }
    var again := store.DeleteRide(now, Unreachable("unused"));
    afterDeletes, offline, secondDelete := store.rides, store.offline, again;
  }
}
