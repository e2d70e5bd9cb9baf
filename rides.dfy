/**
 * Records shared by the ride store, the map and the server: a ride, the
 * draft a form produces.
 */
module Rides {
  import opened Wrappers

  /** Ride ids are `Date.now()` values on both sides; `parseInt` on the server. */
  type Id = int
  type PhotoId = int

  datatype Location = Location(lat: real, lng: real)

  /** A ride as the server stores it and the client mirrors it. */
  datatype Ride = Ride(
    id: Id,
    name: string,
    date: string,
    location: Location,
    distance: real,
    elevation: real,
    notes: string,
    photos: seq<PhotoId>,
    createdAt: Option<string>,
    updatedAt: Option<string>)

  /** The ride object the add-ride form hands to `onSave`: no id, no timestamps. */
  datatype RideDraft = RideDraft(
    name: string,
    date: string,
    location: Location,
    distance: real,
    elevation: real,
    notes: string,
    photos: seq<PhotoId>)

  /** `{ ...draft, id, createdAt }` */
  function Stamp(draft: RideDraft, id: Id, createdAt: string): (r: Ride)
  {
    Ride(id, draft.name, draft.date, draft.location, draft.distance, draft.elevation,
         draft.notes, draft.photos, Some(createdAt), None)
  }

  /** The fields of a ride that a draft also has. */
  function DraftOf(r: Ride): RideDraft
  {
    RideDraft(r.name, r.date, r.location, r.distance, r.elevation, r.notes, r.photos)
  }

  /** The key the lists are searched by. */
  function RideId(r: Ride): Id { r.id }

  /** A stamped draft keeps every field of the draft and carries exactly the given id and time. */
  lemma StampKeepsDraft(draft: RideDraft, id: Id, createdAt: string)
    ensures DraftOf(Stamp(draft, id, createdAt)) == draft
    ensures Stamp(draft, id, createdAt).id == id
    ensures Stamp(draft, id, createdAt).createdAt == Some(createdAt)
    ensures Stamp(draft, id, createdAt).updatedAt == None
  {
  }
}
