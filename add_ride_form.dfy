/**
 * The add-ride form of the web front end (`AddRideModal`): its submit
 * handler checks the required fields and builds the ride handed to `onSave`.
 * The numeric inputs are `type="number"` fields, whose value is either empty
 * or a number; they are modelled as None or the number.
 */
module AddRideForm {
  import opened Wrappers
  import opened Rides
  import RideServer

  datatype FormState = FormState(
    rideName: string,
    date: string,
    latitude: Option<real>,
    longitude: Option<real>,
    distance: Option<real>,
    elevation: Option<real>,
    notes: string,
    selectedPhotoIds: seq<PhotoId>)

  const MissingFields := "Please fill in all required fields."

  /** `!rideName || !date || !latitude || !longitude` fails it: the test is on
      the input strings, so a coordinate of 0 passes. */
  predicate Complete(f: FormState)
  {
    f.rideName != "" && f.date != "" && f.latitude.Some? && f.longitude.Some?
  }

  /** The ride handed to `onSave`, or None when the alert is shown instead. */
  function Submit(f: FormState): (r: Option<RideDraft>)
    ensures r.Some? <==> Complete(f)
    ensures r.Some? ==>
      r.value.name == f.rideName && r.value.date == f.date &&
      r.value.location == Location(f.latitude.value, f.longitude.value) &&
      r.value.distance == f.distance.GetOr(0.0) && r.value.elevation == f.elevation.GetOr(0.0) &&
      r.value.notes == f.notes && r.value.photos == f.selectedPhotoIds
  {
    if !Complete(f) then None
    else Some(RideDraft(f.rideName, f.date, Location(f.latitude.value, f.longitude.value),
                        f.distance.GetOr(0.0), f.elevation.GetOr(0.0), f.notes, f.selectedPhotoIds))
  }

  /** The JSON body the ride store POSTs for a draft. */
  function RequestBody(d: RideDraft): (b: RideServer.PostBody)
    ensures b.name == Some(d.name) && b.date == Some(d.date) && b.notes == Some(d.notes)
    ensures b.location == Some(RideServer.PostLocation(Some(d.location.lat), Some(d.location.lng)))
    ensures b.distance == Some(d.distance) && b.elevation == Some(d.elevation)
  {
    RideServer.PostBody(Some(d.name), Some(d.date),
                        Some(RideServer.PostLocation(Some(d.location.lat), Some(d.location.lng))),
                        Some(d.distance), Some(d.elevation), Some(d.notes))
  }

  /** The server accepts a submitted ride exactly when neither coordinate is 0:
      the form lets a zero coordinate through, the server's truthiness test
      does not, and the store then keeps the ride offline. */
  lemma ServerAcceptsSubmitted(f: FormState)
    requires Complete(f)
    ensures RideServer.ValidPost(RequestBody(Submit(f).value)) <==>
      f.latitude.value != 0.0 && f.longitude.value != 0.0
  {
  }

  /** The server stores what the form sent, under its own id and stamp, except
      the photos: POST always stores an empty list. */
  lemma ServerDropsPhotos(d: RideDraft, id: Id, stamp: string)
    requires d.name != "" && d.date != "" && d.location.lat != 0.0 && d.location.lng != 0.0
    ensures RideServer.ValidPost(RequestBody(d))
    ensures RideServer.NewRide(RequestBody(d), id, stamp) == Stamp(d, id, stamp).(photos := [])
  {
  }
}
