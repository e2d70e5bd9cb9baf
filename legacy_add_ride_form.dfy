/**
 * The earlier add-ride form (`src/components/AddRideModal.jsx`): the same
 * required-field check, a fixed place name and no photos.
 */
module LegacyAddRideForm {
  import opened Wrappers
  import opened Rides
  import opened LegacyRideStore

  datatype LegacyFormState = LegacyFormState(
    rideName: string,
    date: string,
    latitude: Option<real>,
    longitude: Option<real>,
    distance: Option<real>,
    elevation: Option<real>,
    notes: string)

  const PlaceName := "Lausanne"

  predicate Complete(f: LegacyFormState)
  {
    f.rideName != "" && f.date != "" && f.latitude.Some? && f.longitude.Some?
  }

  /** The ride handed to `onSave`, or None when the alert is shown instead. */
  function Submit(f: LegacyFormState): (r: Option<LegacyDraft>)
    ensures r.Some? <==> Complete(f)
    ensures r.Some? ==>
      r.value.id == None && r.value.name == f.rideName && r.value.date == f.date &&
      r.value.location == NamedLocation(PlaceName, f.latitude.value, f.longitude.value) &&
      r.value.distance == f.distance.GetOr(0.0) && r.value.elevation == f.elevation.GetOr(0.0) &&
      r.value.notes == f.notes && r.value.photos == []
  {
    if !Complete(f) then None
    else Some(LegacyDraft(None, f.rideName, f.date,
                          NamedLocation(PlaceName, f.latitude.value, f.longitude.value),
                          f.distance.GetOr(0.0), f.elevation.GetOr(0.0), f.notes, []))
  }

  /** A ride from this form carries no id, so the store gives it the clock's. */
  lemma SubmittedRideGetsClockId(f: LegacyFormState, now: Id)
    requires Complete(f)
    ensures WithId(Submit(f).value, now).id == now
    ensures WithId(Submit(f).value, now).location.name == PlaceName
  {
  }
}
