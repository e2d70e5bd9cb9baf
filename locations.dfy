/**
 * Places found by geocoding: the raw search results of the Nominatim service
 * and the records the front end formats them into.
 */
module Locations {
  import opened Wrappers

  /** `address` of a Nominatim result; None where the key is absent. */
  datatype RawAddress = RawAddress(
    city: Option<string>, town: Option<string>, village: Option<string>,
    state: Option<string>, country: Option<string>, postcode: Option<string>)

  /** One Nominatim result, with `lat`/`lon` as `parseFloat` reads them. */
  datatype RawResult = RawResult(
    placeId: int,
    displayName: string,
    lat: real,
    lon: real,
    address: Option<RawAddress>,
    kind: Option<string>,
    importance: Option<real>)

  datatype Address = Address(city: Option<string>, state: Option<string>, country: Option<string>, postcode: Option<string>)

  const EmptyAddress := Address(None, None, None, None)

  /** A place id is Nominatim's `place_id`, or `'current'` for an unnamed current position. */
  datatype PlaceId = PlaceNumber(n: int) | CurrentPlace

  /** A place as the search box and the add-ride form use it (`type` is `kind`). */
  datatype Place = Place(
    id: PlaceId,
    name: string,
    lat: real,
    lng: real,
    address: Address,
    kind: Option<string>,
    importance: Option<real>)

  predicate Truthy(s: Option<string>) { s.Some? && s.value != "" }

  /** `a || b || c` on optional strings: the first truthy one, else the last. */
  function FirstTruthy(a: Option<string>, b: Option<string>, c: Option<string>): (r: Option<string>)
    ensures Truthy(a) ==> r == a
    ensures !Truthy(a) && Truthy(b) ==> r == b
    ensures !Truthy(a) && !Truthy(b) ==> r == c
  {
    if Truthy(a) then a else if Truthy(b) then b else c
  }

  /** The formatted address: city falls back to town, then village; a missing
      `address` object gives no fields at all. */
  function FormatAddress(a: Option<RawAddress>): (r: Address)
    ensures a.None? ==> r == EmptyAddress
    ensures a.Some? ==>
      r.city == FirstTruthy(a.value.city, a.value.town, a.value.village) &&
      r.state == a.value.state && r.country == a.value.country && r.postcode == a.value.postcode
  {
    match a
    case None => EmptyAddress
    case Some(raw) => Address(FirstTruthy(raw.city, raw.town, raw.village), raw.state, raw.country, raw.postcode)
  }
}
