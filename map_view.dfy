/**
 * The decisions the map view takes around the grouping: where to centre and
 * how far to zoom, how a group's marker looks, and how many photo
 * thumbnails a popup shows before it shows a "+n" overflow count.
 */
module MapView {
  import opened Wrappers
  import opened Rides
  import opened RideGrouping

  /** London, the centre of an empty map. */
  const DefaultCentre := Location(51.505, -0.09)

  function SumLat(rides: seq<Ride>): real
  {
    if rides == [] then 0.0 else SumLat(rides[..|rides| - 1]) + rides[|rides| - 1].location.lat
  }

  function SumLng(rides: seq<Ride>): real
  {
    if rides == [] then 0.0 else SumLng(rides[..|rides| - 1]) + rides[|rides| - 1].location.lng
  }

  /** `getMapCenter`: the default for no ride, the ride itself for one, the mean position otherwise. */
  function MapCenter(rides: seq<Ride>): (c: Location)
    ensures |rides| == 0 ==> c == DefaultCentre
    ensures |rides| == 1 ==> c == rides[0].location
  {
    if |rides| == 0 then DefaultCentre
    else if |rides| == 1 then rides[0].location
    else Location(SumLat(rides) / (|rides| as real), SumLng(rides) / (|rides| as real))
  }

  /** `getMapZoom`: close in on a single ride, wide otherwise (none or several). */
  function MapZoom(rides: seq<Ride>): (z: nat)
    ensures z == 10 <==> |rides| == 1
    ensures z != 10 ==> z == 6
  {
    if |rides| > 1 then 6 else if |rides| == 1 then 10 else 6
  }

  /** Every ride lies in the box from `lo` to `hi`. */
  ghost predicate InBox(rides: seq<Ride>, lo: Location, hi: Location)
  {
    forall k :: 0 <= k < |rides| ==>
      lo.lat <= rides[k].location.lat <= hi.lat && lo.lng <= rides[k].location.lng <= hi.lng
  }

  /** `n` copies of `x` added up: `n * x` without a product, so that the bounds below stay linear. */
  function Scaled(n: nat, x: real): real
  {
    if n == 0 then 0.0 else Scaled(n - 1, x) + x
  }

  lemma {:induction false} ScaledIsProduct(n: nat, x: real)
    ensures Scaled(n, x) == (n as real) * x
  {
    if n > 0 {
      ScaledIsProduct(n - 1, x);
      assert (n as real) * x == ((n - 1) as real) * x + x;
    }
  }

  lemma {:induction false} SumsInBox(rides: seq<Ride>, lo: Location, hi: Location)
    requires InBox(rides, lo, hi)
    ensures Scaled(|rides|, lo.lat) <= SumLat(rides) <= Scaled(|rides|, hi.lat)
    ensures Scaled(|rides|, lo.lng) <= SumLng(rides) <= Scaled(|rides|, hi.lng)
    decreases |rides|
  {
    if rides != [] {
      var init := rides[..|rides| - 1];
      assert InBox(init, lo, hi) by {
        forall k | 0 <= k < |init| ensures init[k] == rides[k] { }
      }
      SumsInBox(init, lo, hi);
      assert lo.lat <= rides[|rides| - 1].location.lat <= hi.lat;
      assert lo.lng <= rides[|rides| - 1].location.lng <= hi.lng;
    }
  }

  lemma MeanBetween(sum: real, n: nat, lo: real, hi: real)
    requires n > 0 && Scaled(n, lo) <= sum <= Scaled(n, hi)
    ensures lo <= sum / (n as real) <= hi
  {
    ScaledIsProduct(n, lo);
    ScaledIsProduct(n, hi);
    var m := n as real;
    assert sum / m * m == sum;
  }

  /** The centre of a non-empty map lies inside any box holding all its rides. */
  lemma CentreInsideBox(rides: seq<Ride>, lo: Location, hi: Location)
    requires |rides| > 0 && InBox(rides, lo, hi)
    ensures lo.lat <= MapCenter(rides).lat <= hi.lat
    ensures lo.lng <= MapCenter(rides).lng <= hi.lng
  {
    if |rides| > 1 {
      SumsInBox(rides, lo, hi);
      MeanBetween(SumLat(rides), |rides|, lo.lat, hi.lat);
      MeanBetween(SumLng(rides), |rides|, lo.lng, hi.lng);
    } else {
      assert lo.lat <= rides[0].location.lat <= hi.lat;
      assert lo.lng <= rides[0].location.lng <= hi.lng;
    }
  }

  const ClusterBlue := "#2563eb"
  const SingleGreen := "#059669"

  /** What the marker's badge shows: the number of rides, or a cyclist. */
  datatype Badge = RideCount(n: nat) | Cyclist

  /** The parts of `createBikeIcon`'s `divIcon` that vary. */
  datatype MarkerIcon = MarkerIcon(
    size: nat, color: string, badge: Badge, pointer: bool,
    anchorX: int, anchorY: int, popupX: int, popupY: int)

  /** `createBikeIcon(count, isCluster)` */
  function BikeIcon(count: nat, isCluster: bool): MarkerIcon
  {
    var size := if isCluster then 50 else 40;
    MarkerIcon(size, if isCluster then ClusterBlue else SingleGreen,
               if isCluster then RideCount(count) else Cyclist,
               !isCluster,
               size / 2, if isCluster then size / 2 else size + 8,
               0, if isCluster then -(size / 2) else -size - 8)
  }

  /** The marker of a group: cluster styling exactly when the group has more than one ride. */
  function GroupIcon(g: Group): (m: MarkerIcon)
    ensures m.color == ClusterBlue <==> |g.rides| > 1
    ensures m.badge == RideCount(|g.rides|) <==> |g.rides| > 1
    ensures m.badge == Cyclist <==> |g.rides| <= 1
    ensures m.size == (if |g.rides| > 1 then 50 else 40)
    ensures m.anchorY == (if |g.rides| > 1 then 25 else 48)
  {
    BikeIcon(|g.rides|, |g.rides| > 1)
  }

  /** A photo tile of a popup, the last one shown possibly carrying a "+n" overlay. */
  datatype Thumbnail = Thumbnail(photo: PhotoId, overflow: Option<nat>)

  function Min(a: nat, b: nat): nat { if a < b then a else b }

  /** The single-ride popup's grid: `photos.slice(0, 9)`, with "+(n - 9)" over the ninth tile
      when there are more than nine. */
  function PopupThumbnails(photos: seq<PhotoId>): (r: seq<Thumbnail>)
    ensures |r| == Min(9, |photos|)
    ensures forall i :: 0 <= i < |r| ==> r[i].photo == photos[i]
    ensures forall i :: 0 <= i < |r| ==> (r[i].overflow.Some? <==> i == 8 && |photos| > 9)
    ensures |photos| > 9 ==> |r| + r[8].overflow.value == |photos|
  {
    seq(Min(9, |photos|), i requires 0 <= i < Min(9, |photos|) =>
      Thumbnail(photos[i], if i == 8 && |photos| > 9 then Some(|photos| - 9) else None))
  }

  /** The clustered popup's preview of one ride: `photos.slice(0, 3)` and a "+(n - 3)" tile
      when there are more than three. */
  function MiniPreview(photos: seq<PhotoId>): (r: (seq<PhotoId>, Option<nat>))
    ensures r.0 == photos[..Min(3, |photos|)]
    ensures r.1.Some? <==> |photos| > 3
    ensures r.1.Some? ==> |r.0| + r.1.value == |photos|
  {
    (photos[..Min(3, |photos|)], if |photos| > 3 then Some(|photos| - 3) else None)
  }
}
