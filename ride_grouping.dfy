/**
 * The grouping the map uses to put rides that share a place under one marker
 * (`groupedRides` in the map view): one greedy pass over the rides in order.
 * A ride joins the FIRST group, in creation order, whose centre lies strictly
 * within the tolerance; otherwise it opens a new group centred on itself. A
 * group's centre is its first member's position and never moves.
 *
 * Positions are exact reals and distances are compared squared: for
 * non-negative d and t, sqrt(d) < t exactly when d < t * t.
 */
module RideGrouping {
  import opened Wrappers
  import opened Rides

  /** About 100 metres, in degrees. */
  const Tolerance: real := 0.001

  function SquaredDistance(a: Location, b: Location): real
  {
    (a.lat - b.lat) * (a.lat - b.lat) + (a.lng - b.lng) * (a.lng - b.lng)
  }

  /** `Math.sqrt(dLat^2 + dLng^2) < tolerance` */
  predicate Near(centre: Location, p: Location)
  {
    SquaredDistance(centre, p) < Tolerance * Tolerance
  }

  lemma NearSelf(p: Location)
    ensures Near(p, p)
  {
  }

  lemma NearSymmetric(a: Location, b: Location)
    ensures Near(a, b) <==> Near(b, a)
  {
    assert (a.lat - b.lat) * (a.lat - b.lat) == (b.lat - a.lat) * (b.lat - a.lat);
    assert (a.lng - b.lng) * (a.lng - b.lng) == (b.lng - a.lng) * (b.lng - a.lng);
  }

  /** `{ lat, lng, rides }` */
  datatype Group = Group(centre: Location, rides: seq<Ride>)

  /** `groups.find(group => distance < tolerance)`, as an index. */
  function FindGroup(groups: seq<Group>, p: Location): (r: Option<nat>)
    ensures r.Some? ==> r.value < |groups| && Near(groups[r.value].centre, p)
    ensures r.Some? ==> forall i :: 0 <= i < r.value ==> !Near(groups[i].centre, p)
    ensures r.None? <==> forall i :: 0 <= i < |groups| ==> !Near(groups[i].centre, p)
  {
    if groups == [] then None
    else if Near(groups[0].centre, p) then Some(0)
    else match FindGroup(groups[1..], p)
      case None => None
      case Some(i) => Some(i + 1)
  }

  /** One step of the pass: push the ride into its group, or open a new group.
      Existing groups keep their centre and order; exactly one group gains the ride, at its end. */
  function Place(groups: seq<Group>, ride: Ride): (r: seq<Group>)
    ensures FindGroup(groups, ride.location).Some? ==> |r| == |groups|
    ensures FindGroup(groups, ride.location).None? ==>
      |r| == |groups| + 1 && r[|groups|] == Group(ride.location, [ride])
    ensures forall i :: 0 <= i < |groups| ==> r[i].centre == groups[i].centre
    ensures forall i :: 0 <= i < |groups| ==>
      r[i].rides == if FindGroup(groups, ride.location) == Some(i) then groups[i].rides + [ride] else groups[i].rides
  {
    match FindGroup(groups, ride.location)
    case Some(i) => groups[i := groups[i].(rides := groups[i].rides + [ride])]
    case None => groups + [Group(ride.location, [ride])]
  }

  /** The groups of a ride list: the pass over its prefix, one ride at a time. */
  function Grouped(rides: seq<Ride>): seq<Group>
  {
    if rides == [] then [] else Place(Grouped(rides[..|rides| - 1]), rides[|rides| - 1])
  }

  /** `groupedRides`: the loop over the rides, finding and pushing in place. */
  method GroupRides(rides: seq<Ride>) returns (groups: seq<Group>)
    ensures groups == Grouped(rides)
  {
    if |rides| == 0 {
      return [];
    }
    groups := [];
    var n := 0;
    while n < |rides|
      invariant 0 <= n <= |rides|
      invariant groups == Grouped(rides[..n])
    {
      var ride := rides[n];
      var existing := FindGroup(groups, ride.location);
      if existing.Some? {
        var g := groups[existing.value];
        groups := groups[existing.value := g.(rides := g.rides + [ride])];
      } else {
        groups := groups + [Group(ride.location, [ride])];
      }
      assert rides[..n + 1][..n] == rides[..n];
      n := n + 1;
    }
    assert rides[..n] == rides;
  }

  // ----- The groups a given centre list assigns to each ride -----

  /** The rides, in input order, whose first group within tolerance is group `j`. */
  function MembersOf(rides: seq<Ride>, groups: seq<Group>, j: nat): seq<Ride>
  {
    if rides == [] then []
    else
      var last := rides[|rides| - 1];
      MembersOf(rides[..|rides| - 1], groups, j) +
        (if FindGroup(groups, last.location) == Some(j) then [last] else [])
  }

  /** Every group is non-empty and centred on its first member. */
  ghost predicate CentredOnFirst(groups: seq<Group>)
  {
    forall j :: 0 <= j < |groups| ==>
      |groups[j].rides| > 0 && groups[j].rides[0].location == groups[j].centre
  }

  /** Every ride has a group within tolerance. */
  ghost predicate AllAssigned(rides: seq<Ride>, groups: seq<Group>)
  {
    forall k :: 0 <= k < |rides| ==> FindGroup(groups, rides[k].location).Some?
  }

  /** Group j holds exactly the rides whose first centre within tolerance is j's, in input order. */
  ghost predicate MembersExact(rides: seq<Ride>, groups: seq<Group>)
  {
    forall j :: 0 <= j < |groups| ==> groups[j].rides == MembersOf(rides, groups, j)
  }

  /** What a correct grouping of `rides` looks like. */
  ghost predicate Clustered(rides: seq<Ride>, groups: seq<Group>)
  {
    CentredOnFirst(groups) && AllAssigned(rides, groups) && MembersExact(rides, groups)
  }

  lemma {:induction false} MembersOfSameAssignment(rides: seq<Ride>, g1: seq<Group>, g2: seq<Group>, j: nat)
    requires forall k :: 0 <= k < |rides| ==> FindGroup(g1, rides[k].location) == FindGroup(g2, rides[k].location)
    ensures MembersOf(rides, g1, j) == MembersOf(rides, g2, j)
    decreases |rides|
  {
    if rides != [] {
      var init := rides[..|rides| - 1];
      assert forall k :: 0 <= k < |init| ==> init[k] == rides[k];
      MembersOfSameAssignment(init, g1, g2, j);
    }
  }

  lemma {:induction false} MembersOfUnassigned(rides: seq<Ride>, groups: seq<Group>, j: nat)
    requires forall k :: 0 <= k < |rides| ==> FindGroup(groups, rides[k].location) != Some(j)
    ensures MembersOf(rides, groups, j) == []
    decreases |rides|
  {
    if rides != [] {
      var init := rides[..|rides| - 1];
      assert forall k :: 0 <= k < |init| ==> init[k] == rides[k];
      MembersOfUnassigned(init, groups, j);
    }
  }

  lemma MembersOfSnoc(init: seq<Ride>, ride: Ride, groups: seq<Group>, j: nat)
    ensures MembersOf(init + [ride], groups, j) ==
      MembersOf(init, groups, j) + (if FindGroup(groups, ride.location) == Some(j) then [ride] else [])
  {
    assert (init + [ride])[..|init|] == init;
  }

  /** Two group lists with the same centres assign every position alike. */
  lemma {:induction false} SameCentresSameAssignment(g1: seq<Group>, g2: seq<Group>, p: Location)
    requires |g1| <= |g2|
    requires forall i :: 0 <= i < |g1| ==> g1[i].centre == g2[i].centre
    requires |g1| == |g2| || FindGroup(g1, p).Some?
    ensures FindGroup(g2, p) == FindGroup(g1, p)
    decreases |g1|
  {
    if g1 != [] && !Near(g1[0].centre, p) {
      assert g2[0].centre == g1[0].centre;
      forall i | 0 <= i < |g1| - 1 ensures g1[1..][i].centre == g2[1..][i].centre {
        assert g1[1..][i] == g1[i + 1] && g2[1..][i] == g2[i + 1];
      }
      SameCentresSameAssignment(g1[1..], g2[1..], p);
    }
  }

  /** Pushing a ride into a group changes no centre, so every position keeps its group. */
  lemma JoinedKeepsAssignments(ride: Ride, g: seq<Group>)
    requires FindGroup(g, ride.location).Some?
    ensures forall p: Location :: FindGroup(Place(g, ride), p) == FindGroup(g, p)
  {
    forall p: Location ensures FindGroup(Place(g, ride), p) == FindGroup(g, p) {
      SameCentresSameAssignment(g, Place(g, ride), p);
    }
  }

  /** A group that gains a ride at its end keeps its first member. */
  lemma JoinedCentredOnFirst(ride: Ride, g: seq<Group>)
    requires CentredOnFirst(g)
    requires FindGroup(g, ride.location).Some?
    ensures CentredOnFirst(Place(g, ride))
  {
    var g' := Place(g, ride);
    forall j | 0 <= j < |g'| ensures |g'[j].rides| > 0 && g'[j].rides[0].location == g'[j].centre {
      assert |g[j].rides| > 0 && g[j].rides[0].location == g[j].centre;
      assert g'[j].rides[0] == g[j].rides[0];
    }
  }

  lemma JoinedMembersExact(init: seq<Ride>, ride: Ride, g: seq<Group>)
    requires MembersExact(init, g)
    requires FindGroup(g, ride.location).Some?
    ensures MembersExact(init + [ride], Place(g, ride))
  {
    var s, g' := init + [ride], Place(g, ride);
    JoinedKeepsAssignments(ride, g);
    forall j | 0 <= j < |g'| ensures g'[j].rides == MembersOf(s, g', j) {
      assert g[j].rides == MembersOf(init, g, j);
      MembersOfSnoc(init, ride, g', j);
      MembersOfSameAssignment(init, g, g', j);
    }
  }

  /** Pushing a ride into the group it finds keeps the grouping correct. */
  lemma PlaceJoinsClustered(init: seq<Ride>, ride: Ride, g: seq<Group>)
    requires Clustered(init, g)
    requires FindGroup(g, ride.location).Some?
    ensures Clustered(init + [ride], Place(g, ride))
  {
    var s, g' := init + [ride], Place(g, ride);
    JoinedCentredOnFirst(ride, g);
    JoinedKeepsAssignments(ride, g);
    assert AllAssigned(s, g') by {
      forall k | 0 <= k < |s| ensures FindGroup(g', s[k].location).Some? {
        if k < |init| { assert s[k] == init[k]; }
      }
    }
    JoinedMembersExact(init, ride, g);
  }

  /** A ride that opens a group finds that group. */
  lemma OpenedGroupFound(ride: Ride, g: seq<Group>)
    requires FindGroup(g, ride.location).None?
    ensures FindGroup(Place(g, ride), ride.location) == Some(|g|)
  {
    NearSelf(ride.location);
  }

  /** A ride that had a group keeps it when a group is opened after it. */
  lemma OpenedKeepsAssignment(ride: Ride, g: seq<Group>, p: Location)
    requires FindGroup(g, p).Some?
    requires FindGroup(g, ride.location).None?
    ensures FindGroup(Place(g, ride), p) == FindGroup(g, p)
  {
    SameCentresSameAssignment(g, Place(g, ride), p);
  }

  /** Opening a group leaves the members of every older group as they were. */
  lemma OpenedOldGroupExact(init: seq<Ride>, ride: Ride, g: seq<Group>, j: nat)
    requires j < |g| && g[j].rides == MembersOf(init, g, j)
    requires FindGroup(g, ride.location).None?
    requires forall k :: 0 <= k < |init| ==> FindGroup(Place(g, ride), init[k].location) == FindGroup(g, init[k].location)
    ensures Place(g, ride)[j].rides == MembersOf(init + [ride], Place(g, ride), j)
  {
    var g' := Place(g, ride);
    OpenedGroupFound(ride, g);
    MembersOfSnoc(init, ride, g', j);
    MembersOfSameAssignment(init, g, g', j);
  }

  /** The opened group holds exactly the ride that opened it. */
  lemma OpenedNewGroupExact(init: seq<Ride>, ride: Ride, g: seq<Group>)
    requires FindGroup(g, ride.location).None?
    requires forall k :: 0 <= k < |init| ==> FindGroup(Place(g, ride), init[k].location) == FindGroup(g, init[k].location)
    ensures Place(g, ride)[|g|].rides == MembersOf(init + [ride], Place(g, ride), |g|)
  {
    var g' := Place(g, ride);
    OpenedGroupFound(ride, g);
    MembersOfSnoc(init, ride, g', |g|);
    MembersOfSameAssignment(init, g, g', |g|);
    MembersOfUnassigned(init, g, |g|);
  }

  /** Opening a group moves no earlier ride to another group. */
  lemma OpenedKeepsAssignments(init: seq<Ride>, ride: Ride, g: seq<Group>)
    requires AllAssigned(init, g)
    requires FindGroup(g, ride.location).None?
    ensures forall k :: 0 <= k < |init| ==> FindGroup(Place(g, ride), init[k].location) == FindGroup(g, init[k].location)
  {
    forall k | 0 <= k < |init| ensures FindGroup(Place(g, ride), init[k].location) == FindGroup(g, init[k].location) {
      OpenedKeepsAssignment(ride, g, init[k].location);
    }
  }

  /** After a group is opened, every ride, the new one included, has a group. */
  lemma OpenedAllAssigned(init: seq<Ride>, ride: Ride, g: seq<Group>)
    requires AllAssigned(init, g)
    requires FindGroup(g, ride.location).None?
    ensures AllAssigned(init + [ride], Place(g, ride))
  {
    var s, g' := init + [ride], Place(g, ride);
    OpenedGroupFound(ride, g);
    OpenedKeepsAssignments(init, ride, g);
    forall k | 0 <= k < |s| ensures FindGroup(g', s[k].location).Some? {
      if k < |init| { assert s[k] == init[k]; }
    }
  }

  /** After a group is opened, every group holds exactly its members. */
  lemma OpenedMembersExact(init: seq<Ride>, ride: Ride, g: seq<Group>)
    requires MembersExact(init, g) && AllAssigned(init, g)
    requires FindGroup(g, ride.location).None?
    ensures MembersExact(init + [ride], Place(g, ride))
  {
    var s, g' := init + [ride], Place(g, ride);
    OpenedKeepsAssignments(init, ride, g);
    forall j | 0 <= j < |g'| ensures g'[j].rides == MembersOf(s, g', j) {
      if j < |g| {
        assert g[j].rides == MembersOf(init, g, j);
        OpenedOldGroupExact(init, ride, g, j);
      } else {
        assert j == |g|;
        OpenedNewGroupExact(init, ride, g);
      }
    }
  }

  /** The opened group is centred on its one ride; the others are untouched. */
  lemma OpenedCentredOnFirst(ride: Ride, g: seq<Group>)
    requires CentredOnFirst(g)
    requires FindGroup(g, ride.location).None?
    ensures CentredOnFirst(Place(g, ride))
  {
    var g' := Place(g, ride);
    forall j | 0 <= j < |g'| ensures |g'[j].rides| > 0 && g'[j].rides[0].location == g'[j].centre {
      if j < |g| {
        assert g'[j] == g[j];
      }
    }
  }

  /** Opening a new group for a ride that fits no centre keeps the grouping correct. */
  lemma PlaceOpensClustered(init: seq<Ride>, ride: Ride, g: seq<Group>)
    requires Clustered(init, g)
    requires FindGroup(g, ride.location).None?
    ensures Clustered(init + [ride], Place(g, ride))
  {
    OpenedCentredOnFirst(ride, g);
    OpenedAllAssigned(init, ride, g);
    OpenedMembersExact(init, ride, g);
  }

  /** The pass produces a correct grouping. */
  lemma {:induction false} GroupedIsClustered(rides: seq<Ride>)
    ensures Clustered(rides, Grouped(rides))
    decreases |rides|
  {
    if rides != [] {
      var init := rides[..|rides| - 1];
      var ride := rides[|rides| - 1];
      assert rides == init + [ride];
      GroupedIsClustered(init);
      if FindGroup(Grouped(init), ride.location).Some? {
        PlaceJoinsClustered(init, ride, Grouped(init));
      } else {
        PlaceOpensClustered(init, ride, Grouped(init));
      }
    }
  }

  // ----- Consequences for the map -----

  /** No ride, no group; otherwise at least one. */
  lemma GroupedEmpty(rides: seq<Ride>)
    ensures Grouped(rides) == [] <==> rides == []
  {
    if rides != [] {
      GroupedIsClustered(rides);
      assert FindGroup(Grouped(rides), rides[0].location).Some?;
    }
  }

  /** Every member lies strictly within tolerance of its group's centre, and no
      earlier group's centre is within tolerance of it: the first fit wins, not the nearest. */
  lemma MembersFitFirst(rides: seq<Ride>, j: nat, m: nat)
    requires j < |Grouped(rides)| && m < |Grouped(rides)[j].rides|
    ensures Near(Grouped(rides)[j].centre, Grouped(rides)[j].rides[m].location)
    ensures forall i :: 0 <= i < j ==> !Near(Grouped(rides)[i].centre, Grouped(rides)[j].rides[m].location)
  {
    var g := Grouped(rides);
    GroupedIsClustered(rides);
    MembersOfAssigned(rides, g, j, m);
  }

  lemma {:induction false} MembersOfAssigned(rides: seq<Ride>, groups: seq<Group>, j: nat, m: nat)
    requires m < |MembersOf(rides, groups, j)|
    ensures FindGroup(groups, MembersOf(rides, groups, j)[m].location) == Some(j)
    decreases |rides|
  {
    var init := rides[..|rides| - 1];
    if m < |MembersOf(init, groups, j)| {
      MembersOfAssigned(init, groups, j, m);
    }
  }

  /** Any two centres are at least the tolerance apart. */
  lemma CentresApart(rides: seq<Ride>, i: nat, j: nat)
    requires i < j < |Grouped(rides)|
    ensures !Near(Grouped(rides)[i].centre, Grouped(rides)[j].centre)
    ensures !Near(Grouped(rides)[j].centre, Grouped(rides)[i].centre)
  {
    var g := Grouped(rides);
    GroupedIsClustered(rides);
    MembersFitFirst(rides, j, 0);
    NearSymmetric(g[i].centre, g[j].centre);
  }

  /** The number of rides over all groups. */
  function TotalMembers(groups: seq<Group>): nat
  {
    if groups == [] then 0 else TotalMembers(groups[..|groups| - 1]) + |groups[|groups| - 1].rides|
  }

  lemma {:induction false} TotalMembersGrow(groups: seq<Group>, i: nat, ride: Ride)
    requires i < |groups|
    ensures TotalMembers(groups[i := groups[i].(rides := groups[i].rides + [ride])]) == TotalMembers(groups) + 1
    decreases |groups|
  {
    var g' := groups[i := groups[i].(rides := groups[i].rides + [ride])];
    var n := |groups| - 1;
    assert g'[..n] == if i < n then groups[..n][i := groups[i].(rides := groups[i].rides + [ride])] else groups[..n];
    if i < n {
      TotalMembersGrow(groups[..n], i, ride);
    }
  }

  /** Every ride lands in exactly one group: the group sizes add up to the number of rides. */
  lemma {:induction false} GroupedCountsEveryRide(rides: seq<Ride>)
    ensures TotalMembers(Grouped(rides)) == |rides|
    decreases |rides|
  {
    if rides != [] {
      var init := rides[..|rides| - 1];
      var g := Grouped(init);
      GroupedCountsEveryRide(init);
      match FindGroup(g, rides[|rides| - 1].location)
      case Some(i) => TotalMembersGrow(g, i, rides[|rides| - 1]);
      case None =>
        assert Grouped(rides)[..|g|] == g;
    }
  }

  /** Grouping more rides only extends the groups: the earlier groups keep
      their centres and their members, later rides are only pushed after them. */
  lemma {:induction false} GroupedExtends(rides: seq<Ride>, more: seq<Ride>)
    ensures |Grouped(rides)| <= |Grouped(rides + more)|
    ensures forall i :: 0 <= i < |Grouped(rides)| ==>
      Grouped(rides + more)[i].centre == Grouped(rides)[i].centre &&
      Grouped(rides)[i].rides <= Grouped(rides + more)[i].rides
    decreases |more|
  {
    if more == [] {
      assert rides + more == rides;
    } else {
      var init := more[..|more| - 1];
      assert (rides + more)[..|rides + more| - 1] == rides + init;
      GroupedExtends(rides, init);
    }
  }

  // ----- Worked examples -----

  lemma GroupedSnoc(rides: seq<Ride>, ride: Ride)
    ensures Grouped(rides + [ride]) == Place(Grouped(rides), ride)
  {
    assert (rides + [ride])[..|rides|] == rides;
  }

  lemma GroupedOne(a: Ride)
    ensures Grouped([a]) == [Group(a.location, [a])]
  {
    GroupedSnoc([], a);
    assert [] + [a] == [a];
  }

  lemma FindGroupOne(x: Group, p: Location)
    ensures FindGroup([x], p) == if Near(x.centre, p) then Some(0) else None
  {
  }

  lemma FindGroupTwo(x: Group, y: Group, p: Location)
    ensures FindGroup([x, y], p) ==
      if Near(x.centre, p) then Some(0) else if Near(y.centre, p) then Some(1) else None
  {
  }

  lemma PlaceJoins(g: seq<Group>, ride: Ride, i: nat)
    requires FindGroup(g, ride.location) == Some(i)
    ensures Place(g, ride) == g[i := g[i].(rides := g[i].rides + [ride])]
  {
  }

  lemma PlaceOpens(g: seq<Group>, ride: Ride)
    requires FindGroup(g, ride.location).None?
    ensures Place(g, ride) == g + [Group(ride.location, [ride])]
  {
  }

  /** A and B are within tolerance of each other; C is beyond it from both. */
  ghost predicate OrderExample(a: Ride, b: Ride, c: Ride)
  {
    Near(a.location, b.location) && Near(b.location, a.location) &&
    !Near(a.location, c.location) && !Near(c.location, a.location) && !Near(c.location, b.location)
  }

  /** Rides on a line at (0, 0), (0, 0.0005) and (0, 0.002) are such a triple. */
  lemma OrderExamplePositions(a: Ride, b: Ride, c: Ride)
    requires a.location == Location(0.0, 0.0) && b.location == Location(0.0, 0.0005)
    requires c.location == Location(0.0, 0.002)
    ensures OrderExample(a, b, c)
  {
  }

  /** Grouping is order-sensitive: A, B, C give [{A,B},{C}] in that order ... */
  lemma OrderSensitiveForward(a: Ride, b: Ride, c: Ride)
    requires OrderExample(a, b, c)
    ensures Grouped([a, b, c]) == [Group(a.location, [a, b]), Group(c.location, [c])]
  {
    var g1 := [Group(a.location, [a])];
    var g2 := [Group(a.location, [a, b])];
    GroupedOne(a);
    FindGroupOne(g1[0], b.location);
    PlaceJoins(g1, b, 0);
    GroupedSnoc([a], b);
    assert [a] + [b] == [a, b];
    assert Grouped([a, b]) == g2;
    FindGroupOne(g2[0], c.location);
    PlaceOpens(g2, c);
    GroupedSnoc([a, b], c);
    assert [a, b] + [c] == [a, b, c];
  }

  /** In reverse, C and B are too far apart to share a group ... */
  lemma BackwardTwoGroups(a: Ride, b: Ride, c: Ride)
    requires OrderExample(a, b, c)
    ensures Grouped([c, b]) == [Group(c.location, [c]), Group(b.location, [b])]
  {
    var h1 := [Group(c.location, [c])];
    GroupedOne(c);
    FindGroupOne(h1[0], b.location);
    PlaceOpens(h1, b);
    GroupedSnoc([c], b);
    assert [c] + [b] == [c, b];
  }

  /** ... so reversed, the order gives [{C},{B,A}]. */
  lemma OrderSensitiveBackward(a: Ride, b: Ride, c: Ride)
    requires OrderExample(a, b, c)
    ensures Grouped([c, b, a]) == [Group(c.location, [c]), Group(b.location, [b, a])]
  {
    var h2 := [Group(c.location, [c]), Group(b.location, [b])];
    BackwardTwoGroups(a, b, c);
    FindGroupTwo(h2[0], h2[1], a.location);
    PlaceJoins(h2, a, 1);
    assert [b] + [a] == [b, a];
    GroupedSnoc([c, b], a);
    assert [c, b] + [a] == [c, b, a];
  }

  /** A and B are beyond tolerance of each other, M is within tolerance of
      both, and closer to B. */
  ghost predicate FirstFitExample(a: Ride, b: Ride, m: Ride)
  {
    !Near(a.location, b.location) && Near(a.location, m.location) && Near(b.location, m.location) &&
    SquaredDistance(b.location, m.location) < SquaredDistance(a.location, m.location)
  }

  /** Rides at (0, 0), (0, 0.0015) and (0, 0.0009) are such a triple. */
  lemma FirstFitPositions(a: Ride, b: Ride, m: Ride)
    requires a.location == Location(0.0, 0.0) && b.location == Location(0.0, 0.0015)
    requires m.location == Location(0.0, 0.0009)
    ensures FirstFitExample(a, b, m)
  {
  }

  /** The first two rides are too far apart to share a group. */
  lemma FirstFitTwoGroups(a: Ride, b: Ride, m: Ride)
    requires FirstFitExample(a, b, m)
    ensures Grouped([a, b]) == [Group(a.location, [a]), Group(b.location, [b])]
  {
    var g1 := [Group(a.location, [a])];
    GroupedOne(a);
    FindGroupOne(g1[0], b.location);
    PlaceOpens(g1, b);
    GroupedSnoc([a], b);
    assert [a] + [b] == [a, b];
  }

  /** First fit, not nearest fit: a ride within tolerance of two centres joins
      the older group although the newer centre is closer. */
  lemma FirstFitNotNearest(a: Ride, b: Ride, m: Ride)
    requires FirstFitExample(a, b, m)
    ensures Grouped([a, b, m]) == [Group(a.location, [a, m]), Group(b.location, [b])]
  {
    var g2 := [Group(a.location, [a]), Group(b.location, [b])];
    assert Place(g2, m) == [Group(a.location, [a, m]), g2[1]] by {
      FindGroupTwo(g2[0], g2[1], m.location);
      PlaceJoins(g2, m, 0);
      assert [a] + [m] == [a, m];
    }
    FirstFitTwoGroups(a, b, m);
    GroupedSnoc([a, b], m);
    assert [a, b] + [m] == [a, b, m];
  }
}
