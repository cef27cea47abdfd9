/**
 Per-way slope statistics: the walk over a way's consecutive node pairs that
 accumulates horizontal distance, climb and descent, and the climb and descent
 "distances" with the tool's cumulative accounting.

 Lengths and elevations are reals. The great-circle distance between two
 locations is a parameter `dist` (kilometres, as the haversine function
 returns); the walk converts it to metres.
 */
module Slope {

  datatype Location = Location(latitude: real, longitude: real)

  /** The five statistics written for one way. */
  datatype WayInfo = WayInfo(distance: real, climbDistance: real, descentDistance: real,
                             climb: real, descent: real)

  /** One node pair of a way: its length in metres and the elevations at its two ends. */
  datatype Segment = Segment(length: real, from: real, to: real)

  const Zero := WayInfo(0.0, 0.0, 0.0, 0.0, 0.0)

  /** Only a strict rise is a climb; a flat or falling segment counts as descent. */
  predicate IsClimb(s: Segment)
  {
    s.from < s.to
  }

  /** Total horizontal length of the segments. */
  function Distance(segs: seq<Segment>): real
  {
    if segs == [] then 0.0 else Distance(segs[..|segs| - 1]) + segs[|segs| - 1].length
  }

  /** Sum of the rises of the climb segments. */
  function Climb(segs: seq<Segment>): real
  {
    if segs == [] then 0.0
    else
      var last := segs[|segs| - 1];
      Climb(segs[..|segs| - 1]) + (if IsClimb(last) then last.to - last.from else 0.0)
  }

  /** Sum of the drops of the other segments. */
  function Descent(segs: seq<Segment>): real
  {
    if segs == [] then 0.0
    else
      var last := segs[|segs| - 1];
      Descent(segs[..|segs| - 1]) + (if IsClimb(last) then 0.0 else last.from - last.to)
  }

  /**
   For each climb segment, the distance walked up to and including it (not the
   segment's own length): the tool's accounting.
   */
  function ClimbDistance(segs: seq<Segment>): real
  {
    if segs == [] then 0.0
    else ClimbDistance(segs[..|segs| - 1]) + (if IsClimb(segs[|segs| - 1]) then Distance(segs) else 0.0)
  }

  /** The same for the segments that are not climbs. */
  function DescentDistance(segs: seq<Segment>): real
  {
    if segs == [] then 0.0
    else DescentDistance(segs[..|segs| - 1]) + (if IsClimb(segs[|segs| - 1]) then 0.0 else Distance(segs))
  }

  /** The sum, over every segment, of the distance walked up to and including it. */
  function PrefixDistances(segs: seq<Segment>): real
  {
    if segs == [] then 0.0 else PrefixDistances(segs[..|segs| - 1]) + Distance(segs)
  }

  /** The statistics of a way made of these segments. */
  function Stats(segs: seq<Segment>): WayInfo
  {
    WayInfo(Distance(segs), ClimbDistance(segs), DescentDistance(segs), Climb(segs), Descent(segs))
  }

  predicate NonNegativeLengths(segs: seq<Segment>)
  {
    forall i :: 0 <= i < |segs| ==> segs[i].length >= 0.0
  }

  /** Each segment starts at the elevation where the previous one ends. */
  predicate Chained(segs: seq<Segment>)
  {
    forall i :: 0 <= i < |segs| - 1 ==> segs[i].to == segs[i + 1].from
  }

  /** The distance function never yields a negative length. */
  ghost predicate NonNegativeMetric(dist: (Location, Location) -> real)
  {
    forall a, b :: dist(a, b) >= 0.0
  }

  /** Every node of the way has a location and an elevation. */
  predicate Resolved(nodes: seq<int>, locations: map<int, Location>, elevations: map<int, real>)
  {
    forall i :: 0 <= i < |nodes| ==> nodes[i] in locations && nodes[i] in elevations
  }

  function SegmentAt(nodes: seq<int>, locations: map<int, Location>, elevations: map<int, real>,
                     dist: (Location, Location) -> real, i: nat): Segment
    requires Resolved(nodes, locations, elevations)
    requires i + 1 < |nodes|
  {
    var a, b := nodes[i], nodes[i + 1];
    Segment(dist(locations[a], locations[b]) * 1000.0, elevations[a], elevations[b])
  }

  /**
   The segments of a way: one per consecutive node pair, in order, none when
   the way has fewer than two nodes. They are chained, run from the first
   node's elevation to the last one's, and have non-negative lengths when the
   distance function does.
   */
  function Segments(nodes: seq<int>, locations: map<int, Location>, elevations: map<int, real>,
                    dist: (Location, Location) -> real): (segs: seq<Segment>)
    requires Resolved(nodes, locations, elevations)
    ensures |segs| == if |nodes| < 2 then 0 else |nodes| - 1
    ensures forall i :: 0 <= i < |segs| ==> segs[i] == SegmentAt(nodes, locations, elevations, dist, i)
    ensures Chained(segs)
    ensures |segs| > 0 ==> segs[0].from == elevations[nodes[0]]
                           && segs[|segs| - 1].to == elevations[nodes[|nodes| - 1]]
    ensures NonNegativeMetric(dist) ==> NonNegativeLengths(segs)
  {
    if |nodes| < 2 then []
    else seq(|nodes| - 1, i requires 0 <= i < |nodes| - 1 => SegmentAt(nodes, locations, elevations, dist, i))
  }

  /**
   The walk over one way: one step per consecutive node pair, adding the
   pair's length to the running distance and classifying the pair as a climb
   (strict rise) or a descent.
   */
  method AggregateWay(nodes: seq<int>, locations: map<int, Location>, elevations: map<int, real>,
                      dist: (Location, Location) -> real) returns (info: WayInfo)
    requires Resolved(nodes, locations, elevations)
    ensures info == Stats(Segments(nodes, locations, elevations, dist))
    ensures |nodes| < 2 ==> info == Zero
    ensures |nodes| >= 2 ==> info.climb - info.descent == elevations[nodes[|nodes| - 1]] - elevations[nodes[0]]
    ensures info.climb >= 0.0 && info.descent >= 0.0
    ensures NonNegativeMetric(dist) ==>
              && info.distance >= 0.0
              && info.climbDistance >= 0.0 && info.descentDistance >= 0.0
              && info.climbDistance + info.descentDistance >= info.distance
  {
    ghost var segs := Segments(nodes, locations, elevations, dist);
    var distance, climbDistance, descentDistance, climb, descent := 0.0, 0.0, 0.0, 0.0, 0.0;
    var i := 0;
    while i + 1 < |nodes|
      invariant 0 <= i <= |segs|
      invariant distance == Distance(segs[..i])
      invariant climbDistance == ClimbDistance(segs[..i])
      invariant descentDistance == DescentDistance(segs[..i])
      invariant climb == Climb(segs[..i])
      invariant descent == Descent(segs[..i])
    {
      var a, b := nodes[i], nodes[i + 1];
      assert segs[..i + 1][..i] == segs[..i];
      distance := distance + dist(locations[a], locations[b]) * 1000.0;
      if elevations[a] < elevations[b] {
        climbDistance := climbDistance + distance;
        climb := climb + (elevations[b] - elevations[a]);
      } else {
        descentDistance := descentDistance + distance;
        descent := descent + (elevations[a] - elevations[b]);
      }
      i := i + 1;
    }
    assert segs[..i] == segs;
    info := WayInfo(distance, climbDistance, descentDistance, climb, descent);
    if |nodes| >= 2 {
      Telescoping(segs);
    }
    StatsNonNegativeSigns(segs);
    if NonNegativeMetric(dist) {
      StatsNonNegative(segs);
      CumulativeDistances(segs);
    }
  }

  lemma {:induction false} DistanceNonNegative(segs: seq<Segment>)
    requires NonNegativeLengths(segs)
    ensures Distance(segs) >= 0.0
  {
    if segs != [] {
      DistanceNonNegative(segs[..|segs| - 1]);
    }
  }

  /** All five statistics are non-negative when the lengths are. */
  lemma {:induction false} StatsNonNegative(segs: seq<Segment>)
    requires NonNegativeLengths(segs)
    ensures Distance(segs) >= 0.0 && Climb(segs) >= 0.0 && Descent(segs) >= 0.0
    ensures ClimbDistance(segs) >= 0.0 && DescentDistance(segs) >= 0.0
  {
    if segs != [] {
      StatsNonNegative(segs[..|segs| - 1]);
      DistanceNonNegative(segs);
    }
  }

  /** Each segment adds its elevation change to exactly one side, so the sums telescope. */
  lemma {:induction false} Telescoping(segs: seq<Segment>)
    requires Chained(segs) && |segs| > 0
    ensures Climb(segs) - Descent(segs) == segs[|segs| - 1].to - segs[0].from
  {
    if |segs| > 1 {
      var init := segs[..|segs| - 1];
      assert Chained(init) by {
        forall i | 0 <= i < |init| - 1 ensures init[i].to == init[i + 1].from {
          assert init[i] == segs[i] && init[i + 1] == segs[i + 1];
        }
      }
      Telescoping(init);
      assert init[|init| - 1] == segs[|segs| - 2];
    }
  }

  /** The total climb is at least the net rise from the first node to the last. */
  lemma ClimbAtLeastNetRise(segs: seq<Segment>)
    requires Chained(segs) && |segs| > 0
    ensures Climb(segs) >= segs[|segs| - 1].to - segs[0].from
    ensures Descent(segs) >= segs[0].from - segs[|segs| - 1].to
  {
    Telescoping(segs);
    StatsNonNegativeSigns(segs);
  }

  /** Climb and descent are non-negative whatever the lengths. */
  lemma {:induction false} StatsNonNegativeSigns(segs: seq<Segment>)
    ensures Climb(segs) >= 0.0 && Descent(segs) >= 0.0
  {
    if segs != [] {
      StatsNonNegativeSigns(segs[..|segs| - 1]);
    }
  }

  /**
   Every segment puts its running distance on exactly one side, so the climb
   and descent distances together are the sum of all running distances; that
   sum is at least the total distance (the last running distance is the total).
   */
  lemma {:induction false} CumulativeDistances(segs: seq<Segment>)
    requires NonNegativeLengths(segs)
    ensures ClimbDistance(segs) + DescentDistance(segs) == PrefixDistances(segs)
    ensures PrefixDistances(segs) >= Distance(segs)
  {
    if segs != [] {
      var init := segs[..|segs| - 1];
      assert NonNegativeLengths(init) by {
        forall i | 0 <= i < |init| ensures init[i].length >= 0.0 {
          assert init[i] == segs[i];
        }
      }
      CumulativeDistances(init);
      StatsNonNegative(init);
    }
  }

  /** On a flat way nothing is climbed or descended, and all running distances go to descent. */
  lemma {:induction false} FlatWay(segs: seq<Segment>)
    requires forall i :: 0 <= i < |segs| ==> segs[i].from == segs[i].to
    ensures Climb(segs) == 0.0 && Descent(segs) == 0.0
    ensures ClimbDistance(segs) == 0.0 && DescentDistance(segs) == PrefixDistances(segs)
  {
    if segs != [] {
      var init := segs[..|segs| - 1];
      assert forall i :: 0 <= i < |init| ==> init[i] == segs[i];
      FlatWay(init);
    }
  }

  /** A flat pair, wherever it occurs in a way, adds nothing to climb or descent. */
  lemma FlatStep(segs: seq<Segment>, s: Segment)
    requires s.from == s.to
    ensures Climb(segs + [s]) == Climb(segs) && Descent(segs + [s]) == Descent(segs)
  {
    assert (segs + [s])[..|segs|] == segs;
  }

  /** The way's distance is the sum of the lengths of its node pairs, in metres. */
  lemma {:induction false} DistanceOfSegments(nodes: seq<int>, locations: map<int, Location>,
                                              elevations: map<int, real>, dist: (Location, Location) -> real)
    requires Resolved(nodes, locations, elevations) && |nodes| >= 2
    ensures var n := |nodes|;
            Distance(Segments(nodes, locations, elevations, dist))
            == Distance(Segments(nodes[..n - 1], locations, elevations, dist))
               + dist(locations[nodes[n - 2]], locations[nodes[n - 1]]) * 1000.0
  {
    var n := |nodes|;
    var segs := Segments(nodes, locations, elevations, dist);
    var init := nodes[..n - 1];
    assert Resolved(init, locations, elevations) by {
      forall i | 0 <= i < |init| ensures init[i] in locations && init[i] in elevations {
        assert init[i] == nodes[i];
      }
    }
    var segsInit := Segments(init, locations, elevations, dist);
    assert segsInit == segs[..n - 2] by {
      forall i | 0 <= i < n - 2 ensures segsInit[i] == segs[i] {
        assert init[i] == nodes[i] && init[i + 1] == nodes[i + 1];
      }
    }
  }

  /**
   The three-node example: elevations 100, 150, 120 and lengths 200 m and
   300 m give distance 500, climb 50 and descent 30; the climb distance is
   the 200 m walked so far and the descent distance the 500 m walked so far,
   so the two together exceed the total distance.
   */
  lemma ThreeNodeExample()
    ensures var segs := [Segment(200.0, 100.0, 150.0), Segment(300.0, 150.0, 120.0)];
            && Stats(segs) == WayInfo(500.0, 200.0, 500.0, 50.0, 30.0)
            && Stats(segs).climbDistance + Stats(segs).descentDistance != Stats(segs).distance
  {
    var first := [Segment(200.0, 100.0, 150.0)];
    var segs := first + [Segment(300.0, 150.0, 120.0)];
    assert segs[..1] == first;
    assert first[..0] == [];
    assert Stats(first) == WayInfo(200.0, 200.0, 0.0, 50.0, 0.0);
    assert Distance(segs) == 500.0;
  }
}
