/**
 The whole run: parse the filter argument, keep the ways whose tags match it,
 record an elevation for every node `get_objs_and_deps` resolved, and
 write one statistics record per selected way, keyed by way id.
 */
module Pipeline {
  import opened Filters
  import opened Slope

  /** A way as the PBF reader returns it. */
  datatype Way = Way(id: int, nodes: seq<int>, tags: map<string, string>)

  /** No two ways share an id (they come out of a collection keyed by id). */
  predicate DistinctIds(ways: seq<Way>)
  {
    forall i, j :: 0 <= i < j < |ways| ==> ways[i].id != ways[j].id
  }

  function WayIds(ways: seq<Way>): set<int>
  {
    set w | w in ways :: w.id
  }

  /** The ways the filters select, as `get_objs_and_deps` keeps them. */
  method SelectWays(ways: seq<Way>, filters: seq<Filter>) returns (selected: seq<Way>)
    ensures forall w :: w in selected <==> w in ways && MatchesAny(filters, w.tags)
    ensures DistinctIds(ways) ==> DistinctIds(selected)
  {
    selected := [];
    for i := 0 to |ways|
      invariant forall w :: w in selected <==> w in ways[..i] && MatchesAny(filters, w.tags)
      invariant DistinctIds(ways) ==> DistinctIds(selected)
    {
      var keep := EvalFilters(filters, ways[i].tags);
      if keep {
        if DistinctIds(ways) {
          forall k | 0 <= k < |selected| ensures selected[k].id != ways[i].id {
            assert selected[k] in ways[..i];
            var j :| 0 <= j < i && ways[..i][j] == selected[k];
            assert ways[j] == selected[k];
          }
        }
        selected := selected + [ways[i]];
      }
      assert ways[..i + 1] == ways[..i] + [ways[i]];
    }
    assert ways[..|ways|] == ways;
  }

  /**
   Samples an elevation for every resolved node, once each. The raster read
   is the parameter `sample`.
   */
  method BuildElevationIndex(locations: map<int, Location>, sample: Location -> real)
    returns (index: map<int, real>)
    ensures index.Keys == locations.Keys
    ensures forall n :: n in index ==> index[n] == sample(locations[n])
  {
    index := map[];
    var todo := locations.Keys;
    while todo != {}
      invariant todo <= locations.Keys
      invariant index.Keys == locations.Keys - todo
      invariant forall n :: n in index ==> index[n] == sample(locations[n])
      decreases todo
    {
      assert exists m :: m in todo by {
        if forall m :: m !in todo {
          assert false;
        }
      }
      var n :| n in todo;
      index := index[n := sample(locations[n])];
      todo := todo - {n};
    }
  }

  /**
   One statistics record per way, keyed by the way's id: the result has
   exactly the ways' ids as keys, one entry per way, and each entry is the
   statistics of that way's node pairs.
   */
  method ComputeSlopes(ways: seq<Way>, locations: map<int, Location>, elevations: map<int, real>,
                       dist: (Location, Location) -> real) returns (result: map<int, WayInfo>)
    requires DistinctIds(ways)
    requires forall w :: w in ways ==> Resolved(w.nodes, locations, elevations)
    ensures result.Keys == WayIds(ways)
    ensures |result| == |ways|
    ensures forall w :: w in ways ==> result[w.id] == WayStats(w, locations, elevations, dist)
  {
    ghost var stats := seq(|ways|, k requires 0 <= k < |ways| => WayStats(ways[k], locations, elevations, dist));
    result := map[];
    for i := 0 to |ways|
      invariant KeyedSoFar(ways, i, result, stats)
    {
      var info := AggregateWay(ways[i].nodes, locations, elevations, dist);
      InsertNext(ways, i, result, stats);
      result := result[ways[i].id := info];
    }
    KeyedDone(ways, result, stats);
    forall w | w in ways ensures result[w.id] == WayStats(w, locations, elevations, dist) {
      var k :| 0 <= k < |ways| && ways[k] == w;
    }
  }

  /** After the first `i` ways: their ids are the keys, one entry each, and way `k`'s entry is `values[k]`. */
  ghost predicate KeyedSoFar<V>(ways: seq<Way>, i: nat, result: map<int, V>, values: seq<V>)
  {
    && i <= |ways| == |values|
    && result.Keys == WayIds(ways[..i])
    && |result| == i
    && forall k :: 0 <= k < i ==> result[ways[k].id] == values[k]
  }

  lemma InsertNext<V>(ways: seq<Way>, i: nat, result: map<int, V>, values: seq<V>)
    requires DistinctIds(ways) && i < |ways|
    requires KeyedSoFar(ways, i, result, values)
    ensures KeyedSoFar(ways, i + 1, result[ways[i].id := values[i]], values)
  {
  }

  lemma KeyedDone<V>(ways: seq<Way>, result: map<int, V>, values: seq<V>)
    requires KeyedSoFar(ways, |ways|, result, values)
    ensures result.Keys == WayIds(ways)
    ensures |result| == |ways|
  {
    assert ways[..|ways|] == ways;
  }

  /** The statistics of one way. */
  function WayStats(w: Way, locations: map<int, Location>, elevations: map<int, real>,
                    dist: (Location, Location) -> real): WayInfo
    requires Resolved(w.nodes, locations, elevations)
  {
    Stats(Segments(w.nodes, locations, elevations, dist))
  }

  /**
   The run: the result holds one entry per way whose tags match the filter
   argument (the default `highway` key test when there is none), keyed by
   way id, and each entry is that way's statistics over the sampled
   elevations.
   */
  method Run(filterArg: Option<string>, ways: seq<Way>, locations: map<int, Location>,
             sample: Location -> real, dist: (Location, Location) -> real)
    returns (result: map<int, WayInfo>)
    requires DistinctIds(ways)
    requires forall w :: w in ways && MatchesAny(FilterList(filterArg), w.tags) ==>
               forall k :: 0 <= k < |w.nodes| ==> w.nodes[k] in locations
    ensures result.Keys == set w | w in ways && MatchesAny(FilterList(filterArg), w.tags) :: w.id
    ensures forall w :: w in ways && MatchesAny(FilterList(filterArg), w.tags) ==>
              result[w.id] == Stats(Segments(w.nodes, locations, Elevations(locations, sample), dist))
  {
    var filters := ParseFilterArg(filterArg);
    var selected := SelectWays(ways, filters);
    var index := BuildElevationIndex(locations, sample);
    IndexIsElevations(index, locations, sample);
    assert forall w :: w in selected ==> Resolved(w.nodes, locations, index);
    result := ComputeSlopes(selected, locations, index, dist);
    SelectedIds(ways, selected, filters);
  }

  lemma IndexIsElevations(index: map<int, real>, locations: map<int, Location>, sample: Location -> real)
    requires index.Keys == locations.Keys
    requires forall n :: n in index ==> index[n] == sample(locations[n])
    ensures index == Elevations(locations, sample)
  {
    var e := Elevations(locations, sample);
    assert index.Keys == e.Keys;
    forall n | n in index ensures index[n] == e[n] {
    }
  }

  lemma SelectedIds(ways: seq<Way>, selected: seq<Way>, filters: seq<Filter>)
    requires forall w :: w in selected <==> w in ways && MatchesAny(filters, w.tags)
    ensures WayIds(selected) == set w | w in ways && MatchesAny(filters, w.tags) :: w.id
  {
  }

  /** The elevation index a sampler yields for the resolved nodes. */
  function Elevations(locations: map<int, Location>, sample: Location -> real): map<int, real>
  {
    map n | n in locations :: sample(locations[n])
  }
}
