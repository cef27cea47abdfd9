# osm-ways-slope, modelled in Dafny

`osm-ways-slope` reads an OpenStreetMap network and a digital elevation model
and writes, for every way selected by a tag filter, five statistics: the
horizontal `distance`, `climb_distance`, `descent_distance`, total `climb` and
total `descent`. This project models the logic of `src/main.rs` and proves
properties of it. It has three parts, plus the step that puts them together:

- **Filter parsing** (`filters.dfy`, with the string splitting in `text.dfy`).
  The `--filter` argument is split on `,`. Each token is split on `=`: the
  first piece is the key, and the second piece (when there is one) is the
  value. `Text.Split` has the semantics of Rust's `str::split`.
  `Filters.ParseFilterArg` is the loop that pushes one filter per token.
  Without an argument, the list is a single key test on `highway`.
- **Tag predicate** (`filters.dfy`). `Filters.EvalFilters` is the loop that
  visits every filter and raises `ret_val` when one holds. It is proved equal
  to `MatchesAny`, which is an OR over the list.
- **Way aggregation** (`slope.dfy`). `Slope.AggregateWay` does the walk over
  consecutive node pairs, with its five accumulators. It is proved equal to
  `Stats(Segments(...))`. `Stats` is made of independent sums over the
  segments: `Distance`, `Climb`, `Descent`, `ClimbDistance`,
  `DescentDistance`. The lemmas state what those sums satisfy.
- **Pipeline** (`pipeline.dfy`). `SelectWays` applies the predicate to every
  way. `BuildElevationIndex` inserts one sampled elevation per resolved node.
  `ComputeSlopes` builds the result map from way id to statistics. `Run`
  composes the steps.

Lengths and elevations are `real`. The haversine function is the parameter
`dist: (Location, Location) -> real`. It returns kilometres, and the walk
multiplies by `1000.0`, as the source does. The raster read is the parameter
`sample: Location -> real`. The source calls `unwrap()` on node and elevation
lookups. The model replaces those calls with the precondition
`Resolved(nodes, locations, elevations)`: every node of the way has a location
and an elevation.

Three behaviours of the code are easy to misread. The model reproduces each
of them as written:

- **Value of a token.** A token is split on every `=`, and only the first two
  pieces are used. So `a=b=c` gives `KeyValue("a", "b")`, and `c` is dropped
  (`Filters.ExampleDroppedPiece`).
- **Climb and descent distances.** The field names suggest that
  `climb_distance` and `descent_distance` split `distance` between them. The
  code instead adds the *running* distance at every pair (lines 200 and 203).
  So the two together are the sum of all running distances, not the total
  distance (`Slope.CumulativeDistances`). `Slope.ThreeNodeExample` shows a
  case where the two sum to more than `distance`: 200 + 500 against 500.
- **Empty keys.** An empty token is an ordinary key test on the empty key:
  `""` gives `[Key("")]` and `a,` gives `[Key("a"), Key("")]`
  (`Filters.ExampleSingleKeys`, `Filters.ExampleEmptyKey`).

## Model

| member | source | states |
|---|---|---|
| `Text.IndexOf` | src/main.rs:91 | the result is the position of the first occurrence of the character, or the length when the character does not occur |
| `Text.Split` | src/main.rs:88 | splitting always yields at least one piece, and no piece contains the separator |
| `Text.SplitJoin` | src/main.rs:88 | joining the pieces with the separator gives back the input, so no text is lost or reordered |
| `Text.SplitCount` | src/main.rs:88-90 | the number of pieces is the number of separators plus one |
| `Text.SplitAt` | src/main.rs:88 | the first piece ends at the first separator, and the rest is split on its own |
| `Filters.ParseFilterArg` | src/main.rs:86-103 | the loop's list is the filter list of the argument (one filter per token, in order), and it is never empty |
| `Filters.FilterListSpec` | src/main.rs:86-102 | no argument gives exactly `[Key("highway")]`; with an argument, there is one filter per `,`-token (commas + 1, so at least one, even for `""`), in token order, and the tokens rejoin to the argument |
| `Filters.ParseTokenSpec` | src/main.rs:91-97 | a token gives `Key` iff it has no `=`, and then the key is the whole token; otherwise the key is the text before the first `=` and the value is the text up to the next `=` or the end (possibly empty); neither contains `=` |
| `Filters.ParseKeyToken` | src/main.rs:96 | a token without `=` is the key test on itself |
| `Filters.ParseKeyValueToken` | src/main.rs:95 | `k=v`, where neither part has `=`, is the key/value test on `k` and `v` |
| `Filters.ParseDroppedTail` | src/main.rs:91-95 | in `k=v=rest`, everything after the second `=` is dropped |
| `Filters.FilterListTwoTokens` | src/main.rs:88-99 | two comma-separated tokens give their two filters, in order |
| `Filters.FilterListTwoPairs` | src/main.rs:88-99 | `k1=v1,k2=v2` gives `[KeyValue(k1,v1), KeyValue(k2,v2)]` |
| `Filters.FilterListSingleKey` | src/main.rs:88-99 | an argument with no `,` and no `=` is a single key test on itself |
| `Filters.ExampleSingleKeys` | src/main.rs:88-99 | `highway` gives `[Key("highway")]`; the empty argument gives `[Key("")]` |
| `Filters.ExampleTwoPairs` | src/main.rs:88-99 | `highway=primary,surface=paved` gives the two key/value tests, in order |
| `Filters.ExampleDroppedPiece` | src/main.rs:91-95 | `a=b=c` gives `[KeyValue("a","b")]` |
| `Filters.ExampleEmptyValue` | src/main.rs:91-97 | `a=,b` gives a test for `a` with the empty value, then a key test on `b` |
| `Filters.ExampleEmptyKey` | src/main.rs:88-99 | `a,` gives a key test on `a`, then a key test on the empty key |
| `Filters.EvalFilters` | src/main.rs:57-80 | the flag is true iff at least one filter holds of the tags; an empty list never matches |
| `Filters.MatchesAnySameConditions` | src/main.rs:60-77 | two lists with the same conditions, in any order and with any repetitions, get the same verdict |
| `Filters.MatchesAnyRepeat` | src/main.rs:60-77 | adding a second copy of a condition already in the list does not change the verdict |
| `Filters.MatchesAnyConcat` | src/main.rs:60-77 | the verdict on two concatenated lists is the OR of their verdicts |
| `Filters.KeyIgnoresValue` | src/main.rs:63-67 | a key test holds iff some key/value test on that key holds, whatever the value |
| `Filters.KeyValueExact` | src/main.rs:68-74 | a key/value test holds when the stored value is exactly the value and fails for any other value; neither test holds for an absent key |
| `Filters.MatchExamples` | src/main.rs:57-80 | `{highway: residential}` matches `[Key("highway")]`, does not match `[KeyValue("highway","primary")]`, and does not match the empty list |
| `Slope.Segments` | src/main.rs:171-186 | one segment per consecutive node pair, none for fewer than two nodes; segments are chained, run from the first node's elevation to the last's, and have non-negative lengths when `dist` does |
| `Slope.AggregateWay` | src/main.rs:163-207 | the five accumulators equal the statistics of the way's segments; all zero below two nodes; climb minus descent is last minus first elevation; climb and descent are non-negative for any `dist`; the three distances are non-negative, and climb distance plus descent distance is at least the distance, when `dist` is non-negative |
| `Slope.DistanceNonNegative` | src/main.rs:188-197 | the total distance is non-negative when every segment length is |
| `Slope.StatsNonNegative` | src/main.rs:188-206 | all five statistics are non-negative when every segment length is |
| `Slope.StatsNonNegativeSigns` | src/main.rs:199-206 | climb and descent are non-negative for any lengths |
| `Slope.Telescoping` | src/main.rs:199-206 | climb minus descent equals the last elevation minus the first (each pair gives its whole change to one side) |
| `Slope.ClimbAtLeastNetRise` | src/main.rs:199-206 | the climb is at least the net rise, and the descent at least the net drop |
| `Slope.CumulativeDistances` | src/main.rs:188-206 | climb distance plus descent distance equals the sum of the running distances, which is at least the total distance |
| `Slope.FlatWay` | src/main.rs:199-206 | on equal elevations nothing goes to climb or descent, and every running distance goes to descent distance |
| `Slope.FlatStep` | src/main.rs:199-206 | a flat pair anywhere in a way adds nothing to climb or descent |
| `Slope.DistanceOfSegments` | src/main.rs:171-197 | extending a way by one node adds that pair's `dist` times 1000 to the distance |
| `Slope.ThreeNodeExample` | src/main.rs:188-206 | elevations 100, 150, 120 with lengths 200 m and 300 m give distance 500, climb distance 200, descent distance 500, climb 50, descent 30: the two distances do not sum to the distance |
| `Pipeline.SelectWays` | src/main.rs:117-120 | a way is kept iff it is among the input ways and its tags match the filters; distinct ids stay distinct |
| `Pipeline.BuildElevationIndex` | src/main.rs:122-145 | the index has exactly the resolved nodes as keys, and each holds the sample at that node's location |
| `Pipeline.ComputeSlopes` | src/main.rs:156-219 | the result map has exactly the ways' ids as keys, one entry per way, and each entry holds that way's statistics |
| `Pipeline.InsertNext` | src/main.rs:209-218 | inserting the next way's record keeps the keys equal to the ids seen, one entry per way, and each entry belonging to its way |
| `Pipeline.Run` | src/main.rs:86-219 | the result's keys are the ids of the ways whose tags match the parsed filter argument, and each entry holds that way's statistics over the sampled elevations |

## Left out

- `haversine_distance` (src/main.rs:43-54) uses floating-point trigonometry.
  It is the parameter `dist`. The model assumes non-negativity only where a
  contract needs it (`NonNegativeMetric`). It does not model symmetry or the
  Earth radius 6371.
- The GDAL dataset, geotransform inversion, `f64 as isize` truncation,
  nearest-neighbour read and their failures (src/main.rs:111-115, 134-143)
  are foreign calls on floats. `BuildElevationIndex` takes the result of
  the read as the parameter `sample`.
- OSM PBF parsing and `get_objs_and_deps` (src/main.rs:106-108, 118-120) are
  a library. The model takes the ways and the node locations it returns as
  inputs, with distinct way ids and every node of a selected way resolved.
  This replaces the `unwrap()` panics at lines 175-184 and 199-205.
- Command-line parsing (src/main.rs:8-20, 83), the JSON encoding and the
  file write (src/main.rs:222-224) are I/O.
- The `FxHashMap` hasher and capacity hint (src/main.rs:157-160) only affect
  performance. Dafny maps are unordered, so no key order of the output is
  modelled.
- `f64` rounding, infinities and NaN are not modelled, because the model uses
  `real`. With a NaN elevation the source's `<` is false, and NaN goes into
  `descent`. The model has no such value.
- `Slope.AggregateWay`: the non-negativity of `distance`, `climb_distance`
  and `descent_distance`, and the bound on the two distances, hold only when
  `dist` yields non-negative lengths. That is a hypothesis about the
  haversine function, which is out of the model. Climb and descent are
  non-negative for any `dist`.
