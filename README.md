# Beacon scanners and reactor reboot, modelled in Dafny

This project models two Advent of Code 2021 solutions written in Python with numpy.

**Day 19, beacon scanners.** Each scanner reports the beacons it sees in its own frame,
in homogeneous coordinates `(x, y, z, 1)`.
- Every beacon is hashed by taking its Manhattan distance to every other beacon of the same
  scan (`beacon_hash`, `build_lookup`).
- Two beacons of different scans are a candidate overlap when their hash sets share at least
  12 values (`find_scan_overlaps`). The candidates are sorted by match beacon, in descending
  order, and grouped into the connections of each scan.
- Starting from scanner 0, a breadth-first walk over the connections solves, for each newly
  reached scan, the transform into scanner 0's frame (`find_transform`,
  `find_scan_transforms`). It uses correspondences whose hash value is unique in both rows.
- Part a is the number of distinct beacons once every scan is moved into scanner 0's frame.
- Part b (`day19_b`) is the largest Manhattan distance between two scanner positions. A
  position is the last row of its transform matrix.

**Day 22, reactor reboot.** Each input line `on x=a..b,y=c..d,z=e..f` is parsed into a
command and three half-open ranges `[a, b + 1)`. `count_active_cubes` does three things:
- it compresses the coordinates axis by axis with `np.unique`;
- it paints the steps in order onto a boolean grid over the compressed indices;
- it sums the cells that are on, each weighted by the product of its sizes along the three
  axes.

Part a uses only the steps whose bounds all lie in `[-50, 51]`. Part b uses every step.

## Design

**Modules**

| module | models |
|---|---|
| `Results` | `Option` and `Result` |
| `Beacons` | points; the hash; signed axis permutations plus a translation, and their 4x4 matrix form |
| `Lookup` | `build_lookup` |
| `Overlaps` | the scoring loops of `find_scan_overlaps`, the sort and the groupby |
| `Solver` | `find_transform` |
| `Composer` | `find_scan_transforms` |
| `Day19` | merging, the unique count, `day19_b` and the pipeline |
| `RebootParse` | the per-line parse, with a formatter as its inverse |
| `Compression` | `np.unique`, the inverse index, `np.diff`, and the summation facts of compression |
| `Cubes` | the reference meaning of a step list: the state of every integer cube, and the number of cubes on in a box |
| `Reactor` | `count_active_cubes` on a three-dimensional `array3<bool>` |
| `Day22` | reading all lines, the part-a filter and the pipeline |
| `Day22Example`, `Day22Input`, `Day22ExampleAnswers` | the four-step example from the header comment of `day22.py` |

**How the loops are modelled**
- The imperative loops are methods with loop invariants:
  - the loop over the steps in `Reactor.CountActiveCubes`, which paints each step onto the
    grid with `Reactor.PaintStep` (`Reactor.Paint` is the slice assignment, written as a
    `forall` statement);
  - the scoring loops in `Overlaps.ScoreReference` and `Overlaps.ScoreQuery`;
  - the correspondence loop in `Solver.FindTransform`;
  - the breadth-first queue in `Composer.FindScanTransforms` and `Composer.Visit`;
  - the merge and double loop in `Day19.MergeBeacons` and `Day19.MaxScannerDistance`;
  - the line loop in `Day22.ReadRebootSteps`.
- Each method is proved against a specification function. The properties of those functions
  are proved as lemmas.
- `CountActiveCubes` is proved equal to `Cubes.CountIn`. `CountIn` counts, one integer
  coordinate at a time, the cubes whose last covering step is `on`.

**The linear solve.** `np.linalg.solve` followed by `np.rint` is replaced by an exact search.
`Solver.Solve` tries all 48 signed axis permutations, with the translation that maps the
first target point onto the first source point. It returns:
- `Singular` when the 4x4 matrix of the first four target rows has determinant 0.
- `TooFewCorrespondences` when fewer than four correspondences exist.
- `NoRigidFit` when no candidate fits the four pairs.

For `Singular` and `NoRigidFit` the source does not always fail; "## Left out" says what it
does instead.

**Code that differs from its comments.** The source comments say a scanner has "24
different orientations". The solve does not exclude reflections, so the model enumerates all
48 signed permutations, as the code allows.

## Model

| member | source | states |
|---|---|---|
| Beacons.HashEntries | day19/day19.py:55-59 | The hash row of a beacon holds, at each position, the spatial Manhattan distance from that beacon to the beacon at that position; its own entry is 0. |
| Beacons.DistIsSpatialManhattan | day19/day19.py:47-50 | For two homogeneous points with the same 4th coordinate, the 4-coordinate absolute sum is the spatial Manhattan distance. |
| Beacons.RotationPreservesDistance | day19/day19.py:56-58 | A signed axis permutation leaves the Manhattan distance between two points unchanged. |
| Beacons.TransformPreservesDistance | day19/day19.py:56-58 | A rotation plus translation leaves the distance between two homogeneous points unchanged. |
| Beacons.HashInvariant | day19/day19.py:56-58 | Transforming a scan and its reference beacon leaves the hash row unchanged, which is why hashes can be compared across scans. |
| Beacons.ApplyInjective | day19/day19.py:150 | Transforming beacons never merges two distinct beacons. |
| Beacons.MatrixAgreesWithApply | day19/day19.py:84 | The row-vector-times-matrix product with the 4x4 matrix of a transform equals applying the transform. |
| Beacons.MatrixShape | day19/day19.py:130-131 | A transform matrix has a signed permutation block, a last column (0, 0, 0, 1) and the translation as its last row. |
| Beacons.OriginMapsToTranslation | day19/day19.py:130-131 | The origin of a scan is carried onto the translation row, so the last row is the scanner's position. |
| Beacons.IdentityMatrix | day19/day19.py:91 | Scanner 0's transform is the 4x4 identity matrix. |
| Beacons.IdentityIsNoOp | day19/day19.py:91 | The identity transform leaves every point unchanged. |
| Lookup.BuildLookup | day19/day19.py:61-68 | One hash row per beacon, each equal to the beacon's hash over its scan, with the value set of each row. |
| Lookup.LookupSymmetric | day19/day19.py:61-68 | Row i at position j equals row j at position i; every diagonal entry is 0. |
| Lookup.ValueSetMembership | day19/day19.py:67 | A distance is in a beacon's lookup set exactly when some beacon of the scan lies at that distance. |
| Lookup.SetInvariant | day19/day19.py:56-67 | A beacon's lookup set is the same whichever frame the scan is expressed in. |
| Overlaps.ScoreReference | day19/day19.py:111-118 | The loops over match scans and match beacons for one reference beacon produce the scoring specification for that beacon. |
| Overlaps.ScoreQuery | day19/day19.py:110-118 | The loops for one query scan produce the scoring specification for that scan. |
| Overlaps.ScoresJCount | day19/day19.py:115-118 | The inner loop emits a record exactly once when the beacon pair scores at least 12, and never otherwise. |
| Overlaps.ScoresMCount | day19/day19.py:111-118 | The match-scan loop skips the query scan itself and emits each qualifying record once. |
| Overlaps.ScoresICount | day19/day19.py:110-118 | The loop over reference beacons emits each qualifying record of the query scan once. |
| Overlaps.ScoresQCount | day19/day19.py:109-118 | The full loop nest emits each qualifying record exactly once. A record qualifies when it has two different scans, valid beacons, a score equal to the size of the intersection of the two sets, and a score of at least 12. |
| Overlaps.LoneScanScoresI | day19/day19.py:110-113 | With a single scan, every match scan is the query scan itself and is skipped, so no record is emitted. |
| Overlaps.LoneScan | day19/day19.py:109-113 | With at most one scan the score table is empty. |
| Overlaps.SortSpec | day19/day19.py:120 | The sort is descending by match beacon, is a permutation, and is stable: records with equal keys keep their order. |
| Overlaps.SortedRecords | day19/day19.py:109-120 | After sorting, the records are exactly the qualifying overlaps, without duplicates, in descending match-beacon order. |
| Overlaps.ConnectionsSpec | day19/day19.py:122 | The groupby has a key for exactly the scans that query some record; each key lists exactly that scan's match scans, each once. |
| Overlaps.MirrorQualifies | day19/day19.py:111-118 | Overlap is symmetric: when a record qualifies, so does the record with the two scans swapped. |
| Overlaps.FindScanOverlaps | day19/day19.py:106-123 | The records are the sorted scoring result, hold exactly the qualifying overlaps without duplicates, and come with their connections. With at most one scan there are no records and no connections. |
| Solver.FirstIndex | day19/day19.py:75-76 | The first position of a value in a row; no earlier position holds it. |
| Solver.CorrespondencesSpec | day19/day19.py:71-81 | Each correspondence pairs the only source position and the only target position of one shared hash value. Every value that is unique on both sides yields one. Source positions strictly increase. |
| Solver.AllRotationsComplete | day19/day19.py:87 | The 48 candidate rotations include every signed axis permutation. |
| Solver.CandidateUnique | day19/day19.py:87 | Any transform mapping the first target point onto the first source point is among the candidates. |
| Solver.SearchSound | day19/day19.py:87 | A transform the search returns fits all four sample pairs. |
| Solver.SearchComplete | day19/day19.py:87 | If some candidate fits the four sample pairs, the search finds one. |
| Solver.SolveSound | day19/day19.py:84-88 | A successful solve had four points on each side and fits all four pairs. |
| Solver.SolveComplete | day19/day19.py:87-88 | When the solve reports no rigid fit, no transform at all fits the four pairs. |
| Solver.SolveErrors | day19/day19.py:87 | Too few correspondences exactly when either side has fewer than four points. Singular exactly when the 4x4 determinant of the first four target rows is 0. |
| Solver.FindTransform | day19/day19.py:70-88 | The correspondence loop and the solve compute the transform specification. |
| Solver.TransformForFits | day19/day19.py:70-88 | A found transform carries each of the first four target correspondences onto its source partner in the reference frame. The two beacons of each pair share a hash value that occurs once in each row. |
| Composer.FirstRecord | day19/day19.py:99 | `.iloc[0]`: the first record between the two scans; no earlier record joins them. |
| Composer.EdgeRows | day19/day19.py:99-100 | The hash rows picked through that record belong to the right scans and have the right lengths. |
| Composer.AllScansSize | day19/day19.py:96 | The set of all scan ids below n has size n. |
| Composer.FullSubset | day19/day19.py:96 | Once as many transforms are known as there are scans, every scan has one. |
| Composer.DerivedExtend | day19/day19.py:101 | Adding a solved transform for a new target keeps every known transform derived along an overlap edge from an earlier known scan. |
| Composer.PopKnown | day19/day19.py:97-98 | Popping an edge whose target is already known keeps the frontier invariant. |
| Composer.PopNew | day19/day19.py:97-103 | Popping an edge to a new target and queueing the target's connections keeps the frontier invariant. |
| Composer.Exhausted | day19/day19.py:96-97 | An empty queue with scans still unknown means the known scans form a proper subset closed under overlap edges. |
| Composer.Enqueue | day19/day19.py:93-94 | Appends one (source, match) edge per connection, in order. |
| Composer.SolveEdge | day19/day19.py:99-100 | The result is the transform solve on the hash rows of the first overlap record between the two scans, starting from the source's known transform. A solved transform fits that record. |
| Composer.EdgesOf | day19/day19.py:102 | The connections of a scan list exactly its overlap edges. |
| Composer.Visit | day19/day19.py:97-103 | One turn of the loop. It pops the head of the queue. A known target leaves the transforms unchanged. For a new target, the solve on the edge decides the outcome. A failed solve is reported as `SolveFailed` with that edge and the solve's own error. A missing connections entry is `MissingConnections`. Otherwise the target gets the solved transform, which fits the edge, and its connections are appended to the back of the queue in order. The frontier invariant is kept. |
| Composer.FindScanTransforms | day19/day19.py:90-104 | The transforms known when the walk ends, success or not, each derive along an overlap edge from an earlier known scan. On success they are the result: every scan has one and scanner 0 has the identity. There are three errors. A missing `connections[0]` is reported exactly when scan 0 has no connections entry. A disconnected walk reports the reached scans, a proper subset closed under overlap edges. A failed solve names an edge from a known to an unknown scan, and its reason is the solve's own error on that edge. |
| Day19.BuildAllLookups | day19/day19.py:138-143 | One lookup per scan, each row the beacon's hash and each set its value set. |
| Day19.MergeBeacons | day19/day19.py:148-152 | The concatenation of every scan's beacons moved by that scan's transform. |
| Day19.MergedSize | day19/day19.py:152 | The concatenation holds as many rows as all scans together. |
| Day19.MergedMembership | day19/day19.py:148-153 | A point is merged exactly when it is some scan's beacon moved by that scan's transform. |
| Day19.ImageSize | day19/day19.py:150 | Transforming a set of beacons keeps its size. |
| Day19.DistinctAtMostLength | day19/day19.py:153 | `np.unique` yields at most as many rows as it is given. |
| Day19.UniqueCountBounds | day19/day19.py:153-156 | There are no more distinct beacons than beacon rows, and no fewer than the distinct beacons of any single scan. |
| Day19.MaxScannerDistance | day19/day19.py:126-133 | The double loop over ordered pairs, self-pairs included, computes the maximum pair distance. |
| Day19.PairMaxSpec | day19/day19.py:127-132 | Partway through the loop, the running maximum bounds every pair visited so far and is 0 or attained by some pair. |
| Day19.MaxPairsSpec | day19/day19.py:126-133 | The result bounds the distance of every pair of scanners, is attained by some pair, and is 0 when there are no scanners. |
| Day19.ScannerDistanceSymmetric | day19/day19.py:131 | The scanner distance is symmetric and 0 from a scanner to itself. |
| Day19.MaxPairsSingle | day19/day19.py:126-133 | A single scanner gives 0. |
| Day19.MaxPairsLe | day19/day19.py:128-129 | Adding scanners never decreases the maximum. |
| Day19.MaxPairsOrderFree | day19/day19.py:128-129 | The maximum does not depend on the order in which the dictionary yields the transforms. |
| Day19.ByScan | day19/day19.py:128 | The transforms listed by scan id, one per scan. |
| Day19.Summarize | day19/day19.py:148-159 | Part a is the number of distinct merged beacons, between the largest single-scan count and the total row count. Part b is the maximum scanner distance. |
| Day19.Day19 | day19/day19.py:135-159 | The lookups are each beacon's hash and value set. The records are the sorted qualifying overlaps. The transforms known at the end each derive along an overlap edge. On success every scan has a transform, scanner 0 has the identity, and the two parts are as in `Summarize`. Each error is stated as in `FindScanTransforms`. With at most one scan the source fails at `connections[0]`. |
| RebootParse.Find | day22/day22.py:35 | The leftmost occurrence of the separator, or none at all. |
| RebootParse.IntRoundTrip | day22/day22.py:37 | `int()` reads back every decimal numeral, negative ones included. |
| RebootParse.DigitsRoundTrip | day22/day22.py:37 | Reading the digits of a natural number gives back the number. |
| RebootParse.RangeRoundTrip | day22/day22.py:35-37 | An argument `?=a..b` parses to the half-open range `[a, b + 1)`. |
| RebootParse.StepFields | day22/day22.py:30 | The stripped line, with or without its newline, splits at the space into the command word and the argument list. |
| RebootParse.ArgsSplit | day22/day22.py:34 | The argument list splits at commas into the three ranges. |
| RebootParse.ParseFormatRoundTrip | day22/day22.py:30-37 | Every step written as `on/off x=a..b,y=c..d,z=e..f`, with or without its newline, parses back to that step: the command plus the three half-open ranges. |
| Compression.Unique | day22/day22.py:58-60 | `np.unique` is strictly increasing and holds exactly the values of its input. |
| Compression.IncreasingDetermined | day22/day22.py:58-60 | Only one strictly increasing sequence has a given set of values, so `np.unique` is determined by its input set. |
| Compression.Index | day22/day22.py:63-66 | The inverse index of a value: `xuq[xinv[i]] == xs[i]`. |
| Compression.IndexOrder | day22/day22.py:63-66 | A compressed half-open range selects exactly the unique values that lie in the original range. |
| Compression.Sizes | day22/day22.py:69-71 | `np.diff`: each unique value plus its cell size is the next unique value, and each size is positive. |
| Compression.CellsSum | day22/day22.py:82 | The sum over a span of a function constant on each cell is the size-weighted sum over the cells. |
| Compression.AxisCompress | day22/day22.py:69-85 | With the function also zero outside the span, the sum over a wider range is the weighted sum over cells. |
| Cubes.LastOnSpec | day22/day22.py:78-79 | A cube is on exactly when some covering step is `on` and no later step covers it. |
| Cubes.Endpoints | day22/day22.py:47-52 | The lower and upper bounds of every step on one axis. |
| Cubes.EndpointsSpec | day22/day22.py:47-52 | A value is an endpoint exactly when it is a bound of some step on that axis. |
| Cubes.UniqueExact | day22/day22.py:58-60 | The unique endpoints of each axis are a strictly increasing sequence of exactly the step bounds. |
| Cubes.LastOnCongruent | day22/day22.py:54-55 | Two cubes on the same side of every bound along each axis end in the same state; this is what makes compression sound. |
| Cubes.CellSameSide | day22/day22.py:58-66 | Every coordinate inside a compressed cell lies on the same side of every step bound as the first coordinate of the cell. |
| Cubes.OffOutside | day22/day22.py:82 | A cube outside the span of the unique values on some axis is off. |
| Cubes.CompressVolume | day22/day22.py:69-85 | The cube count of a box holding all bounds equals the size-weighted count over compressed cells. |
| Cubes.CountByCells | day22/day22.py:74-85 | The same equality for the exact unique endpoints of the steps. |
| Cubes.BoundsEnclose | day22/day22.py:99 | A box holding every bound of every step encloses the steps. |
| Cubes.Hull | day22/day22.py:58-60 | The bounding box from the least to the greatest endpoint on each axis encloses the steps. |
| Cubes.BoxIrrelevant | day22/day22.py:85 | The count is the same for every enclosing box. |
| Cubes.CountNonNegative | day22/day22.py:85 | The count of cubes that are on is never negative. |
| Cubes.NoStepsNothingOn | day22/day22.py:77 | With no steps every cube is off. |
| Reactor.Paint | day22/day22.py:79 | Slice assignment: exactly the cells of the box take the command; every other cell is unchanged. |
| Reactor.StepSpan | day22/day22.py:63-66 | A step's mapped index range along an axis selects exactly the unique values that the step covers. |
| Reactor.LastOnStep | day22/day22.py:78-79 | After one more step, a cube the step covers takes its command; every other cube keeps its state. |
| Reactor.PaintedCell | day22/day22.py:78-79 | A cell's state after one more step follows the mapped indices of that step. |
| Reactor.PaintStep | day22/day22.py:78-79 | Painting step s onto a grid that holds the state after the first s steps gives the state after s + 1 steps. |
| Reactor.RowMatches | day22/day22.py:74-82 | Over a row, the grid times the cell sizes, dx·dy·dz, equals the weighted count of that row. |
| Reactor.PlaneMatches | day22/day22.py:74-82 | The same for a plane. |
| Reactor.GridMatches | day22/day22.py:74-85 | The sum of the grid times the cell sizes equals the compressed count. |
| Reactor.LastCellsOff | day22/day22.py:82 | The last compressed index on each axis is never on, so `[:-1]` drops no cube that is on. |
| Reactor.CountActiveCubes | day22/day22.py:43-85 | The total is the number of integer cubes whose last covering step is `on`, counted in any box holding all bounds. It is never negative. |
| Day22.Collect | day22/day22.py:29-38 | All results in order when every one is Ok; otherwise the first failing line and its error. |
| Day22.CollectError | day22/day22.py:29-38 | Once a line fails, every longer prefix fails with that line's error. |
| Day22.ParseAll | day22/day22.py:29-38 | The parse of all lines: one step per line when every line parses; otherwise the first failing line. |
| Day22.ParseAllOk | day22/day22.py:29-38 | Lines that each parse to the corresponding step give exactly those steps. |
| Day22.ReadRebootSteps | day22/day22.py:23-40 | The line loop computes the parse of all lines, stopping at the first bad line. |
| Day22.RegionSteps | day22/day22.py:93-101 | The part-a filter keeps exactly the steps whose bounds all lie in [-50, 51], and no more steps than it was given. |
| Day22.RegionStepsAppend | day22/day22.py:95-100 | The filter keeps the original order: filtering a concatenation filters each part. |
| Day22.RegionStepsIdempotent | day22/day22.py:93-101 | Filtering twice is filtering once. |
| Day22.RegionEncloses | day22/day22.py:98-99 | The region [-50, 51) on each axis encloses the filtered steps. |
| Day22.Day22 | day22/day22.py:88-107 | A bad line is reported with its number and reason. An empty part-a selection is an error, as unpacking `zip()` fails. Otherwise part a counts the cubes on after the filtered steps in the region, part b counts the cubes on after all steps, and both are non-negative. |
| Day22Example.ExampleState | day22/day22.py:11-14 | The state of every cube after the four example steps. |
| Day22Example.ExampleCount | day22/day22.py:122 | The four example steps leave 39 cubes on. |
| Day22Input.ExampleFormats | day22/day22.py:11-14 | The four example steps written out are the four example lines. |
| Day22Input.ParsesLine | day22/day22.py:30-37 | A line that is a step written out parses to that step. |
| Day22Input.ExampleParses | day22/day22.py:11-14 | The four example lines parse to the four example steps. |
| Day22Input.ExampleInRegion | day22/day22.py:99 | Every example step passes the part-a filter. |
| Day22ExampleAnswers.ExampleBothParts | day22/day22.py:122 | Both parts of the example come to 39, as the source expects. |

## Left out

- Reading files is not modelled. This covers `read_scans` and the file loop of
  `read_reboot_steps`; both pipelines start from the scans or the lines.
- `run_expect`, printing, timing and the other puzzle inputs with their expected answers are
  not modelled.
- pandas and numpy are not modelled as such. The data frame is a sequence of `Overlap`
  records and the groupby is a `map<nat, seq<nat>>`.
- The order in which a Python set or dict is iterated is not modelled.
  - find_transform iterates the shared hash values in set order. The model takes the
    correspondences in source-position order instead. The set of correspondences is the
    same, but which four come first may differ.
  - `Day19.MaxPairsOrderFree` shows that part b does not depend on the dictionary order.
- The floating-point `np.linalg.solve` and `np.rint` are replaced by the exact search over
  signed axis permutations described above.
  - `Solver.Solve`: numpy raises `LinAlgError` only when its LU factorisation meets a pivot
    that is exactly zero. A singular matrix whose elimination leaves rounding residue is
    instead solved to a huge matrix, which `np.rint` and the int16 cast turn into arbitrary
    values. The model reports `Singular` for every matrix with determinant 0.
  - `Solver.Solve`: when no rigid motion fits the four pairs, the source returns whatever
    `np.rint` rounds the exact solution to. That may be a matrix that is not a rigid motion,
    or a rigid motion that fits none of the pairs. The model reports `NoRigidFit` instead.
- Machine integer widths are not modelled. All arithmetic uses unbounded integers: the int16
  beacon and transform arrays of day 19, and the int64 coordinates, cell sizes and sum of
  day 22. The values of the puzzle inputs lie well inside these widths.
- `Solver.FindTransform`: the source solves on whichever four matched pairs come first. The
  model solves on the first four in source-position order, as above.
- `RebootParse.ParseInt`: only an optional sign followed by the ASCII digits `0`-`9` is
  read. Python's `int()` also accepts underscores between digits, whitespace around the
  numeral and non-ASCII Unicode decimal digits. The model rejects all three.
- `RebootParse.ParseLine`: a line whose argument list does not give exactly three ranges is
  rejected at once with `AxisCount`. The source reads such a line and what follows depends on
  the other lines:
  - lines with different numbers of ranges make `np.array` (day22/day22.py:40) fail on the
    ragged list;
  - if every line gives the same fewer than three ranges, `count_active_cubes` fails with
    `IndexError` at day22/day22.py:52;
  - if every line gives the same more than three ranges, the source succeeds. It counts on
    the first three axes (day22/day22.py:47-52), and the part-a filter (day22/day22.py:99)
    also tests the extra ranges. The model does not capture this case.
- `Reactor.CountActiveCubes` requires at least one step. With no steps the source's
  `np.swapaxes` fails, and `Day22.Day22` reports that case as `EmptyRegion` first.
- `Composer.FindScanTransforms`: when the queue runs empty before every scan is known, the
  source raises `IndexError` from `popleft`. The model returns `Disconnected` with the closed
  set of reached scans. When `connections[0]` is missing, the source raises `KeyError`; the
  model returns `MissingConnections`.
