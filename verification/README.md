# Verified models of the disk-oriented learned indexes

The repository builds indexes that replace exact search structures by small
approximate ones: fitted lines, merged slopes, splines, zone maps. Each part
promises that the approximate or compressed form still leads to every stored
record, and that moving records between memory and disk loses none. This
project models those parts in Dafny and proves the promises for all inputs, all
runs, or all interleavings. Where a promise does not hold for the code, the
exact condition under which it does is proved instead.

`dafny verify dfyconfig.toml` checks the project.

## What is modelled

**Fitting lines** (`Geometry`, `Corridor`, `ConvexHull`, `Feasibility`,
`PiecewiseLinearModel`, `Segmentation`, `ParallelSegmentation`). The streaming model keeps two partial
hulls, two start indices and a rectangle, and updates them in place. Its class
invariant says that both extreme lines pass every accepted range and that the
hulls decide every further range. A range is accepted if and only if some real
line passes it and all earlier ones, so the greedy segmentation has the fewest
segments possible. Large inputs are cut into chunks; that costs at most one
segment for each chunk after the first.

**The paged PGM index** (`PgmSegment`, `PgmLevel`, `PgmIndex`, `PgmThreeKeys`).
Rounding and truncation cost at most one position. With that, the multi-level
descent ends on the responsible segment, by scan or by binary search, and the
search window holds every stored key, apart from the two cases named below. A
binary search can stop on the first of two equal keys of an upper level, and the
descent still ends where it should.

**The compressed disk-oriented index** (`SlopeCompression`,
`InterceptCompression`, `SegmentLines`, `Pages`, `DiskOrientedIndex`). Slopes
are merged by interval stabbing into a table of least size, intercepts are
rounded, raised to an increasing sequence, stored as bits and decoded. The page
guarantee survives all of it, for keys that repeat and for chunked input too.

**The radix spline** (`SplineCorridor`, `RadixTable`, `RadixSpline`,
`RadixSplineBuilder`), plain and disk-oriented, from the single-pass builder to
the bound of every stored key. Positions are integers and orientation tests are
integer cross products.

**The multi-threaded merge** (`MergeProtocol`, `PartitionedMerge`,
`MultiThreadedStatic`). `MergeProtocol` is a state machine whose steps are the
single loads, stores and compare-and-swaps of the threads. The other two say
what the sub-merges write, in whatever order they finish.

**The hybrid index** (`Records`, `PageStore`, `HybridStatic`, `HybridDynamic`,
`HybridLearned`, `HybridIndex`, `HybridRuns`). The disk is an array of record
slots, pages are stretches of it. The static half is looked up through the
compressed disk-oriented index, trained anew in every merge. Over whole runs of
insertions of any keys, with merges anywhere, the records are conserved, and a
lookup answers as a map would exactly for the keys that no merge has shadowed and
no value for "not found" hides; with new keys only, that is every key.

**FILM's eviction** (`LruList`, `FilmMemory`, `FilmStore`). Linked lists with
real pointers, the append page, batched writes and recycled positions; every
leaf slot stays retrievable through evictions, flushes and reads in any order.

**rANS frequency normalisation and the LeCo zone map**
(`FrequencyNormalisation`, `SortedSearch`, `LecoZoneMap`). The assertions of the normalisation
cannot fail; the zone map works for every codec that keeps within its bounds.

## Where the code does less than its comments say

Each of these is proved, with the condition exact. `FailingInputs` and
`PgmThreeKeys` hold an input at which it fails, for all but the merge round,
whose condition counts threads.

- The descent of the PGM index finds the rightmost segment for every key up to
  the last stored one. For later keys the sentinel's cap can be wrong: a
  recursive level over as many entries as there are keys carries the largest
  position instead of its size, which takes exactly three keys
  (`PgmIndex.DescentExactly`; in terms of the data `PgmThreeKeys.SafeOnData`; an
  index that fails is `PgmThreeKeys.OvershootingIndex`).
- The PGM window misses the last key if that key has a segment of its own and
  its position exceeds the number of keys plus epsilon plus one
  (`PgmLevel.WindowContains`, `FailingInputs.MissedLastKey`).
- The compressed index reads past its list of slope ranges if and only if the
  last key is left with a segment of its own
  (`DiskOrientedIndex.DiskOrientedIndexV4.Build`, `FailingInputs.FailedBuild`).
  Its bound for the smallest key is always the first position, and for the
  largest one the last (`GetSearchBound`, `FailingInputs.EndsMissed`).
- The spline's bound for the first key is right exactly if its position is
  within the error (`RadixSpline.PlainBoundContains`, `PageBoundReaches`,
  `FailingInputs.FirstKeyMissed`, `FirstPageMissed`).
- A merge round can only end if as many threads as there are partitions start
  it at the latest version (`MergeProtocol.EndNeedsThreads`,
  `EnoughThreadsCanEnd`).
- The partitioned merge drops dynamic records at or above the last partition
  key (`PartitionedMerge.AllTaken`, `FailingInputs.LargestIsDropped`), and a
  dynamic record that repeats an inner partition key is taken by the next
  partition but looked up in this one (`NewRecordRoute`, `PartitionedStays`,
  `FailingInputs.BorderIsMisrouted`).
- A hybrid merge brings back an old value when a key is given up that the
  static part stores with another value (`HybridIndex.MergeKeepsLookup`,
  `HybridRuns.RunLookup`, `FailingInputs.OldValueReturns`). Inserting the value
  that stands for "not found" leaves lookups with the static value
  (`FailingInputs.LargestValueIsPassedOver`).
- The zone map with two or more sliding pages misses keys near the start
  (`LecoZoneMap.FindsByOwnGroup`, `FailingInputs.MissedNearTheStart`).

## Conventions and preconditions

Keys and positions are integers. A `Word` is a 64-bit unsigned value; where the
source saturates or wraps around, the model does (`GivenRange`, `GetRangeY`).
Slopes are integer pairs, or exact reals where the source divides. Positions do
not fall; keys rise strictly in the PGM index and the spline, and may repeat in
the compressed index and the merges; epsilon is positive for the indexes. A
sequence field stands for a vector. `ghost` fields hold what the structure was
built from.

The minimum of four records a page in `RangeNearPage` and `GoodInput` keeps the
source's unsigned `record_per_page / 4 - 1` from wrapping where ranges are
narrowed; `2 * eps < record_per_page` keeps a saturated low end near its page.
`CrossGapDefined` excludes a division by zero in the source, as does the minimum
of ten points in `LecoPage.Encode`. In `HybridLearned` a training that would
divide by zero, or that runs past the list of slope ranges, leaves no model. A spline
needs two different keys, because the number of leading zeros of 0 is undefined.
`LecoPage.BuildBounds` needs one border, because the source reads the last bound.

## Model

| member | source | states |
|---|---|---|
| `Geometry.SlopeTransitive` | indexes/PGM-index-disk/piecewise_linear_model.hpp:54-57 | comparing slopes by cross products is an order: transitive, and strict if either part is, for positive run |
| `Geometry.BendsIsRank` | indexes/PGM-index-disk/piecewise_linear_model.hpp:79-83 | for three points in x order, the sign of `cross` says which of any two of the three connecting slopes is larger |
| `Corridor.LatticeLineStabs` | indexes/PGM-index-disk/piecewise_linear_model.hpp:452-459 | the line through two integer points that passes every range, stated in integers, is a real line that passes every range |
| `Corridor.ObstructionBlocks` | indexes/PGM-index-disk/piecewise_linear_model.hpp:243-251 | if one range end lies strictly beyond the line of two opposite range ends, no real line whatsoever passes the run |
| `ConvexHull.FindTangent` | indexes/PGM-index-disk/piecewise_linear_model.hpp:253-262 | the scan that stops at the first worse slope finds, on a convex chain the new point approaches, the point whose line to it clears the whole chain (both sides) |
| `ConvexHull.PushOnHull` | indexes/PGM-index-disk/piecewise_linear_model.hpp:268-275 | popping while `cross` does not bend and appending gives a convex chain again; it never empties the chain before the start index, and every line of the remaining slopes that clears it clears the dropped points |
| `Feasibility.TangentStabs` | indexes/PGM-index-disk/piecewise_linear_model.hpp:264-266 | the tangent from the hull to the new end passes every earlier range and the new one |
| `Feasibility.NewExtreme` | indexes/PGM-index-disk/piecewise_linear_model.hpp:264-266 | the tangent replaces an extreme line: its slope lies between the two old extreme slopes and it passes all ranges including the new one |
| `Feasibility.HighEndHarmless` | indexes/PGM-index-disk/piecewise_linear_model.hpp:253-253 | when the high end is above the steepest line, that line and the hull stay right for the half-updated run |
| `Feasibility.HighEndCuts` | indexes/PGM-index-disk/piecewise_linear_model.hpp:253-276 | cutting with the high end (new steepest line, moved start of `lower`, rebuilt `upper`) keeps the hull dominating all range ends for every slope still possible |
| `Feasibility.LowEndHarmless` | indexes/PGM-index-disk/piecewise_linear_model.hpp:278-278 | when the low end is below the flattest line, the half step is already a full one |
| `Feasibility.LowEndCuts` | indexes/PGM-index-disk/piecewise_linear_model.hpp:278-301 | cutting with the low end completes the step: both lines pass the whole run with the new range, and the hull invariant holds |
| `PiecewiseLinearModel.ExactRange` | indexes/PGM-index-disk/piecewise_linear_model.hpp:101-104 | the saturating range around a position contains it, reaches no further than epsilon and is a single value only for epsilon 0 |
| `PiecewiseLinearModel.GivenRange` | indexes/PGM-index-disk/piecewise_linear_model.hpp:212-218 | the range of the second overload contains the given one and equals it except where it saturates |
| `PiecewiseLinearModel.TwoRangesHull` | indexes/PGM-index-disk/piecewise_linear_model.hpp:234-241 | two ranges always admit a line, and the four corners form the hull invariant |
| `PiecewiseLinearModel.OutsideBlocks` | indexes/PGM-index-disk/piecewise_linear_model.hpp:243-251 | completeness: if either `outside_line` test succeeds, no real line passes all accepted ranges and the new one |
| `PiecewiseLinearModel.CutSteepest` | indexes/PGM-index-disk/piecewise_linear_model.hpp:253-276 | the loops of the first cut leave the half-step invariant and exactly the rectangle the code stores |
| `PiecewiseLinearModel.CutFlattest` | indexes/PGM-index-disk/piecewise_linear_model.hpp:278-301 | the loops of the second cut leave the full invariant for the longer run and exactly the rectangle the code stores |
| `PiecewiseLinearModel.ExactRunNeverCut` | indexes/PGM-index-disk/piecewise_linear_model.hpp:96-190 | with epsilon 0 a new point never cuts on both sides, so the code's scans never leave the hull |
| `PiecewiseLinearModel.OptimalPiecewiseLinearModel.constructor` | indexes/PGM-index-disk/piecewise_linear_model.hpp:88-94 | an empty model satisfies the invariant |
| `PiecewiseLinearModel.OptimalPiecewiseLinearModel.FirstRange` | indexes/PGM-index-disk/piecewise_linear_model.hpp:220-232 | the first range starts a new run and records its `first_y`, whatever the state was before |
| `PiecewiseLinearModel.OptimalPiecewiseLinearModel.SecondRange` | indexes/PGM-index-disk/piecewise_linear_model.hpp:234-241 | the second range is always accepted and sets up the hull |
| `PiecewiseLinearModel.OptimalPiecewiseLinearModel.Narrow` | indexes/PGM-index-disk/piecewise_linear_model.hpp:243-305 | from the third range on: accepted if and only if one real line passes all ranges; a rejection changes nothing |
| `PiecewiseLinearModel.OptimalPiecewiseLinearModel.TakeHighEnd` | indexes/PGM-index-disk/piecewise_linear_model.hpp:253-276 | the first half of the update on the fields: the half-step invariant, with the flattest line untouched |
| `PiecewiseLinearModel.OptimalPiecewiseLinearModel.TakeLowEnd` | indexes/PGM-index-disk/piecewise_linear_model.hpp:278-301 | the second half of the update on the fields restores the invariant for the run with the new range |
| `PiecewiseLinearModel.OptimalPiecewiseLinearModel.AddRange` | indexes/PGM-index-disk/piecewise_linear_model.hpp:207-305 | every call in any valid state: non-increasing x is refused unchanged, an accepted run has a real line, a rejected range means no real line exists and closes the run |
| `PiecewiseLinearModel.OptimalPiecewiseLinearModel.AddPoint` | indexes/PGM-index-disk/piecewise_linear_model.hpp:96-190 | the same for the first overload with its epsilon range: added exactly if some line passes the run and the new range |
| `PiecewiseLinearModel.OptimalPiecewiseLinearModel.AddPointRange` | indexes/PGM-index-disk/piecewise_linear_model.hpp:207-305 | the same for the second overload with the given range, and `first_y` follows the first point of the run |
| `PiecewiseLinearModel.OptimalPiecewiseLinearModel.GetSegment` | indexes/PGM-index-disk/piecewise_linear_model.hpp:192-196 | both extreme lines of the returned segment pass through every range of the run, in slope order, with corners that are range ends (also after a rejection, before the run is reset) |
| `Segmentation.SpanNarrows` | indexes/PGM-index-disk/piecewise_linear_model.hpp:502-526 | a line for a block is a line for every part of the block |
| `Segmentation.GreedyIsAhead` | indexes/PGM-index-disk/piecewise_linear_model.hpp:513-522 | the greedy cut number i is at or beyond cut number i of any valid division |
| `Segmentation.GreedyIsFewest` | indexes/PGM-index-disk/piecewise_linear_model.hpp:502-526 | no division into stabbable blocks has fewer blocks than a greedy one |
| `Segmentation.GreedyIsUnique` | indexes/PGM-index-disk/piecewise_linear_model.hpp:502-526 | the greedy division is determined by the points alone |
| `Segmentation.MakeSegmentation` | indexes/PGM-index-disk/piecewise_linear_model.hpp:351-377 | the loop over the data, which skips repeated keys, emits segments whose lines fit consecutive blocks covering every distinct key once, and no division of the keys into stabbable blocks has fewer |
| `ParallelSegmentation.PointsSplit` | indexes/PGM-index-disk/piecewise_linear_model.hpp:398-404 | if a chunk starts with a new key, the distinct keys of the data are those before the chunk followed by those of the chunk |
| `ParallelSegmentation.SkipRepeated` | indexes/PGM-index-disk/piecewise_linear_model.hpp:398-404 | the skipping loop stops at the first key of the chunk that is not the last key of the chunk before |
| `ParallelSegmentation.JoinFits` | indexes/PGM-index-disk/piecewise_linear_model.hpp:414-415 | segments of two parts fit the blocks of the parts laid end to end |
| `ParallelSegmentation.ChunkIsAhead` | indexes/PGM-index-disk/piecewise_linear_model.hpp:406-411 | greedy cuts inside a chunk stay ahead of any division of all keys, counted from the block that holds the start of the chunk |
| `ParallelSegmentation.ChunkCost` | indexes/PGM-index-disk/piecewise_linear_model.hpp:406-411 | a chunk has at most one segment more than blocks of any division start in it |
| `ParallelSegmentation.TailAlone` | indexes/PGM-index-disk/pgm_index_page.hpp:187-192 | the last segment is a single point exactly when the greedy division of what is segmented last leaves its last key alone |
| `ParallelSegmentation.MakeSegmentationPar` | indexes/PGM-index-disk/piecewise_linear_model.hpp:380-418 | the segments of all chunks, in order, fit consecutive blocks covering every distinct key once; no division of the keys into stabbable blocks saves more than one segment for each chunk after the first |
| `PgmSegment.InterceptWithin` | indexes/PGM-index-disk/piecewise_linear_model.hpp:474-482 | the rounded intercept at the first key of a segment lies in the range of that key |
| `PgmSegment.PredictionWithin` | indexes/PGM-index-disk/piecewise_linear_model.hpp:471-483 | rounded intercept plus truncated slope term is at most the high end and at least the low end minus one, for every key of the block |
| `PgmSegment.FitCovers` | indexes/PGM-index-disk/pgm_index_page.hpp:493-498 | the converted segment predicts every key of its run within its range, one below at most |
| `PgmSegment.PredictMonotone` | indexes/PGM-index-disk/pgm_index_page.hpp:518-521 | predictions of a well-formed segment never decrease with the key |
| `PgmLevel.DistinctIsCore` | indexes/PGM-index-disk/pgm_index_page.hpp:345-357 | the ranges a level is fitted to are those of its entries, without the extra entry that repeats the last key |
| `PgmLevel.NeverOvershoots` | indexes/PGM-index-disk/pgm_index_page.hpp:386-387 | the capped position minus epsilon-recursive plus one is at or before the predecessor entry for every key before the last entry, across segment borders and whatever the sentinel carries; for later keys if and only if the end of the level predicts at most epsilon beyond the number of entries |
| `PgmLevel.GoodSentinel` | indexes/PGM-index-disk/pgm_index_page.hpp:339-341 | a sentinel that carries the size of the level below never lets that happen |
| `PgmLevel.LargestKeyDecides` | indexes/PGM-index-disk/pgm_index_page.hpp:386-387 | if the largest key is not predicted too far, no key is |
| `PgmLevel.NeverUndershoots` | indexes/PGM-index-disk/pgm_index_page.hpp:395-397 | the capped position plus epsilon-recursive plus one is at or beyond the last of the strictly rising entries that is at most the key, for every key and across segment borders |
| `PgmLevel.TiedPrediction` | indexes/PGM-index-disk/pgm_index_page.hpp:337-341 | a segment with the same key as the flat one after it stands for the last entry alone and predicts every key at most epsilon-recursive before the last distinct entry and never beyond the level, whatever the sentinel carries |
| `PgmLevel.WindowContains` | indexes/PGM-index-disk/pgm_index_page.hpp:439-446 | the search window of a stored key contains its position if and only if it is not the last key with a segment of its own, or its position is at most the number of keys plus epsilon plus one |
| `PgmIndex.BuildLevel` | indexes/PGM-index-disk/pgm_index_page.hpp:328-343 | one level: the fitted segments of an economical division of the entries (greedy below 2^15 of them, otherwise chunked), an extra flat segment exactly when the last entry is alone, and the sentinel |
| `PgmIndex.FitEntries` | indexes/PGM-index-disk/pgm_index_page.hpp:329-330 | the stored segments are the fitted ones, and their predictions cover every entry |
| `PgmIndex.ChunksAreFew` | indexes/PGM-index-disk/pgm_index_page.hpp:360-368 | also a division into chunks has fewer blocks than entries |
| `PgmIndex.GreedyBlocksAreWide` | indexes/PGM-index-disk/pgm_index_page.hpp:360-368 | if any spans of a given width admit a line, all greedy blocks but the last have that width |
| `PgmIndex.LevelShrinks` | indexes/PGM-index-disk/pgm_index_page.hpp:360-368 | every recursive level is strictly smaller than the level below, so the loop ends |
| `PgmIndex.BottomShrinks` | indexes/PGM-index-disk/pgm_index_page.hpp:337-341 | the bottom level has at most as many segments as keys, and as many only for one or three keys (when the wrong sentinel can appear above it) |
| `PgmIndex.StepExact` | indexes/PGM-index-disk/pgm_index_page.hpp:384-393 | between any two neighbouring levels the scan starts at or before the responsible segment if and only if the step condition holds |
| `PgmIndex.DescentExactly` | indexes/PGM-index-disk/pgm_index_page.hpp:383-401 | for every key from the first one up, all scans of the descent start at or before their goals if and only if `KeyHolds`: the bottom level does not have as many segments as there are keys, or the key is before its last segment, or the level above does not predict it beyond the number of keys plus epsilon-recursive |
| `PgmIndex.StoredKeysHold` | indexes/PGM-index-disk/pgm_index_page.hpp:377-401 | the condition holds for every key up to the last stored one, so every stored key can be looked up in every index |
| `PgmIndex.OtherSizesHold` | indexes/PGM-index-disk/pgm_index_page.hpp:337-341 | it holds for all keys unless there are exactly three keys and the largest position exceeds 3 |
| `PgmIndex.LargestKeyHolds` | indexes/PGM-index-disk/pgm_index_page.hpp:383-401 | it holds for all keys if it holds for the largest one |
| `PgmIndex.SearchLevel` | indexes/PGM-index-disk/pgm_index_page.hpp:389-398 | the scan to the right ends on the last segment with a key at most the sought one; for a large epsilon-recursive the binary search does, too, except that it ends one segment before where the window stops just short |
| `PgmIndex.DescendOne` | indexes/PGM-index-disk/pgm_index_page.hpp:384-398 | the same for one step of the descent, around the capped prediction of the segment above: which of the two segments it ends on is read off the prediction |
| `PgmIndex.StepWindow` | indexes/PGM-index-disk/pgm_index_page.hpp:395-397 | from the responsible segment the searched window holds the responsible one below, for every key and every level; only where the level below ends with two equal keys can it hold no more than the first of the two |
| `PgmIndex.TiedOnlyAbove` | indexes/PGM-index-disk/pgm_index_page.hpp:337-341 | two equal keys are met only by keys past the last stored one and never on the bottom level, so with at most two levels every window holds its goal |
| `PgmIndex.TiedBelow` | indexes/PGM-index-disk/pgm_index_page.hpp:384-398 | from the first of two equal keys the scan starts at or before the last segment of the level below and the window holds it, whatever the sentinels carry |
| `PgmIndex.StepLands` | indexes/PGM-index-disk/pgm_index_page.hpp:384-398 | every step of the descent, by scan or by binary search, from the responsible segment or from the first of two equal keys, ends on one of the two again |
| `PgmIndex.FlatLookup` | indexes/PGM-index-disk/pgm_index_page.hpp:378-381 | without recursive levels `upper_bound` finds the responsible segment for every key from the first one up |
| `PgmIndex.Descend` | indexes/PGM-index-disk/pgm_index_page.hpp:383-401 | the whole descent, by scan or by binary search, ends on the rightmost bottom segment whose key is at most the sought key, under the exact condition of `DescentExactly` and no other |
| `PgmIndex.PGMIndexPage.constructor` | indexes/PGM-index-disk/pgm_index_page.hpp:423-432 | builds a valid index; a last key equal to the largest key value is dropped as the sentinel |
| `PgmIndex.PGMIndexPage.Build` | indexes/PGM-index-disk/pgm_index_page.hpp:312-369 | fills the flat vector of segments and the level offsets so that every level is the fitted level over the one below, until one segment is left |
| `PgmIndex.PGMIndexPage.SegmentForKey` | indexes/PGM-index-disk/pgm_index_page.hpp:377-401 | for every key from the first key up to the last stored one, and for every later key for which `KeyHolds`, the rightmost bottom segment with a key at most it |
| `PgmIndex.PGMIndexPage.Search` | indexes/PGM-index-disk/pgm_index_page.hpp:439-446 | the window is the clamped one around the position, and a stored key's position lies in it if and only if the key is findable in the sense of `WindowContains` |
| `PgmThreeKeys.ThreeStabbable` | indexes/PGM-index-disk/piecewise_linear_model.hpp:243-251 | a line passes three ranges if and only if the middle one meets the band between the outer two, an integer comparison |
| `PgmThreeKeys.BottomShape` | indexes/PGM-index-disk/pgm_index_page.hpp:328-343 | over three keys the bottom level has one segment if one line fits all three, and otherwise two segments and the flat one |
| `PgmThreeKeys.AboveShape` | indexes/PGM-index-disk/pgm_index_page.hpp:360-368 | the level above three such segments is one segment, and its prediction of any key is the quotient `Reach` of the keys and epsilon-recursive |
| `PgmThreeKeys.SafeOnData` | indexes/PGM-index-disk/pgm_index_page.hpp:383-401 | for every index as it is built, `KeyHolds` can be read off the data: it holds if and only if there are not exactly three keys, or the key is not past the last one, or one line fits the three, or the largest position is at most 3 plus epsilon-recursive, or `Reach` is |
| `PgmThreeKeys.OvershootingIndex` | indexes/PGM-index-disk/pgm_index_page.hpp:337-341 | keys 0, 1 and 1000 at positions 0, 0 and 1000000: the index is built, and in the descent for key 1000000000 a scan starts past its goal |
| `SlopeCompression.SortIndexes` | indexes/Compressed-Disk-Oriented-Index/base.h:132-137 | the indexes are a permutation that orders the segments by slope range, by minimum and then by maximum |
| `SlopeCompression.DisjointNeedsDistinct` | indexes/Compressed-Disk-Oriented-Index/base.h:147-170 | pairwise disjoint slope ranges need as many slopes as there are ranges, for any set of slopes |
| `SlopeCompression.MergeSlopes` | indexes/Compressed-Disk-Oriented-Index/base.h:147-170 | every segment's table slope lies in its own slope range, and no set of slopes that meets all ranges is smaller than the table |
| `SlopeCompression.MergeCompress` | indexes/Compressed-Disk-Oriented-Index/base.h:139-191 | in addition, each intercept is the rounded height, at the segment's key, of the line of the merged slope through the segment's intersection point |
| `InterceptCompression.RaisedIncreases` | indexes/Compressed-Disk-Oriented-Index/base.h:74-81 | after adding the offsets the sequence is strictly increasing |
| `InterceptCompression.RaiseConstant` | indexes/Compressed-Disk-Oriented-Index/base.h:105-107 | between two stored entries the offset does not change, which is what the map's `lower_bound` relies on |
| `InterceptCompression.CompressedIntercepts.RaiseAll` | indexes/Compressed-Disk-Oriented-Index/base.h:74-82 | the loop raises every intercept and stores the offset exactly where it changes and at the end |
| `InterceptCompression.SdVectorBuilder.Set` | indexes/Compressed-Disk-Oriented-Index/base.h:92-100 | a bit position is accepted when it exceeds the previous one, lies inside the vector and a count is left |
| `InterceptCompression.CompressedIntercepts.Compress` | indexes/Compressed-Disk-Oriented-Index/base.h:60-103 | for any non-empty sequence, also falling and negative, the map and the bit vector encode it; all builder calls are legal |
| `InterceptCompression.CompressedIntercepts.GetIntercept` | indexes/Compressed-Disk-Oriented-Index/base.h:105-108 | the round trip: the decoded value is the original i-th intercept |
| `SegmentLines.SlopeRangeProper` | indexes/PGM-index-disk/piecewise_linear_model.hpp:492-498 | the slope range of a fitted segment is a proper interval, with positive run unless it is a single point |
| `SegmentLines.IntersectionOnLines` | indexes/PGM-index-disk/piecewise_linear_model.hpp:452-469 | the computed intersection lies on both extreme lines |
| `SegmentLines.ParallelLines` | indexes/PGM-index-disk/piecewise_linear_model.hpp:460-460 | parallel extreme lines are the same line, so returning a corner is right |
| `SegmentLines.MergedLineStabs` | indexes/Compressed-Disk-Oriented-Index/base.h:177-183 | a line through the intersection with any slope of the segment's slope range passes every range of its block |
| `Pages.PageBounds` | indexes/PGM-index-disk/pgm_index_page.hpp:146-148 | the first and last position of the page of a position enclose it |
| `DiskOrientedIndex.RangeNearPage` | indexes/PGM-index-disk/pgm_index_page.hpp:143-161 | the page range, widened or narrowed, contains the position, is never a single value and reaches at most epsilon beyond the page, for pages of four records or more and, where it may cross pages, of any size |
| `DiskOrientedIndex.NearLineReachesPage` | indexes/Compressed-Disk-Oriented-Index/di_v4.h:162-174 | a value within half a unit of a line within epsilon of the page gives, after truncation and clamping, a bound that overlaps the page |
| `DiskOrientedIndex.PointsNearPages` | indexes/PGM-index-disk/pgm_index_page.hpp:207-223 | the segmentation sees one range per training key, each near the page of its position |
| `DiskOrientedIndex.TrainedIncreases` | indexes/PGM-index-disk/pgm_index_page.hpp:207-223 | with repeated keys and the key added at the end of their runs, training keys still rise strictly and positions do not fall |
| `DiskOrientedIndex.FirstIsTrained` | indexes/PGM-index-disk/pgm_index_page.hpp:207-223 | the first position of every stored key is trained under that key |
| `DiskOrientedIndex.CrossGap` | indexes/PGM-index-disk/pgm_index_page.hpp:203-204 | the gap between positions that may cross pages is positive wherever it is defined |
| `DiskOrientedIndex.BlocksGiveModels` | indexes/Compressed-Disk-Oriented-Index/di_v4.h:76-95 | with merged slopes and rounded intercepts every training key is predicted within half a unit of a line that stays near its page, also where a segment has one point only |
| `DiskOrientedIndex.Split` | indexes/PGM-index-disk/pgm_index_page.hpp:184-192 | the segmentation, chunked for large inputs, gives blocks near their pages, and its last segment has slope 0, so that a flat segment follows, exactly when what is segmented last leaves its last key alone |
| `DiskOrientedIndex.FlatIsAlone` | indexes/PGM-index-disk/pgm_index_page.hpp:184-192 | over page ranges a segment of several points never has slope 0, so the slope tells a single point |
| `DiskOrientedIndex.Train` | indexes/Compressed-Disk-Oriented-Index/di_v4.h:64-95 | segmentation and slope merging give models for all training keys, if and only if there is one record or the last segment does not have slope 0 |
| `DiskOrientedIndex.DiskOrientedIndexV4.Build` | indexes/Compressed-Disk-Oriented-Index/di_v4.h:27-160 | for any sorted data, keys repeated or not, and any choice of crossing positions: a valid index with error epsilon + 1, if and only if the last segment is not a single point (the list of slope ranges is then one short) |
| `DiskOrientedIndex.DiskOrientedIndexV4.GetSegmentIndex` | indexes/Compressed-Disk-Oriented-Index/di_v4.h:198-203 | the model key found is the last one not larger than the key |
| `DiskOrientedIndex.DiskOrientedIndexV4.Predict` | indexes/Compressed-Disk-Oriented-Index/di_v4.h:205-216 | the prediction with the decoded intercept equals the one with the original intercept, truncated and clamped |
| `DiskOrientedIndex.DiskOrientedIndexV4.GetSearchBound` | indexes/Compressed-Disk-Oriented-Index/di_v4.h:162-174 | the bound of every stored key overlaps the page of its first position; for the smallest key, whose bound is the first position, if and only if that is on the first page, for the largest one, whose bound is the last position, if and only if its first and last position share a page; the bound is never empty, stays in the data and is at most twice the error wide |
| `SplineCorridor.OrientationIsOrder` | indexes/rs-disk/builder.h:100-108 | clockwise and counter-clockwise are strictly falling and strictly rising slope |
| `SplineCorridor.InsideCorridor` | indexes/rs-disk/builder.h:176-192 | a point that does not cut the corridor gives a spline segment that passes every remembered sample, strictly below its high end and not below its low end |
| `SplineCorridor.ExtendCorridor` | indexes/rs-disk/builder.h:193-212 | narrowing the limits keeps the corridor exact for the samples including the new one |
| `SplineCorridor.PassingHits` | indexes/rs-disk/radix_spline.h:46-55 | if the segment passes a sample's range, the truncated interpolation falls in it (this is where the strict upper test is needed) |
| `SplineCorridor.CloseCorridor` | indexes/rs-disk/builder.h:187-192 | ending the segment at the previous point, every sample of the window is hit by the interpolation, the end point exactly |
| `RadixTable.BitLengthBounds` | indexes/rs-disk/builder.h:80-90 | the bit length computed with leading zeros is the exponent of the next power of two |
| `RadixTable.ShiftIsTight` | indexes/rs-disk/builder.h:80-90 | all prefixes fit in the radix bits, and one shift less would not do |
| `RadixTable.PrefixMono` | indexes/rs-disk/builder.h:216-216 | prefixes do not decrease with the key |
| `RadixTable.Fill` | indexes/rs-disk/builder.h:219-220 | exactly the entries of the given interval are set |
| `RadixTable.AddPoint` | indexes/rs-disk/builder.h:215-223 | up to the current prefix, entry p is the index of the first spline point with prefix at least p |
| `RadixTable.Finish` | indexes/rs-disk/builder.h:225-230 | after finishing this holds for the whole table |
| `RadixTable.TableNarrows` | indexes/rs-disk/radix_spline.h:83-87 | all points before the table's interval are below the key and all from its end on are above it |
| `RadixSpline.GetSplineSegment` | indexes/rs-disk/radix_spline.h:82-103 | the linear and the binary branch both return the lower bound over all spline points |
| `RadixSpline.GetEstimatedPosition` | indexes/rs-disk/radix_spline.h:34-57 | the code with its table lookup computes the estimate over the true segment of the key, in bounds |
| `RadixSpline.GetSearchBound` | indexes/rs-disk/radix_spline.h:60-69 | the saturating bound around the estimate |
| `RadixSpline.CloseWindow` | indexes/rs-disk/builder.h:187-192 | closing a corridor keeps every earlier sample on its segment |
| `RadixSpline.EstimateHits` | indexes/rs-disk/radix_spline.h:34-57 | the estimate of every sample strictly inside is its position or lies in its range, the high end excluded |
| `RadixSpline.PlainBoundContains` | indexes/rs-disk/radix_spline.h:60-69 | the bound contains the position of an added key if and only if it is not the first key or its position is at most the error |
| `RadixSpline.SampleNearPage` | indexes/rs-disk/builder-disk-oriented.h:124-142 | the page range of the disk-oriented builder reaches at most the error beyond the page, in the cross-page, the narrowed and the wrapping case |
| `RadixSpline.NearEstimateReachesPage` | indexes/rs-disk/radix_spline.h:60-69 | an estimate in that range gives a bound with a position on the page |
| `RadixSpline.ZeroReachesPage` | indexes/rs-disk/radix_spline.h:34-38 | estimate 0, which the first key always gets, reaches its page if and only if the page starts within the error |
| `RadixSpline.PageBoundReaches` | indexes/rs-disk/radix_spline.h:60-69 | the pages of the bound include the page of an added key if and only if it is not the first key or its page starts within the error |
| `RadixSplineBuilder.TrackCut` | indexes/rs-disk/builder.h:187-192 | cutting moves the window's samples to the finished ones and opens a corridor at the previous point |
| `RadixSplineBuilder.TrackInside` | indexes/rs-disk/builder.h:193-212 | a sample inside the corridor joins the window |
| `RadixSplineBuilder.Builder.constructor` | indexes/rs-disk/builder.h:16-33 | a valid builder without samples, its table large enough for every prefix |
| `RadixSplineBuilder.Builder.AddKeyToSpline` | indexes/rs-disk/builder.h:92-95 | the point is appended and the table follows |
| `RadixSplineBuilder.Builder.AddSample` | indexes/rs-disk/builder.h:123-213 | one call for a new key keeps the invariant and adds exactly this sample |
| `RadixSplineBuilder.Builder.Extend` | indexes/rs-disk/builder.h:150-212 | the third and later samples: spline points only grow, the table follows and all samples stay tracked |
| `RadixSplineBuilder.Builder.Add` | indexes/rs-disk/builder.h:45-57 | a repeated key and position adds no sample, any other call adds exactly one |
| `RadixSplineBuilder.Builder.Finalize` | indexes/rs-disk/builder.h:60-75 | the result is well formed, ends at the largest key, and its spline tracks every sample ever added |
| `RadixSplineBuilder.BuildFrom` | indexes/rs-disk.h:24-40 | building from any good run tracks every sample, for any way of choosing the ranges |
| `RadixSplineBuilder.BuildPlain` | indexes/rs-disk.h:24-46 | for every stored key the search bound contains its position, the first key's if and only if its position is at most the error; bounds and largest position are those of the data |
| `RadixSplineBuilder.BuildOnPages` | indexes/rs-disk-oriented.h:26-49 | for every stored key the pages of the search bound include the page of its position, the first key's if and only if that page starts within the error |
| `MergeProtocol.ObtainKeepsInv` | indexes/multi_threaded_hybrid/static/static_base.h:550-553 | reading the counter and comparing the version keep the invariant |
| `MergeProtocol.ClaimKeepsInv` | indexes/multi_threaded_hybrid/static/static_base.h:561-571 | the compare-and-swap, failed or not, keeps the invariant although counter and version were read earlier |
| `MergeProtocol.WorkKeepsInv` | indexes/multi_threaded_hybrid/static/static_base.h:381-384 | merging and moving to the new file version keep the invariant |
| `MergeProtocol.FinishKeepsInv` | indexes/multi_threaded_hybrid/static/static_base.h:454-465 | counting a finished partition keeps the invariant |
| `MergeProtocol.CheckKeepsInv` | indexes/multi_threaded_hybrid/hybrid_index.h:572-572 | the two checks for the end, and returning without them, keep the invariant |
| `MergeProtocol.ChangeModeKeepsInv` | indexes/multi_threaded_hybrid/hybrid_index.h:573-575 | the swap of the mode keeps the invariant; one thread wins |
| `MergeProtocol.UpdateKeepsInv` | indexes/multi_threaded_hybrid/static/static_base.h:481-485 | setting the updated flag and reading the version keep the invariant |
| `MergeProtocol.RaiseKeepsInv` | indexes/multi_threaded_hybrid/static/static_base.h:489-491 | raising the version and resetting the finished counter keep the invariant |
| `MergeProtocol.LookKeepsInv` | indexes/multi_threaded_hybrid/hybrid_index.h:605-608 | reading the mode, the latest version and the own version, one after the other, keep the invariant |
| `MergeProtocol.CatchUpKeepsInv` | indexes/multi_threaded_hybrid/static/static_base.h:521-525 | a thread that moves to the latest version keeps the invariant |
| `MergeProtocol.InitInv` | indexes/multi_threaded_hybrid/static/static_base.h:589-591 | a round that has just been set up satisfies the invariant |
| `MergeProtocol.StepKeepsInv` | indexes/multi_threaded_hybrid/hybrid_index.h:545-599 | every atomic step of any thread keeps the protocol invariant |
| `MergeProtocol.RunKeepsInv` | indexes/multi_threaded_hybrid/hybrid_index.h:545-599 | the invariant holds in every state of every interleaving |
| `MergeProtocol.HandOutIsExact` | indexes/multi_threaded_hybrid/static/static_base.h:545-582 | in every reachable state the claimed partitions are exactly those below the counter, each owned by one existing thread, and no thread owns two |
| `MergeProtocol.EndsOnce` | indexes/multi_threaded_hybrid/hybrid_index.h:572-592 | in every reachable state: merged mode means every partition is finished; the version is the old one or one more, more only in merged mode, and has risen once the winner is through |
| `MergeProtocol.Monotone` | indexes/multi_threaded_hybrid/static/static_base.h:545-582 | along a run an owner never changes, a finished partition stays finished, the version never falls, and the merged mode and its winner stay |
| `MergeProtocol.EndNeedsThreads` | indexes/multi_threaded_hybrid/static/static_base.h:551-553 | a round can only end if at least as many threads as partitions start at the latest version: the version guard lets a thread take one partition only |
| `MergeProtocol.EnoughThreadsCanEnd` | indexes/multi_threaded_hybrid/hybrid_index.h:545-599 | with that many threads a run exists that ends the round, so the condition is exact |
| `MergeProtocol.Serve` | indexes/multi_threaded_hybrid/static/static_base.h:545-582 | one current thread can take, merge and finish the next partition from a quiet state |
| `MergeProtocol.Close` | indexes/multi_threaded_hybrid/hybrid_index.h:572-592 | once all partitions are finished, a thread can end the round |
| `Records.MergeKeepsRecords` | indexes/hybrid/static/static_base.h:95-106 | the merge result is the multiset sum of its inputs |
| `Records.MergeSorts` | indexes/hybrid/static/static_base.h:95-106 | merging two sorted sequences gives a sorted one |
| `Records.MergeStable` | indexes/multi_threaded_hybrid/static/static_base.h:768-775 | among records of one key, all of the first operand come before those of the second, in their old order (multi-threaded: dynamic before static; single-threaded: static before dynamic) |
| `Records.MergeDistinct` | indexes/hybrid/static/static_base.h:95-106 | sequences without repeated or common keys merge to one without repeated keys |
| `Records.WholeIsPending` | indexes/hybrid/static/static_base.h:95-106 | the backward loop's picture of the work still to do is, at the start, the whole merge |
| `Records.FirstIsLowerBound` | ycsb_utils/util_search.h:93-109 | the lower bound of a stored key holds the first record with that key |
| `Records.LowerBoundSplits` | ycsb_utils/util_search.h:93-109 | everything before the lower bound is smaller, everything from it on is not |
| `Records.MergeFirstValue` | indexes/hybrid/static/static_base.h:95-106 | the first value of a key after merging is that of the first operand, and otherwise that of the second |
| `PageStore.PagesForIsCeiling` | indexes/hybrid/static/static_base.h:109-109 | the number of pages is the ceiling of records over page size, and for a non-empty file the page of the last record plus one |
| `PageStore.ChunkBounds` | ycsb_utils/util_search.h:54-61 | chunks of at most 500000 pages fit the buffer, start inside the data and cover the pages one after the other |
| `PageStore.WriteChunk` | ycsb_utils/util_search.h:59-64 | one chunk writes its records in place and nothing else on the disk |
| `PageStore.ReadChunk` | ycsb_utils/util_search.h:126-132 | one chunk copies exactly its records below the length and nothing else |
| `PageStore.DirectIOWrite` | ycsb_utils/util_search.h:49-71 | after the chunked write the pages hold the data, and the rest of the disk is unchanged |
| `PageStore.GetAllData` | ycsb_utils/util_search.h:111-136 | the chunked read returns exactly the stored records, so that writing and reading back is the identity |
| `PageStore.LastMileSearch` | ycsb_utils/util_search.h:93-109 | the lower bound of the key, or the last index when all keys are smaller |
| `HybridStatic.MergeInPlace` | indexes/hybrid/static/static_base.h:95-106 | the backward merge in the array that already holds the static records never overwrites an unread one: the result is the stable merge, static before dynamic |
| `HybridStatic.CopyRest` | indexes/hybrid/static/static_base.h:104-106 | the remaining dynamic records go to the front and nothing else changes |
| `HybridStatic.ReachedIsFetched` | ycsb_utils/util_search.h:253-262 | a position whose page a bound reaches lies in the fetched pages |
| `HybridStatic.FetchInFile` | indexes/hybrid/static/static_base.h:55-61 | the fetched pages lie in the file and the records searched on them end at the file's last record |
| `HybridStatic.SearchWindow` | ycsb_utils/util_search.h:172-177 | the value found for any key, stored or not, is that of the record at its lower bound, or of the last record |
| `HybridStatic.WindowFinds` | ycsb_utils/util_search.h:93-109 | in a window that contains the lower bound of a stored key, that is the key's value |
| `HybridStatic.InWindow` | ycsb_utils/util_search.h:253-262 | if a bound reaches the page of a stored key's first record, that record is among those fetched |
| `HybridStatic.LastPageFinds` | ycsb_utils/util_search.h:172-177 | searching the last page for the largest key finds the first record with it there |
| `HybridStatic.StaticIndex.constructor` | indexes/hybrid/static/static_base.h:28-30 | an empty static index |
| `HybridStatic.StaticIndex.MergeData` | indexes/hybrid/static/static_base.h:64-132 | the file then holds the merge of the old contents and the dynamic data, which is also returned; page counts fit |
| `HybridStatic.StaticIndex.FetchPages` | ycsb_utils/util_search.h:161-177 | the value returned for any key is that of the record where the search over the fetched records ends |
| `HybridStatic.StaticIndex.Store` | indexes/hybrid/static/static_base.h:108-123 | record, page and last-page counters are set together, and the file then holds the records |
| `HybridStatic.StaticIndex.FindData` | indexes/hybrid/static/static_base.h:151-154 | a stored key is found whenever the given bound reaches its page, also on the partly filled last page; any other key gives the value of the record where the search on the bound's pages ends |
| `HybridDynamic.PutHolds` | indexes/hybrid/dynamic/btree.h:65-72 | after an insertion the tree holds the new record and all old ones of other keys, keys still distinct |
| `HybridDynamic.PutConserves` | indexes/hybrid/dynamic/btree.h:65-72 | records change by the insertion, and by the replaced record of the same key |
| `HybridDynamic.ValueOf` | indexes/hybrid/dynamic/btree.h:41-47 | every record of the tree is what a lookup of its key finds |
| `HybridDynamic.KeptSize` | indexes/hybrid/dynamic/btree.h:93-93 | the records kept are as many as the first buffer has room for, and with those given up they are all |
| `HybridDynamic.KeptAndGivenUp` | indexes/hybrid/dynamic/btree.h:97-105 | as multisets, kept and given-up records are together the old tree |
| `HybridDynamic.BothDistinct` | indexes/hybrid/dynamic/btree.h:97-105 | kept and given-up records are records of the tree, in order, keys distinct |
| `HybridDynamic.BuffersSuffice` | indexes/hybrid/dynamic/btree.h:90-93 | for a tree of at least num records, the stride is positive and at least num records are kept, so neither buffer overruns |
| `HybridDynamic.FillBuffers` | indexes/hybrid/dynamic/btree.h:96-105 | the loop fills one buffer with every seg-th record and the other with the rest, within both buffers |
| `HybridDynamic.Divide` | indexes/hybrid/dynamic/btree.h:89-107 | the two resized buffers are the kept and the given-up records |
| `HybridDynamic.BTreeIndex.Build` | indexes/hybrid/dynamic/btree.h:26-28 | the tree holds the loaded records |
| `HybridDynamic.BTreeIndex.Find` | indexes/hybrid/dynamic/btree.h:41-47 | the value of a stored key, the largest value otherwise |
| `HybridDynamic.BTreeIndex.Insert` | indexes/hybrid/dynamic/btree.h:65-72 | replaces the record of the key or adds it in order |
| `HybridDynamic.BTreeIndex.Merge` | indexes/hybrid/dynamic/btree.h:89-110 | keeps every seg-th record, gives up the others in order, and keeps at least num records |
| `HybridLearned.ThreePages` | indexes/Compressed-Disk-Oriented-Index/di_v4.h:162-174 | a bound of the learned index spans at most three pages |
| `HybridLearned.FirstOfKey` | indexes/hybrid/static/cpr_di.h:40-42 | in the training data, which pairs keys with positions, the first entry of a key stands at its lower bound |
| `HybridLearned.FirstIsReached` | indexes/hybrid/static/cpr_di.h:76-79 | what the learned index promises for training entries is that the bound reaches the page of the key's first record |
| `HybridLearned.DistinctIsReached` | indexes/hybrid/static/cpr_di.h:76-79 | where no key repeats, every stored key is within reach |
| `HybridLearned.TrainOn` | indexes/hybrid/static/cpr_di.h:49-57 | a new learned index over the positions of the records, if and only if training succeeds |
| `HybridLearned.StaticCprDI.constructor` | indexes/hybrid/static/cpr_di.h:18-23 | an empty static index without a model |
| `HybridLearned.StaticCprDI.Build` | indexes/hybrid/static/cpr_di.h:30-57 | the file holds the merge of old and new records, and the learned index is trained anew on exactly these, if and only if training succeeds |
| `HybridLearned.StaticCprDI.Bound` | indexes/hybrid/static/cpr_di.h:76-79 | the learned bound lies in the file, spans at most three pages and, for every stored key but a largest one repeated over pages, reaches the page of its first record |
| `HybridLearned.StaticCprDI.Find` | indexes/hybrid/static/cpr_di.h:76-79 | after a build that trained, find returns the stored value, with no bound given from outside; a largest key that reaches over several pages gives its first value on the last page, and any other key the value of the record where the search on the fetched pages ends |
| `HybridIndex.MergedOrdered` | indexes/hybrid/hybrid_index.h:256-284 | a merge keeps both parts ordered and all records as a multiset |
| `HybridIndex.MergeKeepsLookup` | indexes/hybrid/hybrid_index.h:256-284 | a merge keeps the answer for a key if and only if it does not give up a record of a key that is already static with another value (the old static record then comes first and the newer value is lost to lookups); a key that stays dynamic keeps its answer; records that carry the value for 'not found' included |
| `HybridIndex.PutChangesLookup` | indexes/hybrid/hybrid_index.h:119-152 | after inserting, the key has the new value and every other key its old answer, in any ordered state; the value that stands for 'not found' leaves the key with its static value |
| `HybridIndex.MergedClean` | indexes/hybrid/hybrid_index.h:256-284 | when no key is stored twice, a merge keeps that, and changes no answer and no stored key |
| `HybridIndex.InsertedClean` | indexes/hybrid/hybrid_index.h:119-152 | inserting a new key, with or without a merge, adds one record and one answer and changes no other |
| `HybridRuns.PutOverwrites` | indexes/hybrid/dynamic/btree.h:65-72 | an insertion adds its record and takes out the dynamic record of the same key, if there is one |
| `HybridRuns.StepConserves` | indexes/hybrid/hybrid_index.h:119-152 | one insertion, with or without a merge before it: records afterwards and the one overwritten are the records before and the one inserted |
| `HybridRuns.RunConserves` | indexes/hybrid/hybrid_index.h:119-152 | conservation over every run of insertions of any keys with merges anywhere: final records plus overwritten ones are initial records plus inserted ones, as multisets |
| `HybridRuns.StepLookup` | indexes/hybrid/hybrid_index.h:119-152 | one step changes the answer of its own key to the new value, or to the static one if the new value stands for 'not found', and another key's if and only if its merge shadows that key |
| `HybridRuns.RunLookup` | indexes/hybrid/hybrid_index.h:95-152 | over every run of insertions of any keys and any values with merges anywhere, a lookup answers as a map would if and only if the key is not lost: its last insertion did not write the value for 'not found' over a static value, and no merge since then gave it up while the static half stored it with another value |
| `HybridRuns.RunIsMap` | indexes/hybrid/hybrid_index.h:95-152 | for runs of new keys nothing is lost or overwritten, so records change by the insertions only and every lookup answers as a map would |
| `HybridIndex.DistributedAll` | indexes/hybrid/hybrid_index.h:42-56 | the initial distribution splits the records into two parts without loss |
| `HybridIndex.Distributed` | indexes/hybrid/hybrid_index.h:42-56 | both parts have distinct keys and share none |
| `HybridIndex.Distribute` | indexes/hybrid/hybrid_index.h:42-56 | the loop computes that distribution within both buffers |
| `HybridIndex.StoredIsVisible` | indexes/hybrid/hybrid_index.h:95-105 | where no key is stored twice, a stored key is within reach of the learned index or in memory if and only if its value in memory is not the one that stands for 'not found' |
| `HybridIndex.HybridIndex.constructor` | indexes/hybrid/hybrid_index.h:30-33 | an empty hybrid index |
| `HybridIndex.HybridIndex.Build` | indexes/hybrid/hybrid_index.h:36-65 | the built index holds exactly the data and no key twice, and its learned index is trained if and only if training on the static records succeeds |
| `HybridIndex.HybridIndex.Find` | indexes/hybrid/hybrid_index.h:95-105 | the composed lookup, through the learned index, equals the abstract one for every key that is dynamic or within the learned index's reach; otherwise a static key gives its first value on the last page, and any other key the value of the record where the search on the fetched pages ends; it changes no record and counts its accesses |
| `HybridIndex.HybridIndex.Merge` | indexes/hybrid/hybrid_index.h:256-284 | the two index objects go to the abstract merged state, and the learned index is trained on it if training succeeds |
| `HybridIndex.HybridIndex.Insert` | indexes/hybrid/hybrid_index.h:119-152 | the two index objects go to the abstract inserted state, merging first when over budget |
| `PartitionedMerge.GetPartitionID` | indexes/multi_threaded_hybrid/static/static_base.h:638-642 | the first partition whose key is not below the sought key |
| `PartitionedMerge.RangeBounds` | indexes/multi_threaded_hybrid/static/static_base.h:715-738 | the dynamic range of every partition is well formed |
| `PartitionedMerge.SharesTile` | indexes/multi_threaded_hybrid/static/static_base.h:715-738 | the ranges of the first n partitions are, one after the other, the dynamic data up to the n-th border |
| `PartitionedMerge.AllTaken` | indexes/multi_threaded_hybrid/static/static_base.h:715-738 | all dynamic data is taken if and only if all its keys are below the last partition key; others are lost |
| `PartitionedMerge.PartStaysOk` | indexes/multi_threaded_hybrid/static/static_base.h:350-361 | if no dynamic record stands on the previous partition's key, a merged partition is non-empty, sorted, above that key and still ends with its own; keys may repeat |
| `PartitionedMerge.BorderBreaks` | indexes/multi_threaded_hybrid/static/static_base.h:720-737 | a dynamic record on an inner partition key goes to the next partition, which is then no longer above that key |
| `PartitionedMerge.PartitionedStays` | indexes/multi_threaded_hybrid/static/static_base.h:408-408 | the merged partitions are partitioned by the unchanged keys if and only if no dynamic record stands on an inner partition key |
| `PartitionedMerge.RoutesToHolder` | indexes/multi_threaded_hybrid/static/static_base.h:638-642 | every stored record's key is routed to the partition that holds it |
| `PartitionedMerge.NewRecordRoute` | indexes/multi_threaded_hybrid/static/static_base.h:715-738 | a dynamic record is routed to the partition that takes it if and only if its key is not the previous partition's key |
| `PartitionedMerge.MergeConserves` | indexes/multi_threaded_hybrid/static/static_base.h:584-606 | over all partitions the records change exactly by the dynamic data below the last partition key |
| `MultiThreadedStatic.MergeLoops` | indexes/multi_threaded_hybrid/static/static_base.h:764-779 | from any pending state the loops complete the merge in place |
| `MultiThreadedStatic.CopyShare` | indexes/multi_threaded_hybrid/static/static_base.h:777-779 | the remaining dynamic records go to the front and nothing else changes |
| `MultiThreadedStatic.MergeTwoSortedArray` | indexes/multi_threaded_hybrid/static/static_base.h:762-779 | the in-place backward merge gives the stable merge with dynamic before static on ties |
| `MultiThreadedStatic.PagesDisjoint` | indexes/multi_threaded_hybrid/static/static_base.h:594-602 | the page intervals of two partitions never overlap, and neighbours adjoin |
| `MultiThreadedStatic.NextStart` | indexes/multi_threaded_hybrid/static/static_base.h:596-602 | the start computed from the previous partition alone is the sum of all earlier page counts |
| `MultiThreadedStatic.PlanOne` | indexes/multi_threaded_hybrid/static/static_base.h:592-606 | one round of the loop plans its partition |
| `MultiThreadedStatic.Layout` | indexes/multi_threaded_hybrid/static/static_base.h:591-618 | the loop plans every partition: page interval, dynamic range and record counts |
| `MultiThreadedStatic.TargetsApart` | indexes/multi_threaded_hybrid/static/static_base.h:594-602 | no partition's merged records overlap another's pages in the new file |
| `MultiThreadedStatic.MultiThreadedStaticIndex.PartitionData` | indexes/multi_threaded_hybrid/static/static_base.h:584-618 | the partitions are planned from the fields and the dynamic data |
| `MultiThreadedStatic.MultiThreadedStaticIndex.LoadAndMerge` | indexes/multi_threaded_hybrid/static/static_base.h:313-352 | reads the partition's records from the old file and merges its dynamic range into them |
| `MultiThreadedStatic.MultiThreadedStaticIndex.MergeSubData` | indexes/multi_threaded_hybrid/static/static_base.h:299-408 | one sub-merge stores its partition on its own pages, sets its four fields, and touches no other page or field |
| `MultiThreadedStatic.MultiThreadedStaticIndex.MergeInOrder` | indexes/multi_threaded_hybrid/static/static_base.h:299-408 | the sub-merges finished in any order all stay done |
| `MultiThreadedStatic.MergedPartsEnd` | indexes/multi_threaded_hybrid/static/static_base.h:408-408 | every merged partition ends with its old key |
| `MultiThreadedStatic.MultiThreadedStaticIndex.MergeRound` | indexes/multi_threaded_hybrid/static/static_base.h:299-408 | in whatever order the partitions are merged, the new file holds the merged partitions, described by the fields, with unchanged partition keys; they are still separated by these if and only if no dynamic record stands on an inner one |
| `LruList.ToFrontHolds` | indexes/film/filmadalru.h:202-207 | moving to the front keeps the members |
| `LruList.WithoutHolds` | indexes/film/filmadalru.h:119-128 | removing takes away exactly one member |
| `LruList.Chain.constructor` | indexes/film/filmadalru.h:172-178 | an empty list between its two sentinels |
| `LruList.Chain.AppendHead` | indexes/film/filmadalru.h:193-199 | the four pointer writes put the node in front of a correctly linked list, contents unchanged |
| `LruList.Chain.Unlink` | indexes/film/filmadalru.h:204-205 | the two pointer writes take the node out of a correctly linked list |
| `LruList.Chain.MoveToHead` | indexes/film/filmadalru.h:202-207 | the node is first, the others keep their order, also when it was first already |
| `LruList.Chain.PopTail` | indexes/film/filmadalru.h:243-250 | takes off and returns the least recently used node |
| `LruList.Chain.Put` | indexes/film/filmadalru.h:210-217 | a new first node, the others unchanged |
| `LruList.Modify` | indexes/film/filmadalru.h:230-240 | exactly the keys above pos grow by one, over a list of any length |
| `LruList.HashLRU.constructor` | indexes/film/filmadalru.h:41-48 | an empty list and an empty map |
| `LruList.HashLRU.RemoveNode` | indexes/film/filmadalru.h:119-128 | the node leaves list and map together |
| `LruList.HashLRU.PopTail` | indexes/film/filmadalru.h:131-140 | the last node leaves list and map together |
| `LruList.HashLRU.GetTail` | indexes/film/filmadalru.h:143-147 | returns the last leaf and drops it from list and map exactly when this is its last record |
| `LruList.HashLRU.Refresh` | indexes/film/filmadalru.h:100-103 | a known key moves to the front |
| `LruList.HashLRU.Add` | indexes/film/filmadalru.h:90-99 | a new key below capacity enters list and map |
| `LruList.HashLRU.Put` | indexes/film/filmadalru.h:89-104 | the key is first afterwards, the rest in old order, list and map in step |
| `FilmMemory.TurnedKeeps` | indexes/film/filmadastorage.h:285-292 | replacing a full current page loses no record |
| `FilmMemory.WithRecordKeeps` | indexes/film/filmadastorage.h:294-298 | appending a record holds it at its position and loses none |
| `FilmMemory.FlushedKeeps` | indexes/film/filmadastorage.h:235-281 | flushing loses no record: page ids and file places agree |
| `FilmMemory.WriteInto` | indexes/film/filmadastorage.h:295-298 | key and payload are written at the free space, which moves behind them |
| `FilmMemory.FilmMemory.constructor` | indexes/film/filmadastorage.h:109-118 | an empty page store with one current page |
| `FilmMemory.FilmMemory.CreateInMemPage` | indexes/film/filmadastorage.h:113-118 | a fresh page with the next page id |
| `FilmMemory.FilmMemory.MakeRoom` | indexes/film/filmadastorage.h:285-292 | afterwards the current page takes a record, and nothing held is lost |
| `FilmMemory.FilmMemory.Place` | indexes/film/filmadastorage.h:294-298 | the record is held at the free space of the current page, everything held before stays held |
| `FilmMemory.FilmMemory.AppendRecord` | indexes/film/filmadastorage.h:283-302 | the record is held at the returned position, everything held before stays held |
| `FilmMemory.FilmMemory.EvictKeyToInPage` | indexes/film/filmadastorage.h:283-302 | in addition, the position gets a new entry of the table |
| `FilmMemory.FilmMemory.EvictKeyToInPageAt` | indexes/film/filmadastorage.h:305-321 | in addition, the recycled entry alone is overwritten |
| `FilmMemory.FilmMemory.WriteBlock` | indexes/film/filmadastorage.h:250-256 | one block of pages is appended to the file in order |
| `FilmMemory.FilmMemory.RuntimeEvictPagesToDisk` | indexes/film/filmadastorage.h:235-281 | all waiting pages are in the file under their ids, in whole blocks and a rest; every held record stays held |
| `FilmMemory.FilmMemory.ReadRecord` | indexes/baseline/film.h:179-188 | what is read at the position of a held record, from the current page or from disk, is that record, unless its page still waits to be written |
| `FilmStore.EvictKeeps` | indexes/film/film.h:1745-1755 | evicting the tail record keeps every slot of every leaf retrievable with its original record |
| `FilmStore.RestoreKeeps` | indexes/baseline/film.h:190-196 | reading a record back keeps every slot retrievable, and the freed position belongs to no slot |
| `FilmStore.TouchKeeps` | indexes/baseline/film.h:169-171 | an access in memory keeps every slot retrievable |
| `FilmStore.SoundLater` | indexes/film/filmadastorage.h:235-281 | what keeps the pages keeps the slots |
| `FilmStore.PutLeafOk` | indexes/film/filmadalru.h:89-104 | the leaf list still holds exactly the leaves with records in memory |
| `FilmStore.GetTailOk` | indexes/film/filmadalru.h:143-147 | dropping a leaf with its last record keeps that too |
| `FilmStore.CountsAfter` | indexes/film/filmadastorage.h:538-539 | changing one leaf changes the number of records in memory by that leaf's difference |
| `FilmStore.FewPages` | indexes/film/filmadastorage.h:236-237 | a bounded batch fills fewer pages than the 16-bit page counter can hold |
| `FilmStore.FilmStore.constructor` | indexes/film/filmadastorage.h:508-542 | an index with all records in memory is valid |
| `FilmStore.FilmStore.EvictOne` | indexes/film/film.h:1742-1759 | one eviction, to a fresh or a recycled position, keeps the index sound and moves one record out |
| `FilmStore.FilmStore.Touch` | indexes/baseline/film.h:162-171 | the record and its leaf become most recently used, nothing else changes |
| `FilmStore.FilmStore.Find` | indexes/baseline/film.h:160-202 | every slot returns its original payload, is in memory and most recently used afterwards; the total count is unchanged and the old position is recycled |
| `FilmStore.FilmStore.ReadBack` | indexes/baseline/film.h:176-198 | an evicted record is read with its original payload, its slot is in memory again and its position recycled |
| `FilmStore.FilmStore.FilmTransfer` | indexes/film/filmadastorage.h:508-542 | evicts exactly the batch, keeps the index valid and the counters exact |
| `FilmStore.FilmStore.Flush` | indexes/film/filmadastorage.h:534-534 | writes all waiting pages and keeps the index sound |
| `FilmStore.FilmStore.RuntimeEvictKeyToPage2` | indexes/film/film.h:1733-1808 | evicts to all recycled positions, or else the batch to fresh ones; valid afterwards, counters exact, no table growth when recycling |
| `FilmStore.FilmStore.TableBounded` | indexes/film/film.h:1740-1763 | in every valid state the position table has at most one entry per record, because recycled positions are used first |
| `FrequencyNormalisation.SumOfOccurrences` | libraries/LeCo/experiments/RNS_int.cpp:41-48 | the counts of all symbols add up to the input length |
| `FrequencyNormalisation.Pigeonhole` | libraries/LeCo/experiments/RNS_int.cpp:78-90 | if no symbol has more than one slot and one has none, the first n symbols have at most n slots, one fewer past that symbol |
| `FrequencyNormalisation.SomeoneHasMore` | libraries/LeCo/experiments/RNS_int.cpp:78-90 | with at least 256 slots and a symbol without one, some symbol has two: the first assertion cannot fail |
| `FrequencyNormalisation.LosesOnlyBelow` | libraries/LeCo/experiments/RNS_int.cpp:64-66 | a used symbol loses all slots in resampling only if the target is below the total |
| `FrequencyNormalisation.NoneLoses` | libraries/LeCo/experiments/RNS_int.cpp:64-74 | with a target of at least the total nothing is stolen |
| `FrequencyNormalisation.MovedServes` | libraries/LeCo/experiments/RNS_int.cpp:92-103 | stealing serves the symbol, takes from one that keeps a slot, and keeps the table cumulative and all symbols served before |
| `FrequencyNormalisation.FindBest` | libraries/LeCo/experiments/RNS_int.cpp:78-89 | the symbol found has the least frequency above one, and -1 means there is none |
| `FrequencyNormalisation.Steal` | libraries/LeCo/experiments/RNS_int.cpp:92-103 | both loops move one slot from the best symbol to the unserved one |
| `FrequencyNormalisation.SymbolStats.CountFreqs` | libraries/LeCo/experiments/RNS_int.cpp:41-48 | each frequency is the number of occurrences |
| `FrequencyNormalisation.SymbolStats.CalcCumFreqs` | libraries/LeCo/experiments/RNS_int.cpp:50-55 | each cumulative frequency is the sum of those before |
| `FrequencyNormalisation.SymbolStats.Resample` | libraries/LeCo/experiments/RNS_int.cpp:64-66 | the scaled table is cumulative from 0 to the target, and unused symbols have no slot |
| `FrequencyNormalisation.SymbolStats.ServeAll` | libraries/LeCo/experiments/RNS_int.cpp:72-105 | afterwards exactly the used symbols have slots, and the table is cumulative to the target |
| `FrequencyNormalisation.SymbolStats.NormalizeFreqs` | libraries/LeCo/experiments/RNS_int.cpp:57-119 | for any non-empty counts and any target from 256 on: cumulative from 0 to the target, and a frequency is non-zero exactly if it was |
| `FrequencyNormalisation.BuildTable` | libraries/LeCo/experiments/RNS_int.cpp:229-232 | each of the slots is assigned the symbol whose interval contains it; none is left out |
| `FrequencyNormalisation.DecodingIsUnique` | libraries/LeCo/experiments/RNS_int.cpp:229-232 | no slot lies in the intervals of two symbols, so the table is the inverse of the cumulative frequencies |
| `FrequencyNormalisation.NormalizeBytes` | libraries/LeCo/experiments/RNS_int.cpp:224-232 | the whole pipeline on any non-empty input: a symbol has a slot exactly if it occurs, and the table inverts the cumulative frequencies |
| `SortedSearch.FirstAtLeast` | indexes/leco-page.h:166-179 | the boundary a lower-bound search has to find: smaller values before it, none from it on |
| `SortedSearch.FirstAtLeastIs` | indexes/leco-page.h:168-178 | in an increasing sequence two comparisons settle it, so where the loop ends is that boundary |
| `LecoZoneMap.OneBorder` | indexes/leco-page.h:43-53 | lower and upper bound of one border, the upper one just below the key at the border |
| `LecoZoneMap.AllBounds` | indexes/leco-page.h:43-60 | the loop produces the bounds of all borders, the last one open above when a tail of data follows |
| `LecoZoneMap.DecodedIncrease` | indexes/leco-page.h:97-129 | whatever values within the bounds the codec returns, they are strictly increasing |
| `LecoZoneMap.BlockCount` | indexes/leco-page.h:66-70 | the computed number of blocks covers all points with none empty |
| `LecoZoneMap.BlockShape` | indexes/leco-page.h:66-70 | width and count are positive and fit, from the wanted number of blocks |
| `LecoZoneMap.Blocks` | indexes/leco-page.h:74-90 | the blocks, laid end to end, are the points |
| `LecoZoneMap.FlatSplit` | indexes/leco-page.h:170-172 | point i is entry `i % width` of block `i / width`, and no block is empty or too long |
| `LecoZoneMap.LecoPage.BuildBounds` | indexes/leco-page.h:31-61 | the fields hold the bounds, the largest position and the number of points |
| `LecoZoneMap.LecoPage.Encode` | indexes/leco-page.h:61-90 | the blocks hold every decoded point once, reachable by quotient and remainder |
| `LecoZoneMap.LecoPage.LecoBinarySearch` | indexes/leco-page.h:166-179 | the first point whose decoded value is not below the key |
| `LecoZoneMap.LecoPage.Lookup` | indexes/leco-page.h:137-146 | the range at that point |
| `LecoZoneMap.PointOf` | indexes/leco-page.h:166-179 | the point found for a stored key, for any decoded values, is bordered by the key's position on both sides |
| `LecoZoneMap.RangeEnds` | indexes/leco-page.h:137-146 | the page arithmetic in records: start, width and the cap at the end of the data |
| `LecoZoneMap.LookupFinds` | indexes/leco-page.h:137-146 | the range contains the index of a stored key if and only if the point is the first, or at least the number of sliding pages, or the index is past the point's fixed start |
| `LecoZoneMap.FindsByOwnGroup` | indexes/leco-page.h:137-146 | in terms of the key's own group of pages: the range contains the key's index if and only if the group's decoded value is not below the key, or at least as many groups as sliding pages end with it |
| `LecoZoneMap.OneSlideFinds` | indexes/leco-page.h:137-146 | with at most one sliding page the range contains the index of every stored key |
| `FailingInputs.MissedLastKey` | indexes/PGM-index-disk/pgm_index_page.hpp:439-446 | an index over keys 0, 1 and 1000 whose window for key 1000 does not hold its position |
| `FailingInputs.LastKeyAlone` | indexes/PGM-index-disk/pgm_index_page.hpp:187-192 | three keys, the last one many pages away, are valid input whose last key is left alone |
| `FailingInputs.FailedBuild` | indexes/Compressed-Disk-Oriented-Index/di_v4.h:76-81 | building the compressed index over them runs past the list of slope ranges |
| `FailingInputs.EndsMissed` | indexes/Compressed-Disk-Oriented-Index/di_v4.h:162-174 | an index over keys 0 and 1 whose bounds for both miss the pages of their first positions: the smallest key is not on the first page, the largest one is on two pages |
| `FailingInputs.FirstKeyMissed` | indexes/rs-disk/radix_spline.h:60-69 | a spline over two keys at positions 5 and 6 with error 1 whose bound for the first key does not contain 5 |
| `FailingInputs.FirstPageMissed` | indexes/rs-disk/radix_spline.h:60-69 | a disk-oriented spline over two keys at positions 8 and 9 with error 1 whose bound for the first key does not reach the page of 8 |
| `FailingInputs.LargestIsDropped` | indexes/multi_threaded_hybrid/static/static_base.h:715-738 | a new record above the only partition key is in no share |
| `FailingInputs.BorderIsMisrouted` | indexes/multi_threaded_hybrid/static/static_base.h:715-738 | a new record on an inner partition key joins the next partition but is looked for in the one before |
| `FailingInputs.NewRecordIsGivenUp` | indexes/hybrid/dynamic/btree.h:97-105 | a record inserted second of 200 is given up by the next merge |
| `FailingInputs.OldValueReturns` | indexes/hybrid/hybrid_index.h:119-152 | a run of two insertions from a state that stores no key twice, after which a key has its old value again |
| `FailingInputs.LargestValueIsPassedOver` | indexes/hybrid/hybrid_index.h:95-105 | after inserting the value for 'not found' a lookup gives the static value |
| `FailingInputs.MissedNearTheStart` | indexes/leco-page.h:137-146 | seven keys, one fixed and two sliding pages: the second key is outside the range it is looked up in |

## Left out

- PiecewiseLinearModel.OptimalPiecewiseLinearModel.AddRange: a single-valued range strictly between both extreme lines of a run with wider ranges is excluded; no caller in the repository makes one, because epsilon is positive and `GetRangeY` never returns a single value.
- PiecewiseLinearModel.OptimalPiecewiseLinearModel.AddPointRange: the same ranges are excluded.
- PiecewiseLinearModel.OptimalPiecewiseLinearModel.Narrow: the same ranges are excluded.
- PiecewiseLinearModel.OptimalPiecewiseLinearModel.AddPoint: slopes are compared exactly, and positions are at least 0; overflow of 128-bit products is not modelled.
- Segmentation.MakeSegmentation: the one loop stands for both overloads, which differ only in the range of a datum.
- ParallelSegmentation.MakeSegmentationPar: the chunks are segmented one after the other; they share no data.
- PgmIndex.PGMIndexPage.Search: the stored slope is the exact quotient, not a `float`; keys equal to the largest key value are not looked up.
- PgmIndex.PGMIndexPage.Build: keys are strictly increasing, so the adjustment for runs of duplicate keys is modelled for the compressed index only.
- PgmIndex.PGMIndexPage.constructor: keys are strictly increasing here as well.
- SlopeCompression.SortIndexes: stands for `std::sort` and sorts by insertion.
- SlopeCompression.MergeSlopes: slopes are exact reals, so rounding to `float` is not modelled.
- InterceptCompression.CompressedIntercepts.Compress: the succinct bit vector is the sequence of its set positions and select is indexing; the overflow test for 32-bit intercepts is not modelled.
- DiskOrientedIndex.DiskOrientedIndexV4.GetSegmentIndex: the compressed model keys are a sorted sequence; the codec that stores them is library code.
- DiskOrientedIndex.DiskOrientedIndexV4.Build: epsilon and the flags for keys that may cross pages are parameters, so every choice of them is covered; a page-wise prediction stays below the range of `int`.
- RadixSpline.GetEstimatedPosition: interpolation is exact integer division; rounding of `double` is not modelled.
- RadixSplineBuilder.Builder.Add: a key that repeats with a larger position, which the assertions admit, is excluded; so it is in `RadixSplineBuilder.Builder.AddSample`.
- RadixSplineBuilder.BuildOnPages: the fraction of crossing keys is computed with exact division.
- MergeProtocol.RunKeepsInv: one merge round; the handshake that drains writers, the version counting and the return to normal mode depend on spin timeouts and are not modelled.
- MultiThreadedStatic.MultiThreadedStaticIndex.MergeRound: threads are replaced by an arbitrary order of whole sub-merges, each on its own pages; the interleaving of their steps is in `MergeProtocol`.
- PageStore.DirectIOWrite: the disk is an array of records, and errors of the operating system are not modelled.
- HybridStatic.StaticIndex.FindData: the result is the value only, without the page and index at which it stands; the worst-case fetch one page after the other and range sums are not modelled.
- HybridLearned.StaticCprDI.Build: epsilon and the number of chunks are parameters; records with the largest key value, which the learned index would leave out, count as a failed training. The other learned indexes of the hybrid index are not composed with it.
- HybridDynamic.BTreeIndex.Insert: the B-tree is its ordered sequence of records.
- HybridIndex.HybridIndex.Insert: whether the memory budget is exceeded is a parameter, so merges may happen at any insertion; scans, updates and deletions are not modelled.
- HybridRuns.RunIsMap: states where a key is stored twice and insertions of stored keys are in `HybridRuns.RunConserves` and `HybridRuns.RunLookup`, which have no such condition.
- FilmMemory.FilmMemory.ReadRecord: a record on a page that waits to be written cannot be read, in the source either; no page waits between the operations of the source.
- FilmStore.FilmStore.Find: the leaf and slot are given by the index search; the separate list of unsorted keys is not modelled.
- FilmStore.FilmStore.RuntimeEvictKeyToPage2: the batch size is a parameter bounded by the records in memory and by what the 16-bit page counter holds; memory thresholds are not modelled, and the payload array is copied, not aliased.
- FilmStore.FilmStore.Touch: leaves and the two levels of lists are values here, with the list functions that `LruList` proves the linked lists against; the capacity of the leaf list exceeds the number of leaves, so no leaf with records is popped.
- LruList.HashLRU.GetTail: whether the leaf has one record left is a parameter.
- FrequencyNormalisation.NormalizeBytes: encoding and decoding themselves are library code.
- LecoZoneMap.LecoPage.Encode: the codec's values are any values within the bounds, and compression is not modelled.
- The wrappers around the indexes, DI-V1 and DI-V3, the serializer, data generators and scripts would only add members of the kinds above.
