# ArrayScope core: verified models

ArrayScope is a viewer for n-dimensional arrays. Its core package holds self-contained algorithms and state
machines that decide what the viewer shows and how it spends the interface thread. This project models ten of
them in Dafny and proves what they promise, over exact integers and reals.

| component | files | what is proved about it |
|---|---|---|
| render-pass governor | `RealFacts`, `WeightedLine`, `RobustFit`, `FitOfSamples`, `FitOfOutliers`, `RenderPassBank`, `RenderPassRounds`, `LatencyPrice`, `CohortChoice`, `CohortRun`, `RelaxedObjective`, `LaneWorkers`, `LaneGovernor`, `LatencyFeedback`, `SpikeFilter`, `StoredPressure` | exactly when the robust fit is optimal, what the banks hold over every run, the price and the relaxed objective are convex and the search near-optimal, worker targets are damped fairly, isolated spikes do not move pressure, exactly when the stored pressure is out of date |
| slice selection | `Text`, `PythonRange`, `SliceSelection`, `SliceRoundTrip`, `SliceMeaning` | what every text selects, two competing range grammars, and exactly when a shifted print reads back |
| region reads | `RegionRead` | the optimised reading order equals outer indexing at any rank, through nested derived sources |
| region geometry | `Polyline`, `Raster`, `RasterSides`, `RoiStats` | curve simplification is faithful and idempotent, even-odd filling is told by sides of triangles, statistics do not depend on chunking |
| mutation clock | `OrderedDict`, `TrackedContainers`, `ClockedGraph`, `ClockedReach`, `ClockedRuns`, `ClockedHandover` | exactly while no other owner is handed it, no change below an owner is missed; provable no-ops are not counted |
| bounded cache | `CacheModel`, `CacheRuns`, `BoundedCache` | eviction, recency, conservation of bytes, the revision |
| kernel compilation | `KernelGroup`, `KernelOutcomes`, `KernelRegistry` | safety of the lazy compile protocol in every interleaving, and exactly when a failure is permanent |
| window levels | `WindowLevels` | what every run of decisions keeps, and after which runs a lock is held |
| view migration | `ViewState`, `ViewMigration`, `ViewRecipe` | every migration is well formed, and exactly when migrating or reloading again changes nothing |
| axis metadata | `AxisInfo` | samples keep their physical coordinates through pipelines |

Code that computes is modelled by functions. Code that updates is modelled by methods and classes: each method
is proved against a function of its inputs and the old state, and the lemmas are about that function. The
compile protocol is a state machine whose threads take one atomic step at a time. Time, telemetry and the
results of foreign code are inputs.

## What turned out differently

- The guards of the inner solve (`resource_governor.py:1747-1791`) can cost the robust fit its optimum even for
  whole sizes: `FitOfOutliers.FitLosesTheOptimum` is such a fit. `WeightedLine.SolveIsOptimalExactlyIf` is the
  exact condition in a solve, and `FitOfSamples.ModestSamplesFitOptimally` a bound on sizes and times that keeps
  every guard from biting.
- A user lock on the window levels can be lost in absolute mode (`window_levels.py:259-336`):
  `WindowLevels.LockCanBeLost`; `WindowLevels.LockedAfterRunExactlyIf` says after exactly which runs a lock is held.
- A worker step below one, which the governor accepts, lets decisions leave the bounds they report
  (`LaneWorkers.BoundsHoldExactlyIf`).
- Slice shifting (`slice_selection.py:62-81`) loses one-index ranges and MATLAB ranges of negative step;
  `SliceRoundTrip.ShiftRoundTrip` gives the exact condition.
- View migration (`view_state.py:288-380`) is not idempotent even for views with image axes: a montage selection
  emptied by the new extent leaves an empty selection of no axis behind. `ViewMigration.MigrationSettles` gives
  the exact condition, `ViewRecipe.SaveAndReload` the one for saving and reloading.
- The compile protocol documents that a group whose build failed stays permanently unavailable
  (`numba_runtime.py:115-121`). A thread already past the availability test can still make it ready;
  `KernelOutcomes.FailureIsPermanentExactlyIf` says exactly when.
- Tracking a bounded deque loses its bound (`mutation_clock.py:342-347`), and deleting an attribute of a clocked
  object is not counted (`mutation_clock.py:395-419`). Assigning an object to an owner on another clock takes
  along everything reached from it; `ClockedRuns.ForeignTellsExactlyIf` is the exact condition under which
  nothing of a clock is lost.
- In relative mode a complete candidate of the same key, equal quality and narrower range does not end a hold
  (`window_levels.py:358-424`); `WindowLevels.MatureReleasesTheHold` is the exact condition.
- Deciding a render pass that was never begun can exceed the bank bounds; `RenderPassBank.DecideWithoutBegin` is
  the exact condition, `RenderPassBank.EightTargetsThenPreview` a run that does.
- An isolated spike does not move the computed pressure at all, but the stored pressure can be out of date after
  a profile change, a raw timing or a reset, so recording a spike can still raise what is stored
  (`StoredPressure.SpikeMovesStoredExactlyIf`, and the run `StoredPressure.SpikeAfterProfileChange`);
  `StoredPressure.OutdatedByChannelExactlyIf` and `StoredPressure.OutdatedByProfileExactlyIf` say which do.
- An unnamed operation that resizes an axis at the same rank leaves the old size in the metadata
  (`AxisInfo.SameRankKeepsOldSizes`); the document class corrects sizes afterwards.

## Model

| member | source | states |
|---|---|---|
| `SliceSelection.TryPythonRange` | arrayscope/core/slice_selection.py:144-166 | The padding loop of the Python range grammar computes the Python reading of a text, rejecting what that grammar rejects. |
| `SliceSelection.WalkInclusive` | arrayscope/core/slice_selection.py:191-202 | The two inclusive while loops of the MATLAB grammar produce exactly the arithmetic walk up to and including the end. |
| `SliceSelection.TryMatlabRange` | arrayscope/core/slice_selection.py:169-206 | The MATLAB reading as computed, endpoint resolution and both walking directions included. |
| `PythonRange.RangeExact` | arrayscope/core/slice_selection.py:253-267 | Every stop strictly after the last index and at most one step on reproduces the same walk, which is what the printed exclusive stop relies on. |
| `PythonRange.SliceInBounds` | arrayscope/core/slice_selection.py:144-166 | Whatever the endpoints, the indices of a slice over an axis lie on the axis. |
| `SliceRoundTrip.ParseSound` | arrayscope/core/slice_selection.py:32-59 | Every accepted text selects at least one index, all on the axis, and a range kind is an arithmetic walk with its step. |
| `SliceRoundTrip.RepairedStep` | arrayscope/core/slice_selection.py:91-95 | A text repaired to a leading-colon step reads as Python with implicit step one and as nothing in MATLAB. |
| `SliceRoundTrip.BoundedIsShift` | arrayscope/core/slice_selection.py:230-239 | The bounded shift moves all indices by what is asked where all of them stay on the axis, and otherwise all together until the first one meets its end. |
| `SliceRoundTrip.MovedIsShift` | arrayscope/core/slice_selection.py:62-81 | Shifting any accepted selection moves every index by one common offset, delta places for single indices and lists and delta whole steps for ranges or as far as the axis allows, and keeps the spacing of ranges. |
| `SliceRoundTrip.PythonText` | arrayscope/core/slice_selection.py:249-267 | A printed Python range is always accepted; it reads back as the same indices exactly when it is safe, and otherwise as strictly more. |
| `SliceRoundTrip.MatlabText` | arrayscope/core/slice_selection.py:242-246 | A printed MATLAB range is always accepted; it reads back as the same indices exactly when it is safe, and otherwise as an ascending walk. |
| `SliceRoundTrip.ListText` | arrayscope/core/slice_selection.py:98-103 | A printed index list reads back as the same indices in the same order. |
| `SliceRoundTrip.UnshiftedText` | arrayscope/core/slice_selection.py:32-59 | The text a selection carries is itself accepted and selects the same indices. |
| `SliceRoundTrip.ShiftRoundTrip` | arrayscope/core/slice_selection.py:62-81 | For every accepted text and every delta: the shifted text reads back as all original indices moved as far as asked, or all together up to the end of the axis, if and only if the print is unambiguous (a condition on style, step and bounds). |
| `SliceRoundTrip.SeveralIndicesSurvive` | arrayscope/core/slice_selection.py:62-81 | Any accepted selection of two or more indices that is not a MATLAB range of negative step survives shifting by any amount. |
| `SliceRoundTrip.OneIndexRangeIsLost` | arrayscope/core/slice_selection.py:128-141 | On ten indices, 6:5:9 shifted by -1 prints 1:5:1, which reads back as indices 1 to 4. |
| `SliceMeaning.ScalarText` | arrayscope/core/slice_selection.py:106-115 | One number selects that index, from the end if negative, and is refused exactly off the axis. |
| `SliceMeaning.CommaText` | arrayscope/core/slice_selection.py:98-125 | A list of any numbers selects them in order, from the end if negative, those off the axis at its nearer end. |
| `SliceMeaning.HyphenText` | arrayscope/core/slice_selection.py:91-95 | Two numbers with a hyphen between them select from the first up to and without the second, as far as the axis goes. |
| `SliceMeaning.PythonSelects` | arrayscope/core/slice_selection.py:144-166 | A place of the axis is in a Python range exactly if it lies a whole number of steps from where the range begins and short of its stop, with omitted, negative and outlying endpoints as Python has them. |
| `SliceMeaning.MatlabSelects` | arrayscope/core/slice_selection.py:169-206 | A place is in a MATLAB range exactly if it lies a whole number of steps from the first end and not past the last, both brought onto the axis. |
| `SliceMeaning.LongerReadingWins` | arrayscope/core/slice_selection.py:128-141 | Of the two readings of a text Python wins where it selects two indices or more, or one and MATLAB no more; the text is refused exactly if neither selects anything. |
| `WeightedLine.Candidates` | arrayscope/core/resource_governor.py:1747-1791 | Every candidate of the inner solve has non-negative intercept and slope. |
| `WeightedLine.Best` | arrayscope/core/resource_governor.py:1783-1791 | The chosen candidate has the least weighted residual of the candidates. |
| `WeightedLine.ToBoundary` | arrayscope/core/resource_governor.py:1747-1791 | If the unconstrained line is inadmissible, some line on the boundary of the admissible quadrant is at least as good as any admissible line. |
| `WeightedLine.BestCandidate` | arrayscope/core/resource_governor.py:1747-1791 | The unconstrained line has strictly less weighted residual than every other line. |
| `WeightedLine.SolveIsOptimal` | arrayscope/core/resource_governor.py:1747-1791 | When the guards do not bite, no line with non-negative intercept and slope has a smaller weighted squared residual than the solved one. |
| `WeightedLine.ExactLineIsFound` | arrayscope/core/resource_governor.py:1747-1791 | An admissible line that fits the data without error is found exactly. |
| `WeightedLine.SolveIsOptimalExactlyIf` | arrayscope/core/resource_governor.py:1747-1791 | With weights that clear their guard, the solved line is the best admissible one if and only if the other two guards are harmless: the spread clears its guard, or only the unconstrained line is dropped and not both its terms are positive, or both are dropped and the best flat line is not pulled up. |
| `WeightedLine.InsideIsMissed` | arrayscope/core/resource_governor.py:1768-1791 | Dropping an unconstrained line with both terms positive always costs: the solved line is strictly worse. |
| `RobustFit.SortSorts` | arrayscope/core/resource_governor.py:1706-1722 | The ordering under the medians is ascending and a permutation. |
| `RobustFit.SeedLine` | arrayscope/core/resource_governor.py:1724-1745 | The seed loops compute the repeated-median line. |
| `RobustFit.Iterate` | arrayscope/core/resource_governor.py:1793-1814 | The reweighting loop, with its early exit, computes the bounded iteration of solve rounds. |
| `RobustFit.RobustLinearFit` | arrayscope/core/resource_governor.py:1706-1814 | The fit as computed, refusals included. |
| `RobustFit.WeightsArePositive` | arrayscope/core/resource_governor.py:1793-1814 | In every round every weight is positive and at most the sample recency weight, so no sample is ever dropped. |
| `RobustFit.RoundsEndInAStep` | arrayscope/core/resource_governor.py:1793-1814 | In every round before the last some term moved by more than a millionth; the last is the last one allowed or moves neither by more. |
| `RobustFit.RecencyFades` | arrayscope/core/resource_governor.py:1722 | The newest sample has recency one, every earlier one 0.72 of the next. |
| `RobustFit.InfluenceFalls` | arrayscope/core/resource_governor.py:1799-1808 | A residual keeps all its influence at the median and half of it exactly one width away. |
| `RobustFit.WidthFollowsSpread` | arrayscope/core/resource_governor.py:1799-1804 | The width is a little over three and a half times the median distance from the median residual, and never below that of half a millisecond of scatter. |
| `RobustFit.SeedResists` | arrayscope/core/resource_governor.py:1710-1745 | While most samples lie on an admissible line, and seen from each of them most of those that differ from it in size, the seed is that line however far off the others are. |
| `RobustFit.FitIsOptimal` | arrayscope/core/resource_governor.py:1706-1814 | A fit exists exactly when two samples differ in size. It is the solve of the weights of the estimate that enters the last round, the twelfth or the first in which neither term moves by more than a millionth; with at most eight samples those weights clear their guard, and then no admissible line has a smaller residual under them if and only if the other guards are harmless. |
| `RobustFit.EightSamplesWeighEnough` | arrayscope/core/resource_governor.py:1793-1814 | In every round of at most eight samples the weights clear their guard, however the samples lie. |
| `RobustFit.NearSamplesAreWellPosed` | arrayscope/core/resource_governor.py:1793-1814 | In a round of at most eight samples of whole sizes no guard bites while two samples of different sizes lie within 200000 widths of the median residual. |
| `RobustFit.FourMinutesAreNear` | arrayscope/core/resource_governor.py:1793-1814 | Residuals within 238.5 seconds of their median always lie that near. |
| `RobustFit.ExactDataIsRecovered` | arrayscope/core/resource_governor.py:1706-1814 | Samples lying exactly on an admissible line give back that line, in any order. |
| `RobustFit.EightSamplesAreWellPosed` | arrayscope/core/resource_governor.py:1722-1724 | With at most eight samples of whole sizes, two of them different, no guard bites on the recency weights alone, which are the weights of a round whose residuals vanish. |
| `FitOfSamples.SeedIsModest` | arrayscope/core/resource_governor.py:1724-1745 | The seed of callbacks of one item or more has both terms between zero and the longest time. |
| `FitOfSamples.EveryLineIsModest` | arrayscope/core/resource_governor.py:1747-1814 | So has every estimate of every round, however many. |
| `FitOfSamples.ModestSamplesFitOptimally` | arrayscope/core/resource_governor.py:1706-1814 | A condition on the samples alone: at most eight of them, whole sizes from 1 to S and not all equal, times from 0 to T milliseconds, and T * (S + 2) at most 238500. Every round is then well posed, and no admissible line has a smaller residual than the fitted one under the weights of the last round. |
| `FitOfOutliers.FitLosesTheOptimum` | arrayscope/core/resource_governor.py:1706-1814 | A fit that does lose it: sizes 2, 2, 1, 1, 1 and times of 1000, 3000, 2000, 2000, 2000 seconds settle in one round on a line of larger residual than the admissible unconstrained line its guard drops. |
| `RegionRead.TakeStep` | arrayscope/core/array_source.py:458-473 | Gathering along the result axis of an unrestricted item restricts exactly that item of outer indexing. |
| `RegionRead.DropStep` | arrayscope/core/array_source.py:441-458 | Indexing by an integer drops exactly its axis, negative indices wrapped. |
| `RegionRead.PointMeans` | arrayscope/core/array_source.py:441-458 | An index is accepted from minus the size up to the size and stands for the position equal to it modulo the size. |
| `RegionRead.ListMeans` | arrayscope/core/array_source.py:441-458 | A list is accepted exactly if every entry is, and stands for its entries in their order. |
| `RegionRead.ReadIndexSpec` | arrayscope/core/array_source.py:441-473 | Basic indexing first and then one gather per list equals outer indexing of the whole specification, for any rank; errors exactly for a wrong length or an item that does not fit. |
| `RegionRead.ReadingOrdersAgree` | arrayscope/core/array_source.py:441-473 | Left-to-right single-axis selection equals outer indexing for every fitting specification. |
| `RegionRead.RegionOfDifference` | arrayscope/core/array_source.py:333-339 | A region of A minus B is the difference of the two regions. |
| `RegionRead.ReadRegion` | arrayscope/core/array_source.py:333-339 | Reading a region of any nesting of differences and scalings is that region of the whole derived array, with the same errors. |
| `RegionRead.Materialize` | arrayscope/core/array_source.py:421-431 | Reading everything is refused exactly when the expanded array exceeds the byte budget, and otherwise gives the whole array. |
| `Polyline.SplitIsInterior` | arrayscope/core/roi.py:431-448 | The farthest point at a split is strictly inside, so the recursion ends. |
| `Polyline.FarMeansBeyond` | arrayscope/core/roi.py:431-443 | A point is far exactly if no point of the line through the ends is within the tolerance. |
| `Polyline.RdpIsFaithful` | arrayscope/core/roi.py:431-448 | The result keeps both ends, is a subsequence, every dropped point is within tolerance of the line through the kept points around it, and every other kept point was beyond tolerance of the line through two kept ones on either side. |
| `Polyline.SplitIsStable` | arrayscope/core/roi.py:431-448 | In a result that keeps the split point, that point is again the first farthest. |
| `Polyline.RdpIsIdempotent` | arrayscope/core/roi.py:431-448 | Simplifying twice is simplifying once. |
| `Polyline.SimplifyIsFaithful` | arrayscope/core/roi.py:150-157 | The same at the entry point, for every tolerance; a non-positive tolerance keeps all points. |
| `Raster.PolygonMask` | arrayscope/core/roi.py:160-178 | The edge-by-edge toggling loops set exactly the pixels of the even-odd rule on the closed outline. |
| `Raster.InsideIsCycleParity` | arrayscope/core/roi.py:141-178 | Inside depends only on the vertex cycle: closing an outline twice, or not at all, changes nothing, and degenerate outlines are empty. |
| `Raster.RotationInvariant` | arrayscope/core/roi.py:141-178 | Starting the outline at another vertex fills the same pixels. |
| `Raster.NothingOutsideTheBox` | arrayscope/core/roi.py:160-178 | A filled pixel lies in every box around the vertices, its right and lower edge excluded. |
| `Raster.RectangleAsOutline` | arrayscope/core/roi.py:238-249 | A rectangle drawn as an outline fills exactly the pixels of the rectangle mask that its low edges do not cut off. |
| `Raster.MeetsOnTheLine` | arrayscope/core/roi.py:171-177 | The meeting point of an edge with the height of a pixel lies on the line through its ends. |
| `Raster.CrossesBySide` | arrayscope/core/roi.py:171-177 | An edge is crossed exactly where it straddles the height of the pixel with the pixel on the side it turns to. |
| `RasterSides.TriangleFillsItsInside` | arrayscope/core/roi.py:160-178 | A pixel off the lines of a triangle is filled if and only if it lies on the same side of all three edges. |
| `RasterSides.OutlineFillsOddTriangles` | arrayscope/core/roi.py:160-178 | A pixel is filled by any outline, crossing itself or not, if and only if it lies inside an odd number of the triangles its first vertex spans with its edges, the lines of those apart. |
| `RoiStats.FiniteSplits` | arrayscope/core/roi.py:83-91 | Finite samples of concatenated chunks, complex ones by magnitude, are the concatenated finite samples. |
| `RoiStats.SumsSplit` | arrayscope/core/roi.py:97-98 | Sums and sums of squares add up over chunks. |
| `RoiStats.ExtremesMean` | arrayscope/core/roi.py:93-96 | Minimum and maximum are samples, and no sample lies beyond them. |
| `RoiStats.ExtremesSplit` | arrayscope/core/roi.py:93-96 | Minimum and maximum combine over chunks. |
| `RoiStats.RoiStatsAccumulator.constructor` | arrayscope/core/roi.py:73-81 | A new accumulator holds the statistics of no samples. |
| `RoiStats.RoiStatsAccumulator.AddValues` | arrayscope/core/roi.py:83-104 | After any chunking of real and complex samples the fields are the statistics of all samples, and the samples themselves are held exactly while their finite count is within the limit. |
| `RoiStats.SquaresArePartSquares` | arrayscope/core/roi.py:89-98 | Going through magnitudes, the sum of squares is the sum over all real samples and all parts of complex ones. |
| `RoiStats.SquareOfSum` | arrayscope/core/roi.py:97-98 | The square of the sum is at most the count times the sum of squares. |
| `RoiStats.VarianceIsNotNegative` | arrayscope/core/roi.py:121-122 | The unclamped variance is never negative. |
| `RenderPassBank.BeginKeeps` | arrayscope/core/resource_governor.py:1103-1209 | Beginning a pass keeps the bank invariant and makes its context the active one. |
| `RenderPassBank.DecideKeeps` | arrayscope/core/resource_governor.py:813-935 | Deciding a begun pass kind keeps the bank invariant and the contexts. |
| `RenderPassBank.PoolIsLocal` | arrayscope/core/resource_governor.py:848-861 | Every model pooled into a fit was measured on the structure of that fit. |
| `RenderPassBank.DecideWithoutBegin` | arrayscope/core/resource_governor.py:813-817 | For a kind never begun the bounds survive exactly when the default context is already held or there is room for it. |
| `RenderPassBank.EightTargetsThenPreview` | arrayscope/core/resource_governor.py:813-817 | A run that exceeds the bounds: any eight structures begun as targets, then a preview decided that was never begun. |
| `RenderPassBank.RunKeeps` | arrayscope/core/resource_governor.py:1103-1209 | The invariant survives every run that begins each kind before deciding it. |
| `RenderPassBank.EveryRunIsBounded` | arrayscope/core/resource_governor.py:1103-1209 | From the initial state: at most eight structures, eight groups each, eight samples each; active contexts stay resident; every seed, reference and local model belongs to a held group, every last model to a held structure; no model crosses structures. |
| `RenderPassRounds.DecideObserves` | arrayscope/core/resource_governor.py:835-845 | A usable observation goes to the end of its group, the oldest making room beyond eight; without one, and for every other group, the samples stay. |
| `RenderPassRounds.BeginSamples` | arrayscope/core/resource_governor.py:1155-1201 | A new token empties the group begun and leaves the samples of every other group still held. |
| `RenderPassRounds.EveryGroupHoldsItsRound` | arrayscope/core/resource_governor.py:1178-1201 | Over every run that begins each kind before deciding it, the samples of every group held are the newest usable observations of its current round, eight at most. |
| `RenderPassRounds.StructureMakesRoom` | arrayscope/core/resource_governor.py:1124-1154 | Structures stay while there are fewer than eight; then the oldest that no pass kind is working on leaves. |
| `RenderPassRounds.GroupMakesRoom` | arrayscope/core/resource_governor.py:1155-1177 | So it is with the groups of a structure. |
| `RenderPassRounds.DecisionRemembers` | arrayscope/core/resource_governor.py:923-932 | A fit is remembered as its group own if it has its terms and was measured on two sizes; the last model of structure and kind is then that fit too, or the reference of the group where it has one. |
| `RenderPassRounds.NewRoundInherits` | arrayscope/core/resource_governor.py:1184-1195 | Under a new token a group inherits the last model of its structure and kind as its seed, and its own last model as its reference exactly if that is to be trusted. |
| `RenderPassRounds.EveryReferenceIsTrustworthy` | arrayscope/core/resource_governor.py:1633-1660 | Over every such run every reference has four samples of three shapes, little scatter and a wide span of cohorts. |
| `RenderPassRounds.PooledExactly` | arrayscope/core/resource_governor.py:848-861 | A fit is given exactly the last models of its structure and the fit of each of its groups with two samples or more. |
| `RenderPassBank.Governor.EnterStructureInPlace` | arrayscope/core/resource_governor.py:1124-1153 | Making room by evicting the oldest inactive structure, with its models, in place. |
| `RenderPassBank.Governor.EnterGroupInPlace` | arrayscope/core/resource_governor.py:1155-1177 | Making room by evicting the oldest inactive group, with its models, in place. |
| `RenderPassBank.Governor.StartRoundInPlace` | arrayscope/core/resource_governor.py:1178-1201 | A round under a new token carries the models of its group. |
| `RenderPassBank.Governor.BeginRenderPass` | arrayscope/core/resource_governor.py:1103-1209 | The in-place begin computes the specified next state and keeps the invariant. |
| `RenderPassBank.Governor.DecideRenderPass` | arrayscope/core/resource_governor.py:813-935 | The in-place bank updates of a decision compute the specified next state and keep the invariant for begun kinds. |
| `LatencyPrice.KneesAreApart` | arrayscope/core/resource_governor.py:1907-1911 | The knee is the one asked for from zero on, the steep point from one millisecond past the knee on. |
| `LatencyPrice.PriceIsTwoHinges` | arrayscope/core/resource_governor.py:1907-1920 | The three branches are one formula: a gentle square beyond the knee plus a strong square beyond the steep point. |
| `LatencyPrice.PriceIsSmoothAndConvex` | arrayscope/core/resource_governor.py:1889-1920 | The price lies above each of its tangents and at most half the squared step above them: convex, continuous, one slope at both knees. |
| `LatencyPrice.PriceGrows` | arrayscope/core/resource_governor.py:1889-1920 | The price is non-negative and nondecreasing in elapsed time. |
| `LatencyPrice.LowerKneesCostMore` | arrayscope/core/resource_governor.py:1889-1920 | Moving either knee down never lowers the price of the same milliseconds. |
| `LatencyPrice.ExtraCostsMoreLater` | arrayscope/core/resource_governor.py:2097-2118 | The same extra milliseconds cost no less on top of longer work. |
| `LatencyPrice.FramePrice` | arrayscope/core/resource_governor.py:1923-1954 | Frame knees exist exactly when the frame holds twice the fixed cost; the cheapest chunk then never pays the steep branch. |
| `LatencyPrice.PriceIsResponsive` | arrayscope/core/resource_governor.py:2078-2079 | The price with its knees fixed grows and steepens, whatever the knees. |
| `LatencyPrice.SurchargeGrows` | arrayscope/core/resource_governor.py:2097-2118 | The enclosing-callback surcharge is non-negative, nondecreasing in chunk time and in the enclosing time, and a longer enclosing callback adds more for a longer chunk. |
| `CohortChoice.Select` | arrayscope/core/resource_governor.py:2165-2200 | The pass over the candidates returns the unique least by objective, then chunk time, then larger size. |
| `CohortChoice.BestIsUnique` | arrayscope/core/resource_governor.py:2195-2200 | The selected candidate does not depend on the order of the candidates. |
| `CohortChoice.EnclosingNeverLengthens` | arrayscope/core/resource_governor.py:2097-2200 | Over fixed candidates a longer enclosing callback never selects a chunk of larger predicted time. |
| `CohortChoice.KneesOfAPass` | arrayscope/core/resource_governor.py:2068-2076 | A pass that owes a frame it can pay twice its fixed cost within has its steep point at the frame or at its cheapest chunk, its knee at half of that; every other has the usual knees. |
| `CohortChoice.ChunksCover` | arrayscope/core/resource_governor.py:2166-2167 | The chunk count covers the remaining items and one chunk fewer does not. |
| `CohortChoice.EvenSplit` | arrayscope/core/resource_governor.py:2158-2163 | Spreading as many chunks evenly takes no more items a chunk and exactly as many chunks. |
| `CohortChoice.EvenSplitsSuffice` | arrayscope/core/resource_governor.py:2158-2200 | No size beats the even split into as many chunks, so trying chunk counts loses nothing. |
| `CohortChoice.FindRoot` | arrayscope/core/resource_governor.py:2134-2153 | The bisection ends at an end the relaxed objective slopes away from, or in the middle of a bracket of a slope sign change whose width is the range halved 56 times. |
| `CohortChoice.CandidatesAreLegal` | arrayscope/core/resource_governor.py:2154-2163 | Every candidate is at least one and at most what remains or the largest observed size. |
| `CohortChoice.OptimalPoint` | arrayscope/core/resource_governor.py:2027-2200 | The search returns the best candidate around its root, with its predicted time and latency cost. |
| `CohortChoice.SelectedIsNearlyOptimal` | arrayscope/core/resource_governor.py:2154-2200 | No size within three and a half of the root, or whose chunk count is within seven and a half of what the root would take, beats the selected size, nor do one item, everything, or the largest size observed. |
| `CohortRun.ObjectiveIsTheBill` | arrayscope/core/resource_governor.py:2165-2200 | The objective is what the pass costs chunk by chunk, each chunk its time and the price of its callback, the first one that of the whole callback it ends, and once the price of stepping beyond the evidence. |
| `CohortRun.RelaxedIsBelow` | arrayscope/core/resource_governor.py:2120-2132 | Counting chunks as a real number never adds to the objective, and changes nothing exactly where the size divides what remains. |
| `CohortRun.BestMeans` | arrayscope/core/resource_governor.py:2195-2200 | The selected size has the least objective, of those the shortest chunk, of those the most items. |
| `CohortRun.OneChunkIsSelected` | arrayscope/core/resource_governor.py:2027-2200 | When only time counts and a chunk has a fixed cost, the size selected takes the pass in one chunk. |
| `RelaxedObjective.RelaxedInParts` | arrayscope/core/resource_governor.py:2120-2132 | The relaxed objective is a fill term, hinges shared out over the size, hinges of the enclosing callback and the price beyond the evidence. |
| `RelaxedObjective.OverIsConvex` | arrayscope/core/resource_governor.py:2120-2132 | The square of the positive part of a line, divided by the size, is convex in the size. |
| `RelaxedObjective.RiseIsConvex` | arrayscope/core/resource_governor.py:2097-2118 | What a fixed stretch adds to such a square is convex in the size. |
| `RelaxedObjective.RelaxedIsConvex` | arrayscope/core/resource_governor.py:2043-2044 | For a non-negative fixed cost and a convex price beyond the evidence the relaxed objective lies under its chords, whatever the marginal cost, the residual, the weights, the knees and the enclosing callback. |
| `RelaxedObjective.KneeIsNearTheLeast` | arrayscope/core/resource_governor.py:2134-2153 | The knee found by the search lies in a stretch, no longer than the last bracket of the bisection and one step of the slope at each end, in which every size is matched or beaten. |
| `LaneWorkers.DemandIsBounded` | arrayscope/core/resource_governor.py:593-667 | Demand lies between the reported bounds and is zero exactly when the lane is parked. |
| `LaneWorkers.DemandIsTheMostAllowed` | arrayscope/core/resource_governor.py:597-667 | Without a backlog the demand of a lane that is not parked is the greatest number of workers every cap of the load allows. |
| `LaneWorkers.BacklogTakesOneOff` | arrayscope/core/resource_governor.py:613-655 | A backlog counts from beyond four and beyond twice the workers the lane would have without it; it then takes one of those off in place of tile-result pressure, and low headroom caps what is left. |
| `LaneWorkers.WhoWaits` | arrayscope/core/resource_governor.py:627-655 | A lane is asked for nothing exactly if it prefetches while the user interacts or looks on, inspects during any of that or the stage, or makes histograms during rendering that does not wait for them. |
| `LaneWorkers.DampingIsFair` | arrayscope/core/resource_governor.py:1399-1429 | The damped target is zero exactly for zero demand, follows the first demand at once, and otherwise moves at most one step, towards the demand, only an interval after the last move. |
| `LaneWorkers.ConstantDemand` | arrayscope/core/resource_governor.py:1399-1429 | Under constant positive demand the target after k spaced decisions is exactly k steps along the way, or there. |
| `LaneWorkers.ConstantDemandIsMet` | arrayscope/core/resource_governor.py:1399-1429 | The demand is met exactly from spaced decision number ceil(distance / step) on. |
| `LaneWorkers.PaceIsBounded` | arrayscope/core/resource_governor.py:1399-1429 | Under any positive demands the target moves at most one step for every interval its clock advances. |
| `LaneWorkers.DecisionIsInBounds` | arrayscope/core/resource_governor.py:656-667 | With a step of at least one, a decision from a target within the maximum lies in the bounds it reports, stores no more than the maximum, and on the damped path is zero exactly for a parked lane. |
| `LaneWorkers.EveryDecisionIsInBounds` | arrayscope/core/resource_governor.py:395-408 | With a step of at least one, over every run of decisions and policy updates every decision reported lies in its bounds. |
| `LaneWorkers.BoundsHoldExactlyIf` | arrayscope/core/resource_governor.py:1399-1429 | From any state within bounds every run stays within bounds if and only if the worker step is at least one. |
| `LaneWorkers.RunPaceIsBounded` | arrayscope/core/resource_governor.py:1399-1429 | Over every run of decisions and policy updates, on a clock that does not go back, the stored target of a lane travels at most one step for every interval its clock advances, apart from policy updates, parking, unparking and first decisions. |
| `LaneWorkers.LowHeadroomShedsOneByOne` | arrayscope/core/resource_governor.py:648-655 | Under sustained low headroom a lane sheds exactly one worker an interval until one is left, whatever its step. |
| `LaneGovernor.LaneGovernor.constructor` | arrayscope/core/resource_governor.py:379-386 | New lanes start at the workers of their policy, undecided. |
| `LaneGovernor.LaneGovernor.DampedLaneTarget` | arrayscope/core/resource_governor.py:1399-1429 | The in-place damping computes the specified target and remembers it for that lane only. |
| `LaneGovernor.LaneGovernor.DecideLaneWorkers` | arrayscope/core/resource_governor.py:593-667 | The in-place decision computes the specified one for any worker step, within its bounds for a step of at least one, and touches no other lane. |
| `LaneGovernor.LaneGovernor.UpdatePolicy` | arrayscope/core/resource_governor.py:395-408 | The loop over the lanes caps every stored target by the new policy and lifts it to one. |
| `LatencyFeedback.ScaledFacts` | arrayscope/core/latency_feedback.py:68-74 | The scaled target falls as the average rises and is at most the target once the average reaches it. |
| `LatencyFeedback.BudgetShrinks` | arrayscope/core/latency_feedback.py:68-74 | Budgets stay within their bounds and never grow with cost. |
| `LatencyFeedback.BatchShrinks` | arrayscope/core/latency_feedback.py:76-82 | Batch limits stay between one and the profile limit and never grow with item cost. |
| `LatencyFeedback.ObserveMovesAverages` | arrayscope/core/latency_feedback.py:49-66 | An observation moves the averages of time and of time per item a quarter of the way to it, and that per byte where bytes were moved. |
| `LatencyFeedback.ConstantCostIsApproached` | arrayscope/core/latency_feedback.py:49-66 | Under a constant cost the distance of the average shrinks to three quarters with every observation. |
| `LatencyFeedback.BudgetBalances` | arrayscope/core/latency_feedback.py:68-74 | The product of budget and average is the square of the target, within two and twelve milliseconds. |
| `LatencyFeedback.BatchIsTheMostThatFit` | arrayscope/core/latency_feedback.py:76-82 | A batch is the most items that fit the target at the average cost of one, at least one and at most the limit of the profile. |
| `SpikeFilter.IsolatedSpikeIsAbsorbed` | arrayscope/core/resource_governor.py:1328-1359 | An isolated spike of any size leaves the average at most the larger of itself and the control budget; a second in a row is accepted as it is. |
| `SpikeFilter.SpikeMeans` | arrayscope/core/resource_governor.py:1333-1350 | A spike is more than three times the average and more than twice the work budget, the idle target, and for an upload the warning threshold on top of that. |
| `SpikeFilter.FilterFeeds` | arrayscope/core/resource_governor.py:1328-1359 | Whatever is no spike is fed as it is and ends a row of spikes; for the first of a row the average or what the channel may take is fed, for every later one itself. |
| `SpikeFilter.SpikeKeepsLevel` | arrayscope/core/resource_governor.py:1328-1359 | On a channel that counts, an isolated spike does not even change the channel level, in any profile. |
| `SpikeFilter.IsolatedSpikeLeavesPressure` | arrayscope/core/resource_governor.py:1371-1385 | In every profile and on every channel an isolated spike leaves the computed pressure exactly as it was. |
| `SpikeFilter.CalmRunsStayBelowHigh` | arrayscope/core/resource_governor.py:425-476 | A run of isolated spikes of any size and of work under twice the idle target never brings the computed pressure to high. |
| `StoredPressure.PressureGovernor.constructor` | arrayscope/core/resource_governor.py:317-325 | A new governor stores the normal level and no averages. |
| `StoredPressure.PressureGovernor.ComputePressure` | arrayscope/core/resource_governor.py:1371-1385 | The scan with its early return computes the worst level of the channels that count. |
| `StoredPressure.PressureGovernor.RecordUiObservation` | arrayscope/core/resource_governor.py:425-476 | Recording filters, averages, and stores the pressure of the new averages. |
| `StoredPressure.PressureGovernor.ObserveLatency` | arrayscope/core/resource_governor.py:528-545 | A raw timing moves an average past the filter and leaves the stored pressure as it is. |
| `StoredPressure.PressureGovernor.UpdateTelemetry` | arrayscope/core/resource_governor.py:418-422 | New telemetry stores the pressure of the averages as they are. |
| `StoredPressure.PressureGovernor.UpdateProfile` | arrayscope/core/resource_governor.py:395-402 | A profile change leaves the stored pressure as it is. |
| `StoredPressure.PressureGovernor.ResetChannel` | arrayscope/core/resource_governor.py:1206 | Beginning a render pass under a new token drops the averages of its channel and leaves the stored pressure as it is. |
| `StoredPressure.UpToDateExactlyIf` | arrayscope/core/resource_governor.py:1361-1385 | After any run of recordings, raw timings, telemetry, profile changes and channel resets the stored level is that of the averages and profile of now if and only if they are on the same side of the two thresholds as when it was last computed. |
| `StoredPressure.OutdatedByChannelExactlyIf` | arrayscope/core/resource_governor.py:528-545 | A raw timing or a reset puts an up-to-date stored level out of date if and only if its channel rises above that level, or falls below it having been the only channel there. |
| `StoredPressure.OutdatedByProfileExactlyIf` | arrayscope/core/resource_governor.py:395-402 | A profile change does so if and only if the loudest counted average lies between what one of the two thresholds was and what it becomes. |
| `StoredPressure.ProfileChangesAlone` | arrayscope/core/resource_governor.py:395-402 | If only profile changes came since, the averages are those it was computed from, and it is up to date whenever the idle target is the same again. |
| `StoredPressure.SpikeMovesStoredExactlyIf` | arrayscope/core/resource_governor.py:1361-1369 | After any such run, recording an isolated spike moves the stored level if and only if averages or target have crossed a threshold since it was last computed. |
| `StoredPressure.SpikeAfterProfileChange` | arrayscope/core/resource_governor.py:395-409 | A run in which it does: 15 ms recorded under the aggressive profile stores elevated, the change to the conservative one stores nothing, and the isolated spike after it stores high. |
| `WindowLevels.RelativeKeepsPosition` | arrayscope/core/window_levels.py:109-128 | Relative levels keep their fractional position and their order. |
| `WindowLevels.PositionDetermines` | arrayscope/core/window_levels.py:109-128 | A position inside one range determines the levels. |
| `WindowLevels.RelativeComposesAndInverts` | arrayscope/core/window_levels.py:109-128 | Two relative steps are one, and stepping back restores the levels. |
| `WindowLevels.RelativeStep` | arrayscope/core/window_levels.py:254-424 | One automatic relative decision from an unlocked well-formed state keeps the position, the order and the absence of a lock. |
| `WindowLevels.RelativeRunKeepsPosition` | arrayscope/core/window_levels.py:254-424 | So does every run of them. |
| `WindowLevels.PathsAgree` | arrayscope/core/window_levels.py:254-424 | Two runs from one state that end on one histogram range end on identical levels. |
| `WindowLevels.ImmatureSuccessorsMoveNothing` | arrayscope/core/window_levels.py:259-336 | Once a candidate of a new key arrives over a committed predecessor, no sequence of immature candidates moves display levels or histogram range. |
| `WindowLevels.MatureReleasesTheHold` | arrayscope/core/window_levels.py:358-424 | In relative mode the first mature candidate moves the histogram range to its own in one step if and only if its key differs, its quality is higher, or nothing would shrink. |
| `WindowLevels.HoldCanOutliveCompleteEvidence` | arrayscope/core/window_levels.py:358-424 | A complete target-quality candidate can leave the hold in place: same key, equal quality, narrower range. |
| `WindowLevels.AbsoluteNeverMoves` | arrayscope/core/window_levels.py:339-356 | In absolute mode no automatic decision moves the display levels. |
| `WindowLevels.LockedAfterRunExactlyIf` | arrayscope/core/window_levels.py:254-424 | After any run of automatic decisions, about any keys and in any modes, the state is locked if and only if some lock, the first or one a candidate brought, met only inputs that keep it, which keys, ranks and maturity alone decide; the display levels are then the ones it came with. |
| `WindowLevels.LockSurvivesExactlyIf` | arrayscope/core/window_levels.py:259-336 | A lock survives evidence about its own key, in every mode, if and only if no immature candidate arrives while the highest rank so far is that of a committed predecessor. |
| `WindowLevels.LockSurvives` | arrayscope/core/window_levels.py:289-304 | A lock above the rank of a committed predecessor, a user lock in particular, survives all evidence about its own key, with its display levels. |
| `WindowLevels.LockCanBeLost` | arrayscope/core/window_levels.py:259-336 | A user lock carried in absolute mode to a new key by mature evidence of a committed predecessor is dropped by immature evidence of that key. |
| `WindowLevels.NormalizeWidens` | arrayscope/core/window_levels.py:81-97 | Levels are widened only where they are not increasing, then about their low end by a hundredth of it or by a half. |
| `WindowLevels.SourceIsTakenOver` | arrayscope/core/window_levels.py:131-166 | A source gives its levels, range, key, rank and counts as they are; levels the user set bring their own mode, and a lock outside relative mode. |
| `WindowLevels.WithheldLeavesThePicture` | arrayscope/core/window_levels.py:466-500 | Evidence that is withheld leaves levels and range alone and is remembered all the same. |
| `WindowLevels.NewKeyTakesOver` | arrayscope/core/window_levels.py:259-336 | Evidence of another key that is not withheld takes the state over, in absolute mode without the levels and the lock, in relative mode with the levels at their place in the range. |
| `WindowLevels.OwnEvidenceAdds` | arrayscope/core/window_levels.py:289-424 | More evidence of the same key forgets nothing: counts, rank and quality only grow, the range becomes that of complete evidence or the hull, and the levels move in relative mode only. |
| `WindowLevels.UserLevelsAreShown` | arrayscope/core/window_levels.py:188-232 | Levels the user sets are shown whatever the evidence says, lock in absolute mode and no other, and the range told with them hides no evidence. |
| `WindowLevels.ExplicitAutoReleases` | arrayscope/core/window_levels.py:234-256 | An explicit request for automatic levels releases every lock, overrides levels set at the same time, and shows the evidence unless that is withheld. |
| `WindowLevels.ShownIsLastSet` | arrayscope/core/window_levels.py:169-424 | In absolute mode, until automatic levels are asked for, what is shown is what the user set last, whatever evidence of whatever keys arrives in between. |
| `ViewState.MadeIsCanonical` | arrayscope/core/view_state.py:67-146 | Whatever construction accepts is valid and in its one spelling. |
| `ViewState.MakeAcceptsExactlyIf` | arrayscope/core/view_state.py:66-147 | Construction accepts a view exactly if its shape is one, the axes it names exist and differ where they must, its lists have an entry for every axis, and everything it shows exists. |
| `ViewState.OneSpelling` | arrayscope/core/view_state.py:87-145 | Views that show the same hold the same: equal pixels under equal identities. |
| `ViewState.MakeIsIdentity` | arrayscope/core/view_state.py:67-146 | Constructing a valid canonical view changes nothing. |
| `ViewState.CanonicalizeKeepsMeaning` | arrayscope/core/view_state.py:88-146 | Respelling a selection changes nothing that any axis or the montage shows. |
| `ViewMigration.FillFacts` | arrayscope/core/view_state.py:303-312 | The filling loop keeps what was chosen, adds only candidates, repeats none, and stops short only when candidates run out. |
| `ViewMigration.ImageAxesChoice` | arrayscope/core/view_state.py:303-316 | Two distinct axes are always chosen; both are worth looking at where two are, and earlier choices still worth looking at come first. |
| `ViewMigration.ImageAxesOfThinShape` | arrayscope/core/view_state.py:303-316 | With at most one extended axis the choice depends on the shape alone. |
| `ViewMigration.ImageAxesSettle` | arrayscope/core/view_state.py:303-316 | The chosen image axes are chosen again if and only if the view was not one without image axes over a lone later axis. |
| `ViewMigration.LineAxisChoice` | arrayscope/core/view_state.py:313-318 | The line axis stays where it is worth looking at, else the first axis that is takes its place, or the very first where none is. |
| `ViewMigration.MontageChoice` | arrayscope/core/view_state.py:319-380 | A montage stays exactly if its axis is worth looking at, is no image axis now and has some slice left, and shows the fitting part of what was picked. |
| `ViewMigration.CanonicalizeKeepsValid` | arrayscope/core/view_state.py:393-436 | Rewriting a valid view to its one spelling keeps it valid. |
| `ViewMigration.MigrationIsValid` | arrayscope/core/view_state.py:288-380 | Migrating a valid view succeeds exactly for shapes of rank one or more with positive sizes, and gives a valid canonical view of that shape. |
| `ViewMigration.MigrationKeepsWhatFits` | arrayscope/core/view_state.py:293-363 | On every axis an index that fits is kept, one that does not moves to the end, a new axis is centred, flags are kept, and a range keeps exactly the part that fits, in order. |
| `ViewMigration.HomeExactlyIf` | arrayscope/core/view_state.py:288-380 | Migrating a view to the shape it already has leaves it alone if and only if none of its choices would be made differently. |
| `ViewMigration.MigrationSettles` | arrayscope/core/view_state.py:288-380 | Migrating again to the same shape changes nothing if and only if the first migration emptied no explicit montage selection and invented no image axes over a lone later axis. |
| `ViewMigration.EmptiedSelectionLingers` | arrayscope/core/view_state.py:325-342 | An emptied montage selection remains as an empty selection of no axis until the next migration drops it. |
| `ViewMigration.PastTheEndIsEmptied` | arrayscope/core/view_state.py:325-342 | A montage all of whose indices lie past the new extent is emptied. |
| `ViewMigration.SomeMigrationDoesNotSettle` | arrayscope/core/view_state.py:325-342 | A valid canonical view with image axes, its montage emptied by the new shape, for which migrating twice differs from migrating once. |
| `ViewMigration.FillImageAxes` | arrayscope/core/view_state.py:303-312 | The loop over candidate axes computes the filled choice. |
| `ViewMigration.MigrateRanges` | arrayscope/core/view_state.py:354-363 | The loop over axes computes the migrated ranges and texts. |
| `ViewMigration.UncheckedCopiesAreSafe` | arrayscope/core/view_state.py:174-196 | The copies that skip construction are refused exactly out of bounds and otherwise equal what construction would give. |
| `ViewMigration.UncheckedCopiesShow` | arrayscope/core/view_state.py:174-287 | They change one slice of one axis, and for a tile the montage, and nothing else. |
| `ViewRecipe.PerAxis` | arrayscope/core/view_recipe.py:60-71 | Per-axis lists come out with exactly the recorded rank, cut or padded. |
| `ViewRecipe.NamesRoundTrip` | arrayscope/core/view_recipe.py:37-57 | Channel and scale names read back as what they name. |
| `ViewRecipe.MissingIsDefault` | arrayscope/core/view_recipe.py:74-118 | What a mapping leaves out stands for real values, a linear scale and the shape it is restored at. |
| `ViewRecipe.MissingShapeIsTheBase` | arrayscope/core/view_recipe.py:74-118 | A missing or empty shape stands for the shape the view is restored at. |
| `ViewRecipe.UnknownNamesAreRefused` | arrayscope/core/view_recipe.py:74-118 | A channel or scale that has no such name is refused. |
| `ViewRecipe.AnyMappingIsSafe` | arrayscope/core/view_recipe.py:74-117 | Restoring any mapping fails or gives a valid canonical view of the requested shape. |
| `ViewRecipe.RestoreIsMigration` | arrayscope/core/view_recipe.py:37-117 | Restoring a saved view at any shape is migrating that view to the shape: saving loses nothing. |
| `ViewRecipe.SaveAndReload` | arrayscope/core/view_recipe.py:37-117 | A migrated view survives saving and reloading at its shape under exactly the condition of settling. |
| `KernelGroup.OwnBuild` | arrayscope/core/numba_runtime.py:126-135 | A step inside the locked build keeps the group and the thread in order: one completed build at most, published by readiness. |
| `KernelGroup.OthersUndisturbed` | arrayscope/core/numba_runtime.py:115-167 | No step of one thread breaks what another thread relies on. |
| `KernelGroup.StepKeeps` | arrayscope/core/numba_runtime.py:115-167 | Every step of every thread keeps the invariant. |
| `KernelGroup.EveryInterleavingIsSafe` | arrayscope/core/numba_runtime.py:115-167 | In every interleaving of any number of threads: at most one builder at a time, at most one completed build, at most one live background thread, and every answer after seeing the group ready is that build. |
| `KernelOutcomes.ReadyIsForever` | arrayscope/core/numba_runtime.py:123-135 | Once ready, the kernels never change and no build completes again. |
| `KernelOutcomes.ReadyLookupsAnswer` | arrayscope/core/numba_runtime.py:157-168 | A lookup begun after the group is ready is answered by its second step with the kernels built, whatever other threads do before and between. |
| `KernelOutcomes.EveryLookupIsAnsweredOnce` | arrayscope/core/numba_runtime.py:157-168 | A lookup ends in exactly one answer, the kernels where it saw the group ready and else the fallback; no other call answers. |
| `KernelOutcomes.NothingToWaitFor` | arrayscope/core/numba_runtime.py:115-155 | A prewarm of an unavailable group is over at its first step and of a ready group at its second, without waiting for a lock. |
| `KernelOutcomes.RunningOneIsLeft` | arrayscope/core/numba_runtime.py:137-155 | Asked for a background prewarm while the background thread runs, a thread returns with the group as it was and makes none. |
| `KernelOutcomes.EndedOneIsReplaced` | arrayscope/core/numba_runtime.py:137-155 | Where it has ended, or none was made, exactly one new background thread is made and started, and the call returns with the lock free. |
| `KernelOutcomes.RetiredIsForever` | arrayscope/core/numba_runtime.py:115-122 | A failed group with no thread past the availability test never builds again and only answers with the fallback. |
| `KernelOutcomes.CanStillSucceed` | arrayscope/core/numba_runtime.py:123-135 | One thread past the test is enough for some schedule to make the group ready. |
| `KernelOutcomes.FailureIsPermanentExactlyIf` | arrayscope/core/numba_runtime.py:115-135 | A group marked unavailable can become ready if and only if some thread had already passed the availability test. |
| `KernelOutcomes.FailureNeedNotBePermanent` | arrayscope/core/numba_runtime.py:115-135 | From a new group two threads can leave it ready and marked unavailable, contrary to the documented permanence. |
| `KernelRegistry.Registry.constructor` | arrayscope/core/numba_runtime.py:170-171 | A new registry holds no group. |
| `KernelRegistry.Registry.Register` | arrayscope/core/numba_runtime.py:174-194 | The first call for a name makes its group; later calls get that group and their builder is ignored. |
| `CacheModel.EvictionStopsAtOnce` | arrayscope/core/bounded_cache.py:133-152 | Eviction ends with both budgets met or nothing left, and every earlier stage exceeded a budget. |
| `CacheModel.EvictedAreCounted` | arrayscope/core/bounded_cache.py:138-148 | The eviction count is the number of entries evicted. |
| `CacheModel.EvictionConservesBytes` | arrayscope/core/bounded_cache.py:138-152 | Bytes are split between survivors and evicted. |
| `CacheModel.EvictionConserves` | arrayscope/core/bounded_cache.py:138-152 | Every entry either survives or is evicted, once. |
| `CacheModel.LongestRecentStretch` | arrayscope/core/bounded_cache.py:138-152 | Without a retention key the survivors are exactly the longest most-recent stretch that fits both budgets, the evicted the rest, oldest first. |
| `CacheModel.LowestPrecedes` | arrayscope/core/bounded_cache.py:143-144 | The chosen entry ranks below every other, or level with it and older. |
| `CacheModel.LowestGoFirst` | arrayscope/core/bounded_cache.py:143-146 | With a retention key every evicted entry ranks below every survivor, or level and older; entries go in that order; survivors keep theirs. |
| `CacheRuns.ApplyKeeps` | arrayscope/core/bounded_cache.py:54-152 | Every operation keeps one entry a key, an exact byte counter, and both budgets met unless nothing is resident. |
| `CacheRuns.BytesAreAccountedFor` | arrayscope/core/bounded_cache.py:83-152 | Over every run the bytes put are the bytes resident plus evicted, replaced, discarded and cleared. |
| `CacheRuns.CountersTally` | arrayscope/core/bounded_cache.py:54-152 | Over every run the counters are the counted hits, the counted and noted misses, and the evictions since they were last cleared. |
| `CacheRuns.SameRevisionSameEntries` | arrayscope/core/bounded_cache.py:42-44 | A revision seen twice means the same resident entries, whatever happened between; it never goes back. |
| `CacheRuns.RunKeepsRecency` | arrayscope/core/bounded_cache.py:54-92 | Over every run the list goes from the key used longest ago to the key used last, by the times of puts and touching reads. |
| `CacheRuns.LeastRecentlyUsedGo` | arrayscope/core/bounded_cache.py:138-142 | What the next eviction drops was last used before anything it keeps. |
| `BoundedCache.BoundedCache.constructor` | arrayscope/core/bounded_cache.py:20-44 | A new cache is empty with its budgets. |
| `BoundedCache.BoundedCache.EvictOverBudget` | arrayscope/core/bounded_cache.py:138-152 | The eviction loop leaves the specified survivors and calls the hook for each evicted entry, in order. |
| `BoundedCache.BoundedCache.Put` | arrayscope/core/bounded_cache.py:83-92 | Inserting computes the specified state and hook calls; a negative size counts as zero. |
| `BoundedCache.BoundedCache.Get` | arrayscope/core/bounded_cache.py:54-65 | Reading finds the value exactly if the key is held, moves recency and counters as asked. |
| `BoundedCache.BoundedCache.Peek` | arrayscope/core/bounded_cache.py:67-70 | Peeking changes nothing. |
| `BoundedCache.BoundedCache.Discard` | arrayscope/core/bounded_cache.py:94-101 | Discarding removes the key and gives its value exactly if it was held. |
| `BoundedCache.BoundedCache.Resize` | arrayscope/core/bounded_cache.py:113-119 | Resizing sets the given budgets and evicts to them. |
| `BoundedCache.BoundedCache.Clear` | arrayscope/core/bounded_cache.py:121-125 | Clearing empties the cache and raises the revision, without the hook. |
| `BoundedCache.BoundedCache.NoteMiss` | arrayscope/core/bounded_cache.py:79-81 | Noting a miss moves only that counter. |
| `BoundedCache.BoundedCache.ClearCounters` | arrayscope/core/bounded_cache.py:127-131 | Clearing counters leaves entries and revision. |
| `CacheRuns.UnfitIsNotHeld` | arrayscope/core/bounded_cache.py:83-152 | Whatever is evicted first, an entry that exceeds a budget alone is not held once it is put. |
| `CacheRuns.FittingIsHeld` | arrayscope/core/bounded_cache.py:83-152 | Without a retention key an entry that fits both budgets alone is held once it is put. |
| `BoundedCache.BoundedCache.WouldFit` | arrayscope/core/bounded_cache.py:109-111 | If it answers no, putting an entry of this size leaves its key unheld; if yes, and without a retention key or an entry budget below one, putting one of a size that is not negative leaves its key held. |
| `AxisInfo.OutputAxesForOperations` | arrayscope/core/axis_info.py:135-139 | The loop over the operations computes the metadata of the pipeline, stopping at the first failure. |
| `AxisInfo.Advance` | arrayscope/core/axis_info.py:286-287 | The inner loop moves the cursor to the next axis of the wanted size. |
| `AxisInfo.PairSurvivors` | arrayscope/core/axis_info.py:282-291 | The cursor loop computes the axes a greedy scan keeps. |
| `AxisInfo.GreedyStaysAhead` | arrayscope/core/axis_info.py:282-291 | Against any other way of picking axes of the output sizes in order, the greedy scan never falls behind. |
| `AxisInfo.PairsExactlySubsequences` | arrayscope/core/axis_info.py:282-293 | The scan pairs every output size if and only if the output shape is a subsequence of the input sizes. |
| `AxisInfo.SurvivorsAreInputAxes` | arrayscope/core/axis_info.py:282-293 | The axes kept are input axes unchanged, in order, of the output sizes. |
| `AxisInfo.SynthesizedSizes` | arrayscope/core/axis_info.py:251-304 | An unnamed change of rank always ends with the output sizes, and fails exactly for a size below one; without a change of rank the metadata is returned as it came. |
| `AxisInfo.SameRankKeepsOldSizes` | arrayscope/core/axis_info.py:279-280 | An unnamed operation that resizes at the same rank leaves wrong sizes in the metadata. |
| `AxisInfo.UnnamedIsTimid` | arrayscope/core/axis_info.py:251-305 | An unnamed operation keeps input axes only where their sizes are those of the output, in order for a drop in rank and leading for a rise; every other axis is a placeholder without unit or place. |
| `AxisInfo.SizesFollowShapes` | arrayscope/core/axis_info.py:142-248 | For every named operation the metadata gets the shape the operation answers and fails exactly when that shape has no samples. |
| `AxisInfo.RewrittenKeepsPlace` | arrayscope/core/axis_info.py:307-321 | Cropping, reversing and padding keep the coordinate of every surviving index, and name and unit. |
| `AxisInfo.RewrittenClaims` | arrayscope/core/axis_info.py:157-254 | A rewritten axis keeps its identity, gives up its place exactly where samples leave theirs, and its unit where they measure something else; the other axes are untouched. |
| `AxisInfo.MovedWhole` | arrayscope/core/axis_info.py:189-240 | A reduced or squeezed axis leaves and two transposed ones trade places; nothing else changes. |
| `AxisInfo.EverySampleHasASource` | arrayscope/core/axis_info.py:157-254 | Where samples are only picked, padded or reordered every output sample outside a padding comes from an input sample that exists. |
| `AxisInfo.SampleKeepsPlace` | arrayscope/core/axis_info.py:142-248 | Through one operation every sample that can be followed keeps its coordinate, and its axis its name and unit. |
| `AxisInfo.PipelineShape` | arrayscope/core/axis_info.py:135-139 | Through every pipeline of named operations the metadata succeeds with the shape of the array. |
| `AxisInfo.PipelineKeepsPlaces` | arrayscope/core/axis_info.py:135-139 | Through every pipeline every sample that can be followed keeps its coordinate, origin plus index times spacing. |
| `AxisInfo.UndoneExactly` | arrayscope/core/axis_info.py:307-321 | Reversing twice, or cropping a padding away, restores the metadata exactly. |
| `AxisInfo.DifferencesSitBetween` | arrayscope/core/axis_info.py:195-201 | Differences sit half-way between the samples they subtract. |
| `AxisInfo.ResamplingKeepsTheEnds` | arrayscope/core/axis_info.py:218-225 | Resampling keeps the first and last sample where they were. |
| `TrackedContainers.UncountedChangesNothing` | arrayscope/core/mutation_clock.py:261-297 | The dictionary operations that are not counted leave contents and order identical. |
| `TrackedContainers.CountedChangesSomething` | arrayscope/core/mutation_clock.py:261-297 | Those that are counted change the dictionary. |
| `TrackedContainers.TrackedDict.constructor` | arrayscope/core/mutation_clock.py:342-347 | Tracking copies the entries; seeding an ordered dictionary counts each. |
| `TrackedContainers.UpdateStoresExactlyIf` | arrayscope/core/mutation_clock.py:224-266 | An update of distinct keys has a counted store if and only if it changes the mapping or its order. |
| `TrackedContainers.TrackedDict.Inherited` | arrayscope/core/mutation_clock.py:224-240 | Any inherited mutator that does not store through the overriding store does exactly what the plain container does and counts once. |
| `TrackedContainers.TrackedDict.Update` | arrayscope/core/mutation_clock.py:224-266 | update and its in-place operator store the entries in turn and count once, and on an ordered mapping once more for every entry that is not the object its key holds when its turn comes. |
| `TrackedContainers.TrackedDict.SetItem` | arrayscope/core/mutation_clock.py:261-266 | A store acts like the plain one and counts exactly if the dictionary changes. |
| `TrackedContainers.TrackedDict.DelItem` | arrayscope/core/mutation_clock.py:274-277 | A deletion acts like the plain one and always counts. |
| `TrackedContainers.TrackedDict.Pop` | arrayscope/core/mutation_clock.py:279-286 | A pop acts like the plain one and counts exactly if the key was held. |
| `TrackedContainers.TrackedDict.SetDefault` | arrayscope/core/mutation_clock.py:288-292 | setdefault acts like the plain one and counts exactly if the key was missing, twice for an ordered mapping, whose base stores through the overriding store. |
| `TrackedContainers.TrackedDict.Clear` | arrayscope/core/mutation_clock.py:294-297 | Clearing counts exactly if something was held. |
| `TrackedContainers.TrackedSet.constructor` | arrayscope/core/mutation_clock.py:342-347 | Tracking copies the members. |
| `TrackedContainers.TrackedSet.Inherited` | arrayscope/core/mutation_clock.py:224-240 | Any inherited set mutator counts once and acts like the plain one. |
| `TrackedContainers.TrackedSet.Add` | arrayscope/core/mutation_clock.py:299-304 | Adding counts exactly if the set grows. |
| `TrackedContainers.TrackedSet.Discard` | arrayscope/core/mutation_clock.py:306-309 | Discarding counts exactly if the set shrinks. |
| `TrackedContainers.TrackedSet.Clear` | arrayscope/core/mutation_clock.py:294-297 | Clearing a set counts exactly if it held something. |
| `TrackedContainers.TrackedSeq.constructor` | arrayscope/core/mutation_clock.py:342-347 | Tracking copies the items, without the bound of a deque. |
| `TrackedContainers.TrackedSeq.Inherited` | arrayscope/core/mutation_clock.py:268-272 | Any inherited list or deque mutator, indexed and sliced stores included, counts once and acts like the plain one. |
| `TrackedContainers.TrackedSeq.Append` | arrayscope/core/mutation_clock.py:311-313 | Appending counts once and acts like the unbounded plain one. |
| `TrackedContainers.TrackedSeq.Clear` | arrayscope/core/mutation_clock.py:294-297 | Clearing a list counts exactly if it held something. |
| `TrackedContainers.TrackingDropsTheBound` | arrayscope/core/mutation_clock.py:342-347 | A tracked deque holds what the plain one would if and only if its bound is not reached. |
| `ClockedGraph.UncountedIsIdentity` | arrayscope/core/mutation_clock.py:261-313 | For every container operation, what is not counted leaves the container identical. |
| `ClockedGraph.EffectsAre` | arrayscope/core/mutation_clock.py:131-217 | Every operation does to its own kind of container what the plain one does, and every other kind ignores it. |
| `ClockedGraph.NothingDoneIsNotCounted` | arrayscope/core/mutation_clock.py:259-297 | What leaves the container as it is is not counted, but for deletions, updates and inherited mutators. |
| `ClockedGraph.MutateTouches` | arrayscope/core/mutation_clock.py:224-240 | An operation on a container changes that container, moves the clock of a tracked one by what it counts, and touches nothing else in the world. |
| `ClockedGraph.TrackCopies` | arrayscope/core/mutation_clock.py:342-350 | The tracked copy of a container holds what that holds without the bound of a deque; an ordered mapping counts every entry it is seeded with. |
| `ClockedGraph.TrackContainer` | arrayscope/core/mutation_clock.py:422-432 | Tracking or re-pointing a container binds it, disturbs no other object and opens no owner. |
| `ClockedGraph.TrackBinds` | arrayscope/core/mutation_clock.py:422-435 | Binding any value leaves it bound, and nothing half-bound that was not so before. |
| `ClockedGraph.AttachBinds` | arrayscope/core/mutation_clock.py:477-482 | Adopting a clock leaves everything the object holds bound to it. |
| `ClockedGraph.BindBinds` | arrayscope/core/mutation_clock.py:462-474 | The loop over the attributes leaves every listed attribute bound. |
| `ClockedGraph.AttachCompletes` | arrayscope/core/mutation_clock.py:462-482 | Without cycles of owners adopting completes at any depth above the nesting. |
| `ClockedReach.CompletesExactlyIf` | arrayscope/core/mutation_clock.py:462-482 | Adopting a clock completes within a nesting depth if and only if every chain of attributes from object to object below is shorter; with a cycle of owners it never does. |
| `ClockedReach.FollowStays` | arrayscope/core/mutation_clock.py:422-482 | Adopting a clock redirects no chain of attributes that leads to anything but a container not yet tracked. |
| `ClockedReach.AttachStaysInside` | arrayscope/core/mutation_clock.py:462-482 | Adopting a clock touches nothing outside what is reached, and no other clock. |
| `ClockedReach.AttachReaches` | arrayscope/core/mutation_clock.py:462-482 | Adopting a clock binds every tracked container and every object reached through attributes. |
| `ClockedRuns.AssignKeeps` | arrayscope/core/mutation_clock.py:406-419 | Storing a different object on an owned object strictly raises its clock and leaves everything bound; storing the held object, or storing on an object without a clock, neither moves the clock nor changes anything it watches. |
| `ClockedRuns.AssignStores` | arrayscope/core/mutation_clock.py:406-432 | A store without a clock stores the value and touches nothing else; with one it stores the value, or the tracked copy of a container not yet tracked. |
| `ClockedRuns.ChangeKeeps` | arrayscope/core/mutation_clock.py:224-313 | Every container operation either raises the clock of the container or leaves it identical. |
| `ClockedRuns.ForeignTellsExactlyIf` | arrayscope/core/mutation_clock.py:422-435 | An assignment on an object of another clock leaves everything this clock watches as it was if and only if nothing of this clock is reached from the value assigned. |
| `ClockedRuns.RunTells` | arrayscope/core/mutation_clock.py:406-482 | Over every run, with any number of owners and clocks, in which no other owner is handed something from which anything of this clock is reached, the clock never goes back, and where it has not moved nothing bound to it has changed. |
| `ClockedRuns.OneClockKeepsOff` | arrayscope/core/mutation_clock.py:406-482 | While no object counts on another clock, that holds of every run. |
| `ClockedRuns.BelowIsWatched` | arrayscope/core/mutation_clock.py:462-482 | Everything reached from an owner through attributes is bound to its clock. |
| `ClockedRuns.NoChangeIsMissed` | arrayscope/core/mutation_clock.py:406-482 | After an owner adopts a clock, if the clock reads the same after any run in which other owners are handed nothing of it, then every chain of attributes below the owner leads to the same object with the same attributes or contents. |
| `ClockedHandover.HandedOverIsMissed` | arrayscope/core/mutation_clock.py:428-432 | Once another owner is handed something from which a container below the owner is reached, the container stays below the owner and no operation on it moves the clock, whatever it does to the contents. |
| `ClockedHandover.HandedOverObjectIsMissed` | arrayscope/core/mutation_clock.py:433-435 | Nor does any later assignment on an object so reached. |
| `ClockedHandover.SharedListIsMissed` | arrayscope/core/mutation_clock.py:428-432 | A world of two owners in which it happens: the second owner is handed the list of the first, and an item appended to the list moves the clock of the second alone. |
| `ClockedRuns.DeletingIsNotCounted` | arrayscope/core/mutation_clock.py:395-419 | Deleting an attribute changes what is below an owner and moves no clock. |

## Left out

- Floating point: rounding, NaN and infinities; all arithmetic is over integers and reals. Python's limit on the digits of an integer literal is left out too.
- The exponential and logarithm of the extrapolation price, and the logarithm in the model uncertainty: the price is an arbitrary nondecreasing function, for the relaxed objective a convex one, its weight an arbitrary non-negative number.
- Global optimality of the cohort search over all sizes: the code searches a neighbourhood, and the result is stated for that neighbourhood and the ends.
- The remaining numbers of a render-pass decision (steering model, shape errors, load offsets, explanation text): only the bank state of `decide_render_pass` is modelled, with the fitted models as inputs.
- The content of fitted cost models beyond the line: the two-regressor byte term and the residual diagnostics of `_render_pass_cost_model`.
- RegionRead.ReadRegion: does not model the in-place scaling of the freshly read block, reference counting or `close`; arrays are values.
- RegionRead.Materialize: does not model the default budget taken from the environment.
- Raster.PolygonMask: does not model numpy broadcasting, only the loop over edges and the pixels each toggles.
- Polyline.SimplifyIsFaithful: distances are compared squared, so no square root is modelled.
- RoiStats.RoiStatsAccumulator.AddValues: a complex sample carries its magnitude as an input; `result` with its medians and percentiles is left out.
- The `with_*` updates of a view that go through full construction, `from_shape` on its own, and migration without preserving flags: they add no harder property.
- ViewRecipe.AnyMappingIsSafe: does not model values of a wrong type in a mapping; JSON text and files are left out.
- WindowLevels: a previous state given as a bare source is converted before the decision is modelled.
- LaneWorkers: memory and processor pressure, and the tile-result channel level, are inputs to a decision.
- LaneWorkers.RunPaceIsBounded: the clock of each lane does not go back, as a monotonic clock does not.
- LatencyFeedback: the diagnostics-only filter in front of an observation, the recent-observation rings and epochs.
- SpikeFilter.SpikeKeepsLevel: profiles are the four built in, with the default smoothing factor.
- KernelGroup: bulk selection by `wanted`, failures to start a thread, and memory order below one atomic step for each read or write of a field.
- BoundedCache: the lock itself, `peek_many`, `items`, and a hook that re-enters the cache, which the code forbids.
- CacheModel.LowestGoFirst: retention keys are integers; any finite set of totally ordered keys maps to them.
- AxisInfo: operations that state their own output metadata, relabelling of default names, and mappings accepted in place of axis values.
- ClockedGraph: what containers hold is not followed, as in the code; subclasses with behaviour of their own, copies taken before tracking, and direct writes to the attribute dictionary are left out.
- TrackedContainers.TrackedDict.Pop: for an ordered mapping, a base `pop` that deletes through the overriding deletion, as some interpreters have it, would count once more.
- ClockedReach.CompletesExactlyIf: the depth stands for the recursion limit of the interpreter.
- User interface, GPU and numba code bodies, uploads, diagnostics, memory and prefetch policies.
