# Map merging pipeline: a Dafny model

This project models the deterministic bookkeeping of `combine_grids::MergingPipeline`
(`src/combine_grids/merging_pipeline.cpp`). The pipeline merges the occupancy grids of several
robots into one grid. It holds three index-aligned lists: the input images, one transform slot
per image, and the input grids. The vision work (feature finding, matching, the biggest
connected component, global estimation, bundle adjustment, warping and compositing) is done by
OpenCV and by helper classes. Around those calls the pipeline:

- manages the transform slots in `estimateTransforms`: an early exit on empty input, the
  single-member fallback that makes the first non-empty image the reference frame, the scatter
  of the refined transforms back to their input indices, and the failure exits that leave
  the slots untouched;
- tests a slot for being exactly the identity matrix (`isIdentity`);
- in `composeGrids`, selects the inputs to warp, returns null when nothing can be composed,
  chooses the output resolution (the first exact identity wins; otherwise the last non-null
  grid scanned), computes the origin from `transforms_[0]` and the first warped rectangle,
  and clears a 6x6 window around each robot to free space, in place;
- converts each slot to a translation plus a planar quaternion (`getTransforms`).

Modules:

- `Wrappers`: `Option`, used for empty matrices and null grid pointers.
- `Matrices`: the 3x3 transform type and `IsIdentity`. `IsIdentity` counts the mismatching
  entries, as `countNonZero(m != eye)` does.
- `Inputs`: images (only their emptiness matters), input grid metadata, rectangles, and the
  results of the warper and the compositor.
- `Estimation`: the slot lists that `estimateTransforms` produces.
- `Composition`: the warped indices, the reference-frame scan and the output resolution.
- `OccupancyGrids`: the merged grid as a class over an `array<int>`, and the masking loops.
- `PoseCodec`: the conversion to `geometry_msgs::Transform`.
- `CombineGrids`: the class `MergingPipeline`. Its fields are `images`, `transforms` and
  `grids`. Its methods update or read them.

The collaborators are passed in as values:

- The stitching results: `goodIndices`, two success flags, and the refined transforms.
- `GridWarper::warp` and `GridCompositor::compose`: total functions.
- `std::sqrt`: a function parameter. The lemmas about it assume only that it returns the
  non-negative square root of a non-negative argument.
- The robots' positions: already in integer pixels.

Doubles and floats are modelled as reals.

## Model

| member | source | states |
|---|---|---|
| `Matrices.Mismatches` | src/combine_grids/merging_pipeline.cpp:157-158 | the count of entries that differ from the identity is zero exactly when every counted entry equals the identity's |
| `Matrices.IsIdentity` | src/combine_grids/merging_pipeline.cpp:152-159 | an empty slot is never the identity; a matrix is the identity exactly when all nine entries equal the identity's, with no tolerance |
| `Matrices.IdentityIsExact` | src/combine_grids/merging_pipeline.cpp:151-159 | `eye(3,3)` passes the test; a matrix off in any single entry, by any amount, fails it |
| `Estimation.FirstNonEmpty` | src/combine_grids/merging_pipeline.cpp:105-111 | the scan finds the smallest index with a non-empty image, or none exactly when every image is empty |
| `Estimation.EmptySlots` | src/combine_grids/merging_pipeline.cpp:103-104 | `clear()` then `resize(n)` gives n empty slots |
| `Estimation.FallbackShape` | src/combine_grids/merging_pipeline.cpp:102-113 | after the fallback there is one slot per image; a slot is filled exactly when its image is the first non-empty one, and that slot is the exact identity; with all images empty every slot is empty |
| `Estimation.Scattered` | src/combine_grids/merging_pipeline.cpp:134-144 | the scatter produces one slot per image |
| `Estimation.ScatteredPrefix` | src/combine_grids/merging_pipeline.cpp:139-144 | after k writes, slot good[l] holds the l-th refined transform for l < k, and a slot none of them names is empty |
| `Estimation.ScatteredShape` | src/combine_grids/merging_pipeline.cpp:134-144 | with distinct in-range component indices, slot good[k] holds the k-th refined transform and every index outside the component is empty |
| `CombineGrids.MergingPipeline.EstimateTransforms` | src/combine_grids/merging_pipeline.cpp:50-149 | no images: true, slots unchanged; single-member component: true, slots are the fallback; estimator or adjuster failure: false, slots unchanged; otherwise true, slots are the scatter; on success with images, one slot per image |
| `Composition.WarpIndices` | src/combine_grids/merging_pipeline.cpp:178-185 | the warped indices are exactly those with both a transform and a non-empty image, each once, in increasing order |
| `Composition.NothingWarped` | src/combine_grids/merging_pipeline.cpp:187-190 | nothing is warped exactly when no index has both a transform and a non-empty image |
| `Composition.FirstFragmentIsIndexZero` | src/combine_grids/merging_pipeline.cpp:220-221 | when index 0 is warped, the first rectangle (the one the origin uses) is index 0's |
| `Composition.FirstFragmentFromLaterIndex` | src/combine_grids/merging_pipeline.cpp:218-224 | when index 0 has a transform but an empty image, the first rectangle (`rois[0]`) comes from a later warped index i' with 0 < i' ≤ i |
| `CombineGrids.MergingPipeline.WarpFragments` | src/combine_grids/merging_pipeline.cpp:173-185 | the warped images and rectangles are the warper's results for exactly the warpable indices, in increasing index order |
| `Composition.FirstIdentityFrom` | src/combine_grids/merging_pipeline.cpp:201-206 | the scan finds the first index whose slot is exactly the identity, or none when no slot is |
| `Composition.FirstIdentityUnique` | src/combine_grids/merging_pipeline.cpp:201-206 | index i is the reference frame exactly when its slot is the identity and no earlier slot is |
| `Composition.ScanEnd` | src/combine_grids/merging_pipeline.cpp:201-206 | the scan stops within the list |
| `Composition.LastGridResolutionIsLast` | src/combine_grids/merging_pipeline.cpp:207-209 | `any_resolution` after n grids is the resolution of the last non-null grid among them |
| `Composition.LastGridResolution` | src/combine_grids/merging_pipeline.cpp:200-209 | `any_resolution` stays 0 when every grid scanned is null |
| `Composition.ScanStop` | src/combine_grids/merging_pipeline.cpp:200-213 | a scan stopping at `stop` yields the resolution chosen there, replaced by the last non-null grid's resolution before `stop` when it is not positive |
| `Composition.ReferenceResolutionWins` | src/combine_grids/merging_pipeline.cpp:203-205 | the first exact identity whose grid has a positive resolution sets the output resolution |
| `Composition.ReferenceResolutionUnusable` | src/combine_grids/merging_pipeline.cpp:200-213 | a reference frame whose grid resolution is not positive yields the resolution of the last non-null grid strictly before it |
| `Composition.NoReferenceTakesLastGrid` | src/combine_grids/merging_pipeline.cpp:207-213 | with no exact identity and a non-positive compositor resolution, the output takes the last non-null grid's resolution |
| `Composition.ResolutionExamples` | src/combine_grids/merging_pipeline.cpp:200-213 | [identity, T1] with resolutions [0.05, 0.1] gives 0.05; two non-identities give 0.1 |
| `CombineGrids.MergingPipeline.ReconcileResolution` | src/combine_grids/merging_pipeline.cpp:200-213 | the loop with its `break` computes the reconciled resolution |
| `OccupancyGrids.OccupancyGrid.constructor` | src/combine_grids/merging_pipeline.cpp:193-195 | the merged grid takes the compositor's size, resolution and cells, with a fresh data array |
| `OccupancyGrids.CellIndex` | src/combine_grids/merging_pipeline.cpp:253-256 | every cell that passes the bounds test has an index inside `data`, and that index maps back to the cell's column and row |
| `OccupancyGrids.CoveredByRobot` | src/combine_grids/merging_pipeline.cpp:230-260 | a cell is cleared exactly when it lies in some robot's window and passes the bounds test |
| `OccupancyGrids.CoveredCells` | src/combine_grids/merging_pipeline.cpp:249-259 | a cleared cell has 0 < col < width and 0 < row < height, and lies in [px-3, px+2] x [py-3, py+2] for some robot |
| `OccupancyGrids.ClearRobotFootprints` | src/combine_grids/merging_pipeline.cpp:249-259 | in place: the cells in the robots' footprints become 0 and every other cell keeps its value |
| `CombineGrids.MergingPipeline.ComposeGrids` | src/combine_grids/merging_pipeline.cpp:161-260 | null exactly when there are no images or nothing is warpable; otherwise a fresh grid of the compositor's size with the reconciled resolution, the origin `(-T0[0][2] - rois[0].x) * grids_[0].resolution` (likewise for y), and the compositor's cells with the robots' footprints cleared |
| `PoseCodec.CopySign` | src/combine_grids/merging_pipeline.cpp:342 | the result has the magnitude of the first argument and the sign of the second, zero counting as positive |
| `PoseCodec.ToRosTransform` | src/combine_grids/merging_pipeline.cpp:324-344 | an empty slot gives the all-zero default; otherwise the translation is `(T[0][2], T[1][2], 0)` and x = y = 0 |
| `PoseCodec.ToRosTransforms` | src/combine_grids/merging_pipeline.cpp:321-347 | one result per slot, index-aligned with the slots |
| `CombineGrids.MergingPipeline.GetTransforms` | src/combine_grids/merging_pipeline.cpp:319-348 | the list has the same length as `transforms_`, and entry i is slot i's conversion |
| `PoseCodec.HalfAngleSquares` | src/combine_grids/merging_pipeline.cpp:337-342 | for a in [-1, 1], w ≥ 0, w² = (2+2a)/4 and z² = (2-2a)/4 |
| `PoseCodec.PlanarQuaternionIsUnit` | src/combine_grids/merging_pipeline.cpp:336-342 | for a in [-1, 1], w² + z² = 1 with x = y = 0, w ≥ 0, and z has the sign of b |
| `PoseCodec.PlanarRotationRecovered` | src/combine_grids/merging_pipeline.cpp:336-342 | round trip: when a² + b² = 1, the quaternion's rotation matrix has a and b in its first column |
| `PoseCodec.RotationExamples` | src/combine_grids/merging_pipeline.cpp:337-342 | (a, b) = (1, 0) gives w = 1, z = 0; (-1, 0) gives w = 0, z = 1; (0, 1) gives w = z > 0 with w² = 1/2 |

## Left out

- Feature finding, pairwise matching, `leaveBiggestComponent`, `AffineBasedEstimator` and
  `BundleAdjusterAffinePartial` are OpenCV calls. `EstimateTransforms` takes their results as
  parameters. The component indices are assumed distinct and in range, as
  `leaveBiggestComponent` returns them. The refined transforms number one per component member.
- The float32 round trip of the transforms around bundle adjustment, and the conversion back
  to doubles, are floating-point precision effects and are not modelled.
- The internals of `GridWarper::warp` and `GridCompositor::compose` are not part of this model.
  They are total function parameters, and the compositor is assumed to return one cell per
  pixel.
- The tf lookup of each robot (`waitForTransform`, `transformPose`) is blocking I/O.
  `ComposeGrids` takes each robot's pixel position as input. When the lookup throws, the source
  only logs it and still masks around the pixel of a default pose. In the model that is
  simply the pixel the caller passes.
- The robots are the three fixed frames `/tb3_0` to `/tb3_2` in the source. The model accepts
  any list of robots.
- The world-to-pixel conversion is not modelled. It is a floating-point division by the
  resolution, which may be 0, followed by `int(...)` truncation.
- ToRosTransform: its contract does not give w and z. The lemmas state them, assuming
  `sqrt` is a true square root and, for the unit norm, that a is in [-1, 1]. Outside that
  range `std::sqrt` returns NaN, and NaN is not modelled. Neither is the `-0.0` that makes
  `copysign` return a negative z.
- ComposeGrids: the requires `ComposeDefined` asks for three things whenever something is
  warped: `transforms_[0]` is non-empty, `grids_[0]` is non-null, and the grid of the first
  exact identity is non-null. The source dereferences all three without checking, which is
  undefined behaviour otherwise. The source does reach that state: a single-member fallback
  with image 0 empty and image 1 non-empty leaves slot 0 empty and warps index 1, and line 218
  tests `transforms_.empty()` rather than `transforms_[0].empty()` before reading slot 0.
- Integer widths are not modelled. A robot pixel near the 32-bit limits overflows when the
  offset is added. The unsigned arithmetic of `row * width + col` is taken as exact. Signed
  and unsigned comparisons are written as the equivalent mathematical bounds test.
- Logging (`ROS_DEBUG`, `std::cout`, `writeDebugMatchingInfo`) and the commented-out origin
  re-centring and tf broadcaster code are not modelled.
- The other fields of `nav_msgs::OccupancyGrid` (header, orientation, map load time) are not
  modelled.

## Behaviour of the source worth knowing

The model follows the C++ code in each of these points:

- The masking bounds test is strict at the lower end (`> 0`), so row 0 and column 0 are never
  cleared. The window covers offsets -3 to +2, so it is not centred on the robot.
- A failed pose lookup does not skip the robot: the code logs the exception and masks around
  the pixel of a default-constructed pose.
- The pixel position is computed with `int(...)`, which truncates toward zero.
- The square-root radicands are not clamped, so `std::sqrt` sees a negative argument when
  |a| > 1.
- The fallback resolution is that of the last non-null *grid* scanned before the reference
  frame, whether or not that grid has a transform.
- The origin is computed whenever something is warped. It reads `transforms_[0]` even when
  that slot is empty, which is undefined behaviour. It uses `rois[0]` even when that rectangle
  belongs to a later index.
- On empty input `EstimateTransforms` leaves stale slots in place, so `|transforms|` can
  differ from `|images|` afterwards.
