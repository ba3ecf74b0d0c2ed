/**
 * `combine_grids::MergingPipeline`: the index-aligned lists of input images, transforms and
 * grids, and the bookkeeping around the stitching, warping, compositing and pose lookups,
 * which are collaborators passed in as values and functions.
 */
module CombineGrids {
  import opened Wrappers
  import opened Matrices
  import opened Inputs
  import opened Estimation
  import opened Composition
  import opened OccupancyGrids
  import opened PoseCodec

  class MergingPipeline {
    /** One image per input map; an empty image stands for a map that has not arrived. */
    var images: seq<GridImage>
    /** One transform slot per input; None is the empty matrix, "unknown". */
    var transforms: seq<Option<Mat3>>
    /** One grid pointer per input; None is a null pointer. */
    var grids: seq<Option<InputGrid>>

    /**
     * Re-estimates the transforms. The feature pipeline is represented by its results:
     * `goodIndices` are the members of the biggest connected component, `estimatorOk` and
     * `adjusterOk` say whether global estimation and bundle adjustment succeeded, and
     * `refined` holds the adjusted transform of each component member.
     */
    method EstimateTransforms(goodIndices: seq<int>, estimatorOk: bool, adjusterOk: bool, refined: seq<Mat3>)
      returns (ok: bool)
      requires ComponentIndices(goodIndices, |images|)
      requires |goodIndices| != 1 ==> |refined| == |goodIndices|
      modifies this`transforms
      // no images: trivial success, the slots are left as they were
      ensures |images| == 0 ==> ok && transforms == old(transforms)
      // single-member component: reset, first non-empty image becomes the reference frame
      ensures |images| > 0 && |goodIndices| == 1 ==> ok && transforms == FallbackSlots(images)
      // estimator or adjuster failure: failure, the slots are left as they were
      ensures |images| > 0 && |goodIndices| != 1 && !(estimatorOk && adjusterOk) ==>
        !ok && transforms == old(transforms)
      // success: refined transforms scattered back to their original indices
      ensures |images| > 0 && |goodIndices| != 1 && estimatorOk && adjusterOk ==>
        ok && transforms == Scattered(|images|, goodIndices, refined, |goodIndices|)
      ensures ok && |images| > 0 ==> |transforms| == |images|
    {
      if |images| == 0 {
        return true;
      }
      if |goodIndices| == 1 {
        transforms := EmptySlots(|images|);
        var i := 0;
        while i < |images|
          invariant 0 <= i <= |images|
          invariant forall j :: 0 <= j < i ==> images[j].IsEmpty()
          invariant transforms == EmptySlots(|images|)
        {
          if !images[i].IsEmpty() {
            transforms := transforms[i := Some(Identity)];
            break;
          }
          i := i + 1;
        }
        return true;
      }
      if !estimatorOk {
        return false;
      }
      if !adjusterOk {
        return false;
      }
      transforms := EmptySlots(|images|);
      var k := 0;
      while k < |goodIndices|
        invariant 0 <= k <= |goodIndices|
        invariant transforms == Scattered(|images|, goodIndices, refined, k)
      {
        transforms := transforms[goodIndices[k] := Some(refined[k])];
        k := k + 1;
      }
      return true;
    }

    /**
     * The warping loop of `composeGrids`: every index with both a transform and a non-empty
     * image is warped, in increasing index order, and nothing else is.
     */
    method WarpFragments(warp: (GridImage, Mat3) -> Warped) returns (imgsWarped: seq<GridImage>, rois: seq<Rect>)
      requires |images| == |transforms|
      ensures imgsWarped == WarpedImages(images, transforms, warp, WarpIndices(images, transforms, |images|))
      ensures rois == WarpedRects(images, transforms, warp, WarpIndices(images, transforms, |images|))
    {
      imgsWarped, rois := [], [];
      var i := 0;
      while i < |images|
        invariant 0 <= i <= |images|
        invariant imgsWarped == WarpedImages(images, transforms, warp, WarpIndices(images, transforms, i))
        invariant rois == WarpedRects(images, transforms, warp, WarpIndices(images, transforms, i))
      {
        if transforms[i].Some? && !images[i].IsEmpty() {
          var w := warp(images[i], transforms[i].value);
          imgsWarped := imgsWarped + [w.image];
          rois := rois + [w.roi];
        }
        i := i + 1;
      }
    }

    /**
     * The resolution scan of `composeGrids`, starting from the compositor's resolution
     * `initial`: stop at the first exact identity and take its grid's resolution, keep the
     * last non-null grid's resolution seen before the stop, and fall back to it when the
     * chosen resolution is not positive.
     */
    method ReconcileResolution(initial: real) returns (res: real)
      requires |transforms| == |grids|
      requires ReferenceHasGrid(transforms, grids)
      ensures res == ReconciledResolution(initial, transforms, grids)
    {
      res := initial;
      var anyResolution := 0.0;
      var i := 0;
      while i < |transforms|
        invariant 0 <= i <= |transforms|
        invariant forall j :: 0 <= j < i ==> !IsIdentity(transforms[j])
        invariant anyResolution == LastGridResolution(grids, i)
        invariant res == initial
      {
        if IsIdentity(transforms[i]) {
          FirstIdentityUnique(transforms, i);
          res := grids[i].value.resolution;
          break;
        }
        if grids[i].Some? {
          anyResolution := grids[i].value.resolution;
        }
        i := i + 1;
      }
      ScanStop(initial, transforms, grids, i);
      if res <= 0.0 {
        res := anyResolution;
      }
    }

    /** Whether the pointers `composeGrids` dereferences once something is warped are non-null. */
    predicate ComposeDefined()
      reads this
      requires |images| == |transforms| == |grids|
    {
      WarpIndices(images, transforms, |images|) != [] ==>
        transforms[0].Some? && grids[0].Some? && ReferenceHasGrid(transforms, grids)
    }

    /**
     * Builds the merged grid, or null when there are no images or nothing can be warped.
     * `warp` and `compose` stand for `GridWarper::warp` and `GridCompositor::compose`;
     * `robots` are the robots' positions in pixels of the merged grid.
     */
    method ComposeGrids(warp: (GridImage, Mat3) -> Warped,
                        compose: (seq<GridImage>, seq<Rect>) -> Composed,
                        robots: seq<Pixel>) returns (result: OccupancyGrid?)
      requires |images| == |transforms| == |grids|
      requires ComposeDefined()
      requires forall ws, rs :: compose(ws, rs).WellSized()
      ensures result == null <==>
        |images| == 0 || WarpIndices(images, transforms, |images|) == []
      ensures result != null ==>
        var c := ComposedGrid(images, transforms, warp, compose);
        var rois := WarpedRects(images, transforms, warp, WarpIndices(images, transforms, |images|));
        fresh(result) && fresh(result.data) &&
        result.width == c.width && result.height == c.height &&
        result.resolution == ReconciledResolution(c.resolution, transforms, grids) &&
        result.originX == (-transforms[0].value[0][2] - rois[0].x as real) * grids[0].value.resolution &&
        result.originY == (-transforms[0].value[1][2] - rois[0].y as real) * grids[0].value.resolution &&
        result.data.Length == |c.data| &&
        forall idx :: 0 <= idx < result.data.Length ==>
          result.data[idx] == if Covered(robots, |robots|, c.width, c.height, idx) then Free else c.data[idx]
    {
      if |images| == 0 {
        return null;
      }
      var imgsWarped, rois := WarpFragments(warp);
      ghost var idx := WarpIndices(images, transforms, |images|);
      assert |imgsWarped| == |idx|;
      if |imgsWarped| == 0 {
        return null;
      }
      assert transforms[0].Some? && grids[0].Some? && ReferenceHasGrid(transforms, grids);
      var c := compose(imgsWarped, rois);
      assert c == ComposedGrid(images, transforms, warp, compose) && c.WellSized();
      result := new OccupancyGrid(c.width, c.height, c.resolution, c.data);
      result.resolution := ReconcileResolution(result.resolution);
      // transforms is never empty here, so the origin is always set
      var anchor := transforms[0].value;
      result.originX := (-anchor[0][2] - rois[0].x as real) * grids[0].value.resolution;
      result.originY := (-anchor[1][2] - rois[0].y as real) * grids[0].value.resolution;
      ClearRobotFootprints(result, robots);
    }

    /** The portable form of every transform slot, index-aligned with the slots. */
    function GetTransforms(sqrt: real -> real): (r: seq<RosTransform>)
      reads this
      ensures |r| == |transforms|
      ensures forall i :: 0 <= i < |transforms| ==> r[i] == ToRosTransform(transforms[i], sqrt)
    {
      ToRosTransforms(transforms, sqrt)
    }
  }
}
