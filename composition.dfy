/**
 * The selection logic of `MergingPipeline::composeGrids`: which inputs are warped, which
 * warped rectangle comes first, and which grid gives the output its resolution.
 */
module Composition {
  import opened Wrappers
  import opened Matrices
  import opened Inputs

  /** Index i is warped: it has both a transform and a non-empty image. */
  predicate Warpable(images: seq<GridImage>, transforms: seq<Option<Mat3>>, i: nat)
    requires i < |images| && i < |transforms|
  {
    transforms[i].Some? && !images[i].IsEmpty()
  }

  /**
   * The indices below n that are warped, in the order the warping loop visits them.
   * They are exactly the warpable indices, each once, in increasing order.
   */
  function WarpIndices(images: seq<GridImage>, transforms: seq<Option<Mat3>>, n: nat): (r: seq<nat>)
    requires n <= |images| && n <= |transforms|
    ensures forall k :: 0 <= k < |r| ==> r[k] < n && Warpable(images, transforms, r[k])
    ensures forall k, l :: 0 <= k < l < |r| ==> r[k] < r[l]
    ensures forall i :: 0 <= i < n && Warpable(images, transforms, i) ==> i in r
  {
    if n == 0 then []
    else WarpIndices(images, transforms, n - 1) + (if Warpable(images, transforms, n - 1) then [n - 1] else [])
  }

  /** Nothing is warped exactly when no index has both a transform and a non-empty image. */
  lemma NothingWarped(images: seq<GridImage>, transforms: seq<Option<Mat3>>)
    requires |images| == |transforms|
    ensures WarpIndices(images, transforms, |images|) == [] <==>
      forall i :: 0 <= i < |images| ==> !Warpable(images, transforms, i)
  {
    var r := WarpIndices(images, transforms, |images|);
    if r != [] {
      assert Warpable(images, transforms, r[0]);
    }
  }

  /** When index 0 is warped, the first warped fragment (the one the origin uses) is index 0's. */
  lemma FirstFragmentIsIndexZero(images: seq<GridImage>, transforms: seq<Option<Mat3>>)
    requires |images| == |transforms| > 0
    requires Warpable(images, transforms, 0)
    ensures |WarpIndices(images, transforms, |images|)| > 0
    ensures WarpIndices(images, transforms, |images|)[0] == 0
  {
  }

  /**
   * The origin anchors on transforms[0] but on the first warped rectangle: when index 0 has a
   * transform and an empty image, that rectangle belongs to a later index.
   */
  lemma FirstFragmentFromLaterIndex(images: seq<GridImage>, transforms: seq<Option<Mat3>>, i: nat)
    requires |images| == |transforms| && 0 < i < |images|
    requires transforms[0].Some? && images[0].IsEmpty()
    requires Warpable(images, transforms, i)
    ensures |WarpIndices(images, transforms, |images|)| > 0
    ensures 0 < WarpIndices(images, transforms, |images|)[0] <= i
  {
    var idx := WarpIndices(images, transforms, |images|);
    assert i in idx;
  }

  /** The warped images, one per warped index, in that order. */
  function WarpedImages(images: seq<GridImage>, transforms: seq<Option<Mat3>>,
                        warp: (GridImage, Mat3) -> Warped, idx: seq<nat>): seq<GridImage>
    requires |images| == |transforms|
    requires forall k :: 0 <= k < |idx| ==> idx[k] < |images| && transforms[idx[k]].Some?
  {
    seq(|idx|, k requires 0 <= k < |idx| => warp(images[idx[k]], transforms[idx[k]].value).image)
  }

  /** The bounding rectangles of the warped images, one per warped index, in that order. */
  function WarpedRects(images: seq<GridImage>, transforms: seq<Option<Mat3>>,
                       warp: (GridImage, Mat3) -> Warped, idx: seq<nat>): seq<Rect>
    requires |images| == |transforms|
    requires forall k :: 0 <= k < |idx| ==> idx[k] < |images| && transforms[idx[k]].Some?
  {
    seq(|idx|, k requires 0 <= k < |idx| => warp(images[idx[k]], transforms[idx[k]].value).roi)
  }

  /** The grid the compositor builds from all warped fragments. */
  function ComposedGrid(images: seq<GridImage>, transforms: seq<Option<Mat3>>,
                        warp: (GridImage, Mat3) -> Warped,
                        compose: (seq<GridImage>, seq<Rect>) -> Composed): Composed
    requires |images| == |transforms|
  {
    var idx := WarpIndices(images, transforms, |images|);
    compose(WarpedImages(images, transforms, warp, idx), WarpedRects(images, transforms, warp, idx))
  }

  /** The first input whose transform is exactly the identity: the reference frame. */
  function FirstIdentityFrom(transforms: seq<Option<Mat3>>, i: nat): (r: Option<nat>)
    requires i <= |transforms|
    ensures r.None? ==> forall j :: i <= j < |transforms| ==> !IsIdentity(transforms[j])
    ensures r.Some? ==> i <= r.value < |transforms| && IsIdentity(transforms[r.value])
    ensures r.Some? ==> forall j :: i <= j < r.value ==> !IsIdentity(transforms[j])
    decreases |transforms| - i
  {
    if i == |transforms| then None
    else if IsIdentity(transforms[i]) then Some(i)
    else FirstIdentityFrom(transforms, i + 1)
  }

  function FirstIdentity(transforms: seq<Option<Mat3>>): Option<nat> {
    FirstIdentityFrom(transforms, 0)
  }

  /** Where the resolution scan stops: at the reference frame, or past the end without one. */
  function ScanEnd(transforms: seq<Option<Mat3>>): (r: nat)
    ensures r <= |transforms|
  {
    match FirstIdentity(transforms)
    case Some(i) => i
    case None => |transforms|
  }

  /**
   * The resolution of the last non-null grid among the first n, or 0 when all of them are
   * null: `any_resolution` once the scan has passed n grids.
   */
  function LastGridResolution(grids: seq<Option<InputGrid>>, n: nat): (r: real)
    requires n <= |grids|
    ensures (forall j :: 0 <= j < n ==> grids[j].None?) ==> r == 0.0
  {
    if n == 0 then 0.0
    else if grids[n - 1].Some? then grids[n - 1].value.resolution
    else LastGridResolution(grids, n - 1)
  }

  /** When grid j is the last non-null one among the first n, its resolution is the one kept. */
  lemma {:induction false} LastGridResolutionIsLast(grids: seq<Option<InputGrid>>, n: nat, j: nat)
    requires j < n <= |grids|
    requires grids[j].Some? && forall l :: j < l < n ==> grids[l].None?
    ensures LastGridResolution(grids, n) == grids[j].value.resolution
  {
    if j < n - 1 {
      LastGridResolutionIsLast(grids, n - 1, j);
    }
  }

  /** The reference frame, if there is one, has a grid to take the resolution from. */
  predicate ReferenceHasGrid(transforms: seq<Option<Mat3>>, grids: seq<Option<InputGrid>>)
    requires |transforms| == |grids|
  {
    FirstIdentity(transforms).Some? ==> grids[FirstIdentity(transforms).value].Some?
  }

  /**
   * The output resolution: the reference frame's grid resolution, or the compositor's own
   * (`initial`) when there is no reference frame; either is replaced by `any_resolution`
   * when it is not positive.
   */
  function ReconciledResolution(initial: real, transforms: seq<Option<Mat3>>,
                                grids: seq<Option<InputGrid>>): real
    requires |transforms| == |grids|
    requires ReferenceHasGrid(transforms, grids)
  {
    var chosen := match FirstIdentity(transforms)
      case Some(i) => grids[i].value.resolution
      case None => initial;
    if chosen <= 0.0 then LastGridResolution(grids, ScanEnd(transforms)) else chosen
  }

  /**
   * The scan stops at `stop`, the first exact identity, or at the end when there is none:
   * the reconciled resolution is the one chosen there, replaced by `any_resolution` when it
   * is not positive.
   */
  lemma ScanStop(initial: real, transforms: seq<Option<Mat3>>, grids: seq<Option<InputGrid>>, stop: nat)
    requires |transforms| == |grids| && stop <= |transforms|
    requires forall j :: 0 <= j < stop ==> !IsIdentity(transforms[j])
    requires stop < |transforms| ==> IsIdentity(transforms[stop]) && grids[stop].Some?
    ensures ReferenceHasGrid(transforms, grids)
    ensures var chosen := if stop < |transforms| then grids[stop].value.resolution else initial;
      ReconciledResolution(initial, transforms, grids) ==
        if chosen <= 0.0 then LastGridResolution(grids, stop) else chosen
  {
    if stop < |transforms| {
      FirstIdentityUnique(transforms, stop);
    }
  }

  /** The first exact identity with a positive resolution decides the output resolution. */
  lemma ReferenceResolutionWins(initial: real, transforms: seq<Option<Mat3>>,
                                grids: seq<Option<InputGrid>>, i: nat)
    requires |transforms| == |grids| && i < |transforms|
    requires IsIdentity(transforms[i]) && forall j :: 0 <= j < i ==> !IsIdentity(transforms[j])
    requires grids[i].Some? && grids[i].value.resolution > 0.0
    ensures ReferenceHasGrid(transforms, grids)
    ensures ReconciledResolution(initial, transforms, grids) == grids[i].value.resolution
  {
    FirstIdentityUnique(transforms, i);
  }

  /**
   * A reference frame whose grid has no positive resolution yields the resolution of the
   * last non-null grid strictly before it (0 if there is none).
   */
  lemma ReferenceResolutionUnusable(initial: real, transforms: seq<Option<Mat3>>,
                                    grids: seq<Option<InputGrid>>, i: nat, j: nat)
    requires |transforms| == |grids| && j < i < |transforms|
    requires IsIdentity(transforms[i]) && forall l :: 0 <= l < i ==> !IsIdentity(transforms[l])
    requires grids[i].Some? && grids[i].value.resolution <= 0.0
    requires grids[j].Some? && forall l :: j < l < i ==> grids[l].None?
    ensures ReferenceHasGrid(transforms, grids)
    ensures ReconciledResolution(initial, transforms, grids) == grids[j].value.resolution
  {
    FirstIdentityUnique(transforms, i);
    LastGridResolutionIsLast(grids, i, j);
  }

  /**
   * Without any exact identity and with a non-positive compositor resolution, the output
   * takes the resolution of the last non-null grid of all.
   */
  lemma NoReferenceTakesLastGrid(initial: real, transforms: seq<Option<Mat3>>,
                                 grids: seq<Option<InputGrid>>, j: nat)
    requires |transforms| == |grids| && j < |grids|
    requires forall l :: 0 <= l < |transforms| ==> !IsIdentity(transforms[l])
    requires initial <= 0.0
    requires grids[j].Some? && forall l :: j < l < |grids| ==> grids[l].None?
    ensures ReferenceHasGrid(transforms, grids)
    ensures ReconciledResolution(initial, transforms, grids) == grids[j].value.resolution
  {
    LastGridResolutionIsLast(grids, |grids|, j);
  }

  /** The scan finds index i as the reference frame exactly when i is the first exact identity. */
  lemma FirstIdentityUnique(transforms: seq<Option<Mat3>>, i: nat)
    requires i < |transforms|
    ensures FirstIdentity(transforms) == Some(i) <==>
      IsIdentity(transforms[i]) && forall j :: 0 <= j < i ==> !IsIdentity(transforms[j])
  {
  }

  /**
   * Two example scans over grids with resolutions [0.05, 0.1] and a compositor resolution of 0:
   * with the identity first the output takes 0.05; with no identity it takes 0.1, the
   * resolution of the last grid scanned.
   */
  lemma ResolutionExamples(t0: Mat3, t1: Mat3)
    requires !IsIdentity(Some(t0)) && !IsIdentity(Some(t1))
    ensures ReferenceHasGrid([Some(Identity), Some(t1)], [Some(InputGrid(0.05)), Some(InputGrid(0.1))])
    ensures ReconciledResolution(0.0, [Some(Identity), Some(t1)], [Some(InputGrid(0.05)), Some(InputGrid(0.1))]) == 0.05
    ensures ReferenceHasGrid([Some(t0), Some(t1)], [Some(InputGrid(0.05)), Some(InputGrid(0.1))])
    ensures ReconciledResolution(0.0, [Some(t0), Some(t1)], [Some(InputGrid(0.05)), Some(InputGrid(0.1))]) == 0.1
  {
    ReferenceResolutionWins(0.0, [Some(Identity), Some(t1)], [Some(InputGrid(0.05)), Some(InputGrid(0.1))], 0);
    NoReferenceTakesLastGrid(0.0, [Some(t0), Some(t1)], [Some(InputGrid(0.05)), Some(InputGrid(0.1))], 1);
  }
}
