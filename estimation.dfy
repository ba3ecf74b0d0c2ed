/**
 * The slot bookkeeping of `MergingPipeline::estimateTransforms`: what the transform list
 * holds after the single-member fallback and after scattering the refined transforms.
 */
module Estimation {
  import opened Wrappers
  import opened Matrices
  import opened Inputs

  /** The smallest index whose image is not empty, if there is one. */
  function FirstNonEmpty(images: seq<GridImage>): (r: Option<nat>)
    ensures r.None? <==> forall i :: 0 <= i < |images| ==> images[i].IsEmpty()
    ensures r.Some? ==> r.value < |images| && !images[r.value].IsEmpty()
    ensures r.Some? ==> forall i :: 0 <= i < r.value ==> images[i].IsEmpty()
  {
    if |images| == 0 then None
    else if !images[0].IsEmpty() then Some(0)
    else match FirstNonEmpty(images[1..])
      case None => None
      case Some(k) => Some(k + 1)
  }

  /** One empty slot per image: `clear()` followed by `resize(n)`. */
  function EmptySlots(n: nat): (r: seq<Option<Mat3>>)
    ensures |r| == n && forall i :: 0 <= i < n ==> r[i].None?
  {
    seq(n, _ => None)
  }

  /**
   * The slots after the fallback taken when the biggest component has a single member:
   * the first non-empty image becomes the reference frame, every other slot is empty.
   */
  function FallbackSlots(images: seq<GridImage>): seq<Option<Mat3>> {
    match FirstNonEmpty(images)
    case None => EmptySlots(|images|)
    case Some(i) => EmptySlots(|images|)[i := Some(Identity)]
  }

  /**
   * After the fallback there is one slot per image; a slot is filled exactly when its image
   * is the first non-empty one, and a filled slot is the exact identity. With all images
   * empty every slot is empty.
   */
  lemma FallbackShape(images: seq<GridImage>)
    ensures |FallbackSlots(images)| == |images|
    ensures forall i :: 0 <= i < |images| ==>
      (FallbackSlots(images)[i].Some? <==>
        !images[i].IsEmpty() && forall j :: 0 <= j < i ==> images[j].IsEmpty())
    ensures forall i :: 0 <= i < |images| && FallbackSlots(images)[i].Some? ==>
      FallbackSlots(images)[i] == Some(Identity) && IsIdentity(FallbackSlots(images)[i])
    ensures (forall i :: 0 <= i < |images| ==> images[i].IsEmpty()) ==>
      forall i :: 0 <= i < |images| ==> FallbackSlots(images)[i].None?
  {
  }

  /** Whether the component indices are distinct positions of a list of length n. */
  predicate ComponentIndices(good: seq<int>, n: nat) {
    (forall k :: 0 <= k < |good| ==> 0 <= good[k] < n) &&
    (forall k, l :: 0 <= k < l < |good| ==> good[k] != good[l])
  }

  /**
   * The slots after writing the first k refined transforms to their original indices,
   * starting from n empty slots.
   */
  function Scattered(n: nat, good: seq<int>, refined: seq<Mat3>, k: nat): (r: seq<Option<Mat3>>)
    requires k <= |good| == |refined|
    requires forall l :: 0 <= l < |good| ==> 0 <= good[l] < n
    ensures |r| == n
  {
    if k == 0 then EmptySlots(n)
    else Scattered(n, good, refined, k - 1)[good[k - 1] := Some(refined[k - 1])]
  }

  /**
   * After the first k writes, slot good[l] holds the l-th refined transform for every l < k,
   * and a slot that none of them names is still empty.
   */
  lemma {:induction false} ScatteredPrefix(n: nat, good: seq<int>, refined: seq<Mat3>, k: nat)
    requires k <= |good| == |refined|
    requires ComponentIndices(good, n)
    ensures forall l :: 0 <= l < k ==> Scattered(n, good, refined, k)[good[l]] == Some(refined[l])
    ensures forall i :: 0 <= i < n && (forall l :: 0 <= l < k ==> good[l] != i) ==>
      Scattered(n, good, refined, k)[i].None?
  {
    if k > 0 {
      ScatteredPrefix(n, good, refined, k - 1);
    }
  }

  /**
   * The scatter puts the k-th refined transform at the input index good[k] and leaves every
   * index outside the component empty.
   */
  lemma ScatteredShape(n: nat, good: seq<int>, refined: seq<Mat3>)
    requires |good| == |refined|
    requires ComponentIndices(good, n)
    ensures |Scattered(n, good, refined, |good|)| == n
    ensures forall k :: 0 <= k < |good| ==> Scattered(n, good, refined, |good|)[good[k]] == Some(refined[k])
    ensures forall i :: 0 <= i < n && i !in good ==> Scattered(n, good, refined, |good|)[i].None?
  {
    ScatteredPrefix(n, good, refined, |good|);
  }
}
