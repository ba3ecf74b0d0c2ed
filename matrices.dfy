/**
 * Transform matrices of the merging pipeline and the exact identity test
 * (`isIdentity` in src/combine_grids/merging_pipeline.cpp).
 */
module Matrices {
  import opened Wrappers

  /** A 3x3 matrix of doubles, row by row: the only non-empty shape a transform slot holds. */
  type Mat3 = m: seq<seq<real>> | |m| == 3 && forall i :: 0 <= i < 3 ==> |m[i]| == 3
    witness [[1.0, 0.0, 0.0], [0.0, 1.0, 0.0], [0.0, 0.0, 1.0]]

  /** Entry (i, j) of the identity matrix. */
  function Eye(i: int, j: int): real {
    if i == j then 1.0 else 0.0
  }

  /** `cv::Mat::eye(3, 3, CV_64F)`. */
  const Identity: Mat3 := [[1.0, 0.0, 0.0], [0.0, 1.0, 0.0], [0.0, 0.0, 1.0]]

  /** The e-th entry of m in row-major order. */
  function Entry(m: Mat3, e: nat): real
    requires e < 9
  {
    m[e / 3][e % 3]
  }

  /** The e-th entry of the identity in row-major order. */
  function EyeEntry(e: nat): real
    requires e < 9
  {
    Eye(e / 3, e % 3)
  }

  /**
   * The number of entries among the first k (row-major) that differ from the identity;
   * for k == 9 this is `countNonZero(m != eye)`.
   */
  function Mismatches(m: Mat3, k: nat): (r: nat)
    requires k <= 9
    ensures r <= k
    ensures r == 0 <==> forall e :: 0 <= e < k ==> Entry(m, e) == EyeEntry(e)
  {
    if k == 0 then 0
    else Mismatches(m, k - 1) + (if Entry(m, k - 1) == EyeEntry(k - 1) then 0 else 1)
  }

  /** The row-major numbering of entries covers every (i, j) of a 3x3 matrix. */
  lemma EntryNumbering(m: Mat3)
    ensures forall i, j :: 0 <= i < 3 && 0 <= j < 3 ==>
      Entry(m, 3 * i + j) == m[i][j] && EyeEntry(3 * i + j) == Eye(i, j)
  {
  }

  /**
   * Whether a transform slot holds exactly the identity: an empty slot is never the
   * identity, and no tolerance is allowed on any of the nine entries.
   */
  predicate IsIdentity(t: Option<Mat3>): (b: bool)
    ensures b <==> t.Some? && forall i, j :: 0 <= i < 3 && 0 <= j < 3 ==> t.value[i][j] == Eye(i, j)
  {
    match t
    case None => false
    case Some(m) => EntryNumbering(m); Mismatches(m, 9) == 0
  }

  /** The canonical identity passes the test; a matrix off by any amount in one entry does not. */
  lemma IdentityIsExact(m: Mat3, i: nat, j: nat)
    requires i < 3 && j < 3
    requires m[i][j] != Eye(i, j)
    ensures IsIdentity(Some(Identity))
    ensures !IsIdentity(Some(m))
  {
  }
}
