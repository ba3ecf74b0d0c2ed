/**
 * The conversion of `MergingPipeline::getTransforms`: a transform slot becomes a translation
 * and a quaternion whose rotation is confined to the plane.
 */
module PoseCodec {
  import opened Wrappers
  import opened Matrices

  datatype Vector3 = Vector3(x: real, y: real, z: real)

  datatype Quaternion = Quaternion(x: real, y: real, z: real, w: real)

  /** A `geometry_msgs::Transform`. */
  datatype RosTransform = RosTransform(translation: Vector3, rotation: Quaternion)

  /** A default-constructed `geometry_msgs::Transform`: every component is zero. */
  const DefaultTransform: RosTransform :=
    RosTransform(Vector3(0.0, 0.0, 0.0), Quaternion(0.0, 0.0, 0.0, 0.0))

  /** `sqrt` returns the non-negative square root of every non-negative argument. */
  ghost predicate IsSquareRoot(sqrt: real -> real) {
    forall x :: 0.0 <= x ==> 0.0 <= sqrt(x) && sqrt(x) * sqrt(x) == x
  }

  function Abs(x: real): real {
    if x < 0.0 then -x else x
  }

  /** `std::copysign` on reals: the magnitude of the first argument with the sign of the second. */
  function CopySign(magnitude: real, sign: real): (r: real)
    ensures Abs(r) == Abs(magnitude)
    ensures sign < 0.0 ==> r <= 0.0
    ensures sign >= 0.0 ==> r >= 0.0
  {
    if sign < 0.0 then -Abs(magnitude) else Abs(magnitude)
  }

  /**
   * The portable form of one transform slot. An empty slot gives the all-zero default;
   * otherwise the translation is the last column's first two entries and the rotation is
   * the half-angle quaternion of the top-left planar rotation (a, b) = (T[0][0], T[1][0]).
   * `sqrt` stands for `std::sqrt`; the radicands are not clamped.
   */
  function ToRosTransform(t: Option<Mat3>, sqrt: real -> real): (r: RosTransform)
    ensures t.None? ==> r == DefaultTransform
    ensures t.Some? ==> r.translation == Vector3(t.value[0][2], t.value[1][2], 0.0)
    ensures t.Some? ==> r.rotation.x == 0.0 && r.rotation.y == 0.0
  {
    match t
    case None => DefaultTransform
    case Some(m) =>
      var a, b := m[0][0], m[1][0];
      RosTransform(Vector3(m[0][2], m[1][2], 0.0),
                   Quaternion(0.0, 0.0, CopySign(sqrt(2.0 - 2.0 * a) * 0.5, b), sqrt(2.0 + 2.0 * a) * 0.5))
  }

  /** The conversion of a whole slot list, one result per slot and in the same order. */
  function ToRosTransforms(ts: seq<Option<Mat3>>, sqrt: real -> real): (r: seq<RosTransform>)
    ensures |r| == |ts|
    ensures forall i :: 0 <= i < |ts| ==> r[i] == ToRosTransform(ts[i], sqrt)
  {
    if ts == [] then [] else [ToRosTransform(ts[0], sqrt)] + ToRosTransforms(ts[1..], sqrt)
  }

  /** The squared norm of a quaternion. */
  function Norm2(q: Quaternion): real {
    q.x * q.x + q.y * q.y + q.z * q.z + q.w * q.w
  }

  /** Entry (0, 0) of the rotation matrix a unit quaternion stands for. */
  function RotationCos(q: Quaternion): real {
    1.0 - 2.0 * (q.y * q.y + q.z * q.z)
  }

  /** Entry (1, 0) of the rotation matrix a unit quaternion stands for. */
  function RotationSin(q: Quaternion): real {
    2.0 * (q.x * q.y + q.w * q.z)
  }

  /** The squares of the two quaternion components that the conversion fills. */
  lemma HalfAngleSquares(m: Mat3, sqrt: real -> real)
    requires IsSquareRoot(sqrt)
    requires -1.0 <= m[0][0] <= 1.0
    ensures var q := ToRosTransform(Some(m), sqrt).rotation;
      q.w >= 0.0 && q.w * q.w == (2.0 + 2.0 * m[0][0]) / 4.0 && q.z * q.z == (2.0 - 2.0 * m[0][0]) / 4.0
  {
    var a, b := m[0][0], m[1][0];
    var s1, s2 := sqrt(2.0 + 2.0 * a), sqrt(2.0 - 2.0 * a);
    assert s1 >= 0.0 && s1 * s1 == 2.0 + 2.0 * a;
    assert s2 >= 0.0 && s2 * s2 == 2.0 - 2.0 * a;
    var z := CopySign(s2 * 0.5, b);
    assert z * z == Abs(z) * Abs(z);
    assert Abs(z) == s2 * 0.5;
    assert (s2 * 0.5) * (s2 * 0.5) == (s2 * s2) / 4.0;
    assert (s1 * 0.5) * (s1 * 0.5) == (s1 * s1) / 4.0;
  }

  /**
   * For a in [-1, 1] the quaternion is a unit quaternion about the z axis, w is non-negative,
   * and z takes the sign of b, zero counting as positive.
   */
  lemma PlanarQuaternionIsUnit(m: Mat3, sqrt: real -> real)
    requires IsSquareRoot(sqrt)
    requires -1.0 <= m[0][0] <= 1.0
    ensures var q := ToRosTransform(Some(m), sqrt).rotation;
      Norm2(q) == 1.0 && q.w >= 0.0 &&
      (m[1][0] < 0.0 ==> q.z <= 0.0) && (m[1][0] >= 0.0 ==> q.z >= 0.0)
  {
    HalfAngleSquares(m, sqrt);
  }

  /** p * p == b * b with p and b of the same sign means p == b. */
  lemma SameSignSquares(p: real, b: real)
    requires p * p == b * b
    requires (p >= 0.0 && b >= 0.0) || (p <= 0.0 && b <= 0.0)
    ensures p == b
  {
    assert (p - b) * (p + b) == 0.0;
    ZeroProduct(p - b, p + b);
  }

  /** A product of reals is zero only when a factor is. */
  lemma ZeroProduct(x: real, y: real)
    requires x * y == 0.0
    ensures x == 0.0 || y == 0.0
  {
    if x != 0.0 {
      assert y == (x * y) / x;
    }
  }

  /**
   * Round trip: when (a, b) = (T[0][0], T[1][0]) is a planar rotation (a² + b² = 1), the
   * rotation matrix of the produced quaternion has exactly a and b in its first column.
   */
  lemma PlanarRotationRecovered(m: Mat3, sqrt: real -> real)
    requires IsSquareRoot(sqrt)
    requires m[0][0] * m[0][0] + m[1][0] * m[1][0] == 1.0
    ensures var q := ToRosTransform(Some(m), sqrt).rotation;
      RotationCos(q) == m[0][0] && RotationSin(q) == m[1][0]
  {
    var a, b := m[0][0], m[1][0];
    assert -1.0 <= a <= 1.0;
    HalfAngleSquares(m, sqrt);
    PlanarQuaternionIsUnit(m, sqrt);
    var q := ToRosTransform(Some(m), sqrt).rotation;
    var p := 2.0 * (q.w * q.z);
    assert p * p == 4.0 * (q.w * q.w) * (q.z * q.z);
    assert p * p == 4.0 * ((2.0 + 2.0 * a) / 4.0) * ((2.0 - 2.0 * a) / 4.0);
    assert p * p == b * b;
    if b < 0.0 {
      assert p <= 0.0;
    } else {
      assert p >= 0.0;
    }
    SameSignSquares(p, b);
  }

  /** The only non-negative square root of s * s is s. */
  lemma RootOfSquare(sqrt: real -> real, s: real)
    requires IsSquareRoot(sqrt) && s >= 0.0
    ensures sqrt(s * s) == s
  {
    SameSignSquares(sqrt(s * s), s);
  }

  /**
   * The conversion on three rotations: the identity (a = 1, b = 0) gives w = 1, z = 0; a half
   * turn with b = 0 gives w = 0, z = 1, zero counting as positive; a quarter turn (a = 0,
   * b = 1) gives w = z with w² = 1/2.
   */
  lemma RotationExamples(m: Mat3, sqrt: real -> real)
    requires IsSquareRoot(sqrt)
    ensures var q := ToRosTransform(Some(m), sqrt).rotation;
      m[0][0] == 1.0 && m[1][0] == 0.0 ==> q.w == 1.0 && q.z == 0.0
    ensures var q := ToRosTransform(Some(m), sqrt).rotation;
      m[0][0] == -1.0 && m[1][0] == 0.0 ==> q.w == 0.0 && q.z == 1.0
    ensures var q := ToRosTransform(Some(m), sqrt).rotation;
      m[0][0] == 0.0 && m[1][0] == 1.0 ==> q.w > 0.0 && q.w == q.z && q.w * q.w == 0.5
  {
    RootOfSquare(sqrt, 2.0);
    RootOfSquare(sqrt, 0.0);
    assert 2.0 * 2.0 == 4.0 && 0.0 * 0.0 == 0.0;
    if m[0][0] == 0.0 && m[1][0] == 1.0 {
      HalfAngleSquares(m, sqrt);
      var s := sqrt(2.0);
      assert s * s == 2.0;
      assert s > 0.0;
    }
  }
}
