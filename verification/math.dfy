/**
 * The vector library of the viewer: 2-, 3- and 4-component vectors, quaternions and
 * 3x3 / 4x4 matrices. Every component is an exact `real`; the overloaded C++ functions
 * `Add`, `Sub`, `Neg`, `Mul`, `Div`, `Equals`, `ApproxEquals`, `ApproxZero` and `Dot`
 * become member functions of each vector datatype, and the C++ operators `+ - * / ==`
 * (which only forward to them) are written as calls to those members.
 */
module ScopMath {

  /** `Abs` is declared by the library; it has its usual meaning on exact reals. */
  function Abs(x: real): (r: real)
    ensures r >= 0.0
    ensures r == x || r == -x
  {
    if x < 0.0 then -x else x
  }

  /** Scalar `ApproxEquals`: the two values differ by at most `epsilon`. */
  predicate ApproxEqualsScalar(a: real, b: real, epsilon: real) {
    Abs(a - b) <= epsilon
  }

  /** Scalar `ApproxZero`: the value is at most `epsilon` away from zero. */
  predicate ApproxZeroScalar(a: real, epsilon: real) {
    Abs(a) <= epsilon
  }

  datatype Vec2 = Vec2(x: real, y: real) {
    function Add(b: Vec2): Vec2 { Vec2(x + b.x, y + b.y) }
    function Sub(b: Vec2): Vec2 { Vec2(x - b.x, y - b.y) }
    function Neg(): Vec2 { Vec2(-x, -y) }
    function Mul(k: real): Vec2 { Vec2(x * k, y * k) }
    /** Float division by zero yields infinities; on reals the divisor must be non-zero. */
    function Div(k: real): Vec2 requires k != 0.0 { Vec2(x / k, y / k) }
    predicate Equals(b: Vec2) { x == b.x && y == b.y }
    predicate ApproxEquals(b: Vec2, epsilon: real) {
      ApproxEqualsScalar(x, b.x, epsilon) && ApproxEqualsScalar(y, b.y, epsilon)
    }
    predicate ApproxZero(epsilon: real) {
      ApproxZeroScalar(x, epsilon) && ApproxZeroScalar(y, epsilon)
    }
    function Dot(b: Vec2): real { x * b.x + y * b.y }
  }

  datatype Vec3 = Vec3(x: real, y: real, z: real) {
    function Add(b: Vec3): Vec3 { Vec3(x + b.x, y + b.y, z + b.z) }
    function Sub(b: Vec3): Vec3 { Vec3(x - b.x, y - b.y, z - b.z) }
    function Neg(): Vec3 { Vec3(-x, -y, -z) }
    function Mul(k: real): Vec3 { Vec3(x * k, y * k, z * k) }
    function Div(k: real): Vec3 requires k != 0.0 { Vec3(x / k, y / k, z / k) }
    predicate Equals(b: Vec3) { x == b.x && y == b.y && z == b.z }
    predicate ApproxEquals(b: Vec3, epsilon: real) {
      ApproxEqualsScalar(x, b.x, epsilon) && ApproxEqualsScalar(y, b.y, epsilon)
      && ApproxEqualsScalar(z, b.z, epsilon)
    }
    predicate ApproxZero(epsilon: real) {
      ApproxZeroScalar(x, epsilon) && ApproxZeroScalar(y, epsilon) && ApproxZeroScalar(z, epsilon)
    }
    function Dot(b: Vec3): real { x * b.x + y * b.y + z * b.z }
    function Cross(b: Vec3): Vec3 {
      Vec3(y * b.z - z * b.y, z * b.x - x * b.z, x * b.y - y * b.x)
    }
  }

  datatype Vec4 = Vec4(x: real, y: real, z: real, w: real) {
    function Add(b: Vec4): Vec4 { Vec4(x + b.x, y + b.y, z + b.z, w + b.w) }
    function Sub(b: Vec4): Vec4 { Vec4(x - b.x, y - b.y, z - b.z, w - b.w) }
    function Neg(): Vec4 { Vec4(-x, -y, -z, -w) }
    function Mul(k: real): Vec4 { Vec4(x * k, y * k, z * k, w * k) }
    function Div(k: real): Vec4 requires k != 0.0 { Vec4(x / k, y / k, z / k, w / k) }
    predicate Equals(b: Vec4) { x == b.x && y == b.y && z == b.z && w == b.w }
    predicate ApproxEquals(b: Vec4, epsilon: real) {
      ApproxEqualsScalar(x, b.x, epsilon) && ApproxEqualsScalar(y, b.y, epsilon)
      && ApproxEqualsScalar(z, b.z, epsilon) && ApproxEqualsScalar(w, b.w, epsilon)
    }
    predicate ApproxZero(epsilon: real) {
      ApproxZeroScalar(x, epsilon) && ApproxZeroScalar(y, epsilon)
      && ApproxZeroScalar(z, epsilon) && ApproxZeroScalar(w, epsilon)
    }
    function Dot(b: Vec4): real { x * b.x + y * b.y + z * b.z + w * b.w }
  }

  datatype Quat = Quat(x: real, y: real, z: real, w: real) {
    function Add(b: Quat): Quat { Quat(x + b.x, y + b.y, z + b.z, w + b.w) }
    function Sub(b: Quat): Quat { Quat(x - b.x, y - b.y, z - b.z, w - b.w) }
    function Neg(): Quat { Quat(-x, -y, -z, -w) }
    function Mul(k: real): Quat { Quat(x * k, y * k, z * k, w * k) }
    function Div(k: real): Quat requires k != 0.0 { Quat(x / k, y / k, z / k, w / k) }
    predicate Equals(b: Quat) { x == b.x && y == b.y && z == b.z && w == b.w }
    predicate ApproxEquals(b: Quat, epsilon: real) {
      ApproxEqualsScalar(x, b.x, epsilon) && ApproxEqualsScalar(y, b.y, epsilon)
      && ApproxEqualsScalar(z, b.z, epsilon) && ApproxEqualsScalar(w, b.w, epsilon)
    }
    predicate ApproxZero(epsilon: real) {
      ApproxZeroScalar(x, epsilon) && ApproxZeroScalar(y, epsilon)
      && ApproxZeroScalar(z, epsilon) && ApproxZeroScalar(w, epsilon)
    }
    function Dot(b: Quat): real { x * b.x + y * b.y + z * b.z + w * b.w }
  }

  /** Row-major 3x3 matrix, one field per entry as in the library. */
  datatype Mat3 = Mat3(
    r0c0: real, r0c1: real, r0c2: real,
    r1c0: real, r1c1: real, r1c2: real,
    r2c0: real, r2c1: real, r2c2: real)

  /** Row-major 4x4 matrix. */
  datatype Mat4 = Mat4(
    r0c0: real, r0c1: real, r0c2: real, r0c3: real,
    r1c0: real, r1c1: real, r1c2: real, r1c3: real,
    r2c0: real, r2c1: real, r2c2: real, r2c3: real,
    r3c0: real, r3c1: real, r3c2: real, r3c3: real)

  // The values of default-constructed structs (their member initialisers).
  const DefaultVec2: Vec2 := Vec2(0.0, 0.0)
  const DefaultVec3: Vec3 := Vec3(0.0, 0.0, 0.0)
  const DefaultVec4: Vec4 := Vec4(0.0, 0.0, 0.0, 0.0)
  const DefaultQuat: Quat := Quat(0.0, 0.0, 0.0, 1.0)
  const DefaultMat3: Mat3 := Mat3(1.0, 0.0, 0.0, 0.0, 1.0, 0.0, 0.0, 0.0, 1.0)
  const DefaultMat4: Mat4 := Mat4(1.0, 0.0, 0.0, 0.0, 0.0, 1.0, 0.0, 0.0,
                                  0.0, 0.0, 1.0, 0.0, 0.0, 0.0, 0.0, 1.0)

  // Reference definitions used only to state what "identity" means for the defaults.

  /** Hamilton product of two quaternions (x, y, z the vector part, w the scalar part). */
  ghost function QuatProduct(a: Quat, b: Quat): Quat {
    Quat(a.w * b.x + a.x * b.w + a.y * b.z - a.z * b.y,
         a.w * b.y - a.x * b.z + a.y * b.w + a.z * b.x,
         a.w * b.z + a.x * b.y - a.y * b.x + a.z * b.w,
         a.w * b.w - a.x * b.x - a.y * b.y - a.z * b.z)
  }

  /** Matrix times column vector. */
  ghost function Mat3Apply(m: Mat3, v: Vec3): Vec3 {
    Vec3(m.r0c0 * v.x + m.r0c1 * v.y + m.r0c2 * v.z,
         m.r1c0 * v.x + m.r1c1 * v.y + m.r1c2 * v.z,
         m.r2c0 * v.x + m.r2c1 * v.y + m.r2c2 * v.z)
  }

  ghost function Mat4Apply(m: Mat4, v: Vec4): Vec4 {
    Vec4(m.r0c0 * v.x + m.r0c1 * v.y + m.r0c2 * v.z + m.r0c3 * v.w,
         m.r1c0 * v.x + m.r1c1 * v.y + m.r1c2 * v.z + m.r1c3 * v.w,
         m.r2c0 * v.x + m.r2c1 * v.y + m.r2c2 * v.z + m.r2c3 * v.w,
         m.r3c0 * v.x + m.r3c1 * v.y + m.r3c2 * v.z + m.r3c3 * v.w)
  }

  // ---------------------------------------------------------------------------
  // Defaults

  /** Default-constructed vectors are the zero vectors: adding them changes nothing. */
  lemma DefaultVectorsAreZero(a: Vec2, b: Vec3, c: Vec4)
    ensures a.Add(DefaultVec2) == a && DefaultVec2.Dot(a) == 0.0
    ensures b.Add(DefaultVec3) == b && DefaultVec3.Dot(b) == 0.0
    ensures c.Add(DefaultVec4) == c && DefaultVec4.Dot(c) == 0.0
  {
  }

  /** The default quaternion is the identity of the Hamilton product, on both sides. */
  lemma DefaultQuatIsIdentity(q: Quat)
    ensures QuatProduct(DefaultQuat, q) == q
    ensures QuatProduct(q, DefaultQuat) == q
  {
  }

  /** The default matrices are identity matrices. */
  lemma DefaultMatricesAreIdentity(v: Vec3, u: Vec4)
    ensures Mat3Apply(DefaultMat3, v) == v
    ensures Mat4Apply(DefaultMat4, u) == u
  {
  }

  // ---------------------------------------------------------------------------
  // Componentwise arithmetic

  lemma SubIsAddNeg(a2: Vec2, b2: Vec2, a3: Vec3, b3: Vec3, a4: Vec4, b4: Vec4, p: Quat, q: Quat)
    ensures a2.Sub(b2) == a2.Add(b2.Neg())
    ensures a3.Sub(b3) == a3.Add(b3.Neg())
    ensures a4.Sub(b4) == a4.Add(b4.Neg())
    ensures p.Sub(q) == p.Add(q.Neg())
  {
  }

  lemma NegIsInvolution(a2: Vec2, a3: Vec3, a4: Vec4, q: Quat)
    ensures a2.Neg().Neg() == a2
    ensures a3.Neg().Neg() == a3
    ensures a4.Neg().Neg() == a4
    ensures q.Neg().Neg() == q
  {
  }

  lemma MulByOneIsIdentity(a2: Vec2, a3: Vec3, a4: Vec4, q: Quat)
    ensures a2.Mul(1.0) == a2
    ensures a3.Mul(1.0) == a3
    ensures a4.Mul(1.0) == a4
    ensures q.Mul(1.0) == q
  {
  }

  /** Dividing by a non-zero scalar undoes multiplying by it. */
  lemma DivUndoesMulVec2(a: Vec2, k: real)
    requires k != 0.0
    ensures a.Mul(k).Div(k) == a
  {
    var m := a.Mul(k);
    MulDivCancel(a.x, k); MulDivCancel(a.y, k);
    assert m.x / k == a.x && m.y / k == a.y;
  }

  lemma DivUndoesMulVec3(a: Vec3, k: real)
    requires k != 0.0
    ensures a.Mul(k).Div(k) == a
  {
    var m := a.Mul(k);
    MulDivCancel(a.x, k); MulDivCancel(a.y, k); MulDivCancel(a.z, k);
    assert m.x / k == a.x && m.y / k == a.y && m.z / k == a.z;
  }

  lemma DivUndoesMulVec4(a: Vec4, k: real)
    requires k != 0.0
    ensures a.Mul(k).Div(k) == a
  {
    var m := a.Mul(k);
    MulDivCancel(a.x, k); MulDivCancel(a.y, k); MulDivCancel(a.z, k); MulDivCancel(a.w, k);
    assert m.x / k == a.x && m.y / k == a.y && m.z / k == a.z && m.w / k == a.w;
  }

  lemma DivUndoesMulQuat(q: Quat, k: real)
    requires k != 0.0
    ensures q.Mul(k).Div(k) == q
  {
    var m := q.Mul(k);
    MulDivCancel(q.x, k); MulDivCancel(q.y, k); MulDivCancel(q.z, k); MulDivCancel(q.w, k);
    assert m.x / k == q.x && m.y / k == q.y && m.z / k == q.z && m.w / k == q.w;
  }

  lemma MulDivCancel(t: real, k: real)
    requires k != 0.0
    ensures t * k / k == t
  {
  }

  // ---------------------------------------------------------------------------
  // Equality

  /**
   * On exact reals `Equals` (the library's `==`) is identity of the values, hence an
   * equivalence relation; this is all that vertex welding relies on.
   */
  lemma EqualsIsIdentity(a2: Vec2, b2: Vec2, a3: Vec3, b3: Vec3, a4: Vec4, b4: Vec4, p: Quat, q: Quat)
    ensures a2.Equals(b2) <==> a2 == b2
    ensures a3.Equals(b3) <==> a3 == b3
    ensures a4.Equals(b4) <==> a4 == b4
    ensures p.Equals(q) <==> p == q
  {
  }

  /** `Equals` is an equivalence on each vector type and on quaternions. */
  lemma EqualsIsEquivalence(a2: Vec2, b2: Vec2, c2: Vec2, a3: Vec3, b3: Vec3, c3: Vec3,
                            a4: Vec4, b4: Vec4, c4: Vec4, p: Quat, q: Quat, r: Quat)
    ensures a2.Equals(a2) && a3.Equals(a3) && a4.Equals(a4) && p.Equals(p)
    ensures a2.Equals(b2) ==> b2.Equals(a2)
    ensures a3.Equals(b3) ==> b3.Equals(a3)
    ensures a4.Equals(b4) ==> b4.Equals(a4)
    ensures p.Equals(q) ==> q.Equals(p)
    ensures a2.Equals(b2) && b2.Equals(c2) ==> a2.Equals(c2)
    ensures a3.Equals(b3) && b3.Equals(c3) ==> a3.Equals(c3)
    ensures a4.Equals(b4) && b4.Equals(c4) ==> a4.Equals(c4)
    ensures p.Equals(q) && q.Equals(r) ==> p.Equals(r)
  {
  }

  /** With a zero tolerance, approximate equality is exact equality. */
  lemma ApproxEqualsZeroIsEquals(a2: Vec2, b2: Vec2, a3: Vec3, b3: Vec3, a4: Vec4, b4: Vec4, p: Quat, q: Quat)
    ensures a2.ApproxEquals(b2, 0.0) <==> a2.Equals(b2)
    ensures a3.ApproxEquals(b3, 0.0) <==> a3.Equals(b3)
    ensures a4.ApproxEquals(b4, 0.0) <==> a4.Equals(b4)
    ensures p.ApproxEquals(q, 0.0) <==> p.Equals(q)
  {
  }

  /** `ApproxEquals` is symmetric, and holds exactly when the difference is approximately zero. */
  lemma ApproxEqualsIsApproxZeroOfDifference(a2: Vec2, b2: Vec2, a3: Vec3, b3: Vec3, a4: Vec4, b4: Vec4,
                                             p: Quat, q: Quat, epsilon: real)
    ensures a2.ApproxEquals(b2, epsilon) <==> a2.Sub(b2).ApproxZero(epsilon)
    ensures a3.ApproxEquals(b3, epsilon) <==> a3.Sub(b3).ApproxZero(epsilon)
    ensures a4.ApproxEquals(b4, epsilon) <==> a4.Sub(b4).ApproxZero(epsilon)
    ensures p.ApproxEquals(q, epsilon) <==> p.Sub(q).ApproxZero(epsilon)
    ensures a2.ApproxEquals(b2, epsilon) <==> b2.ApproxEquals(a2, epsilon)
    ensures a3.ApproxEquals(b3, epsilon) <==> b3.ApproxEquals(a3, epsilon)
    ensures a4.ApproxEquals(b4, epsilon) <==> b4.ApproxEquals(a4, epsilon)
    ensures p.ApproxEquals(q, epsilon) <==> q.ApproxEquals(p, epsilon)
  {
    ApproxEqualsDifference2(a2, b2, epsilon);
    ApproxEqualsDifference3(a3, b3, epsilon);
    ApproxEqualsDifference4(a4, b4, epsilon);
    ApproxEqualsDifferenceQuat(p, q, epsilon);
  }

  lemma ApproxEqualsDifference2(a: Vec2, b: Vec2, epsilon: real)
    ensures a.ApproxEquals(b, epsilon) <==> a.Sub(b).ApproxZero(epsilon)
    ensures a.ApproxEquals(b, epsilon) <==> b.ApproxEquals(a, epsilon)
  {
    AbsOfDifferenceIsSymmetric(a.x, b.x);
    AbsOfDifferenceIsSymmetric(a.y, b.y);
  }

  lemma ApproxEqualsDifference3(a: Vec3, b: Vec3, epsilon: real)
    ensures a.ApproxEquals(b, epsilon) <==> a.Sub(b).ApproxZero(epsilon)
    ensures a.ApproxEquals(b, epsilon) <==> b.ApproxEquals(a, epsilon)
  {
    AbsOfDifferenceIsSymmetric(a.x, b.x);
    AbsOfDifferenceIsSymmetric(a.y, b.y);
    AbsOfDifferenceIsSymmetric(a.z, b.z);
  }

  lemma ApproxEqualsDifference4(a: Vec4, b: Vec4, epsilon: real)
    ensures a.ApproxEquals(b, epsilon) <==> a.Sub(b).ApproxZero(epsilon)
    ensures a.ApproxEquals(b, epsilon) <==> b.ApproxEquals(a, epsilon)
  {
    AbsOfDifferenceIsSymmetric(a.x, b.x);
    AbsOfDifferenceIsSymmetric(a.y, b.y);
    AbsOfDifferenceIsSymmetric(a.z, b.z);
    AbsOfDifferenceIsSymmetric(a.w, b.w);
  }

  lemma ApproxEqualsDifferenceQuat(p: Quat, q: Quat, epsilon: real)
    ensures p.ApproxEquals(q, epsilon) <==> p.Sub(q).ApproxZero(epsilon)
    ensures p.ApproxEquals(q, epsilon) <==> q.ApproxEquals(p, epsilon)
  {
    AbsOfDifferenceIsSymmetric(p.x, q.x);
    AbsOfDifferenceIsSymmetric(p.y, q.y);
    AbsOfDifferenceIsSymmetric(p.z, q.z);
    AbsOfDifferenceIsSymmetric(p.w, q.w);
  }

  lemma AbsOfDifferenceIsSymmetric(x: real, y: real)
    ensures Abs(x - y) == Abs(y - x)
  {
  }

  /** `ApproxZero` with tolerance `epsilon` means every component lies in [-epsilon, epsilon]. */
  lemma ApproxZeroBounds(v2: Vec2, v3: Vec3, v4: Vec4, q: Quat, epsilon: real)
    ensures v2.ApproxZero(epsilon) <==> -epsilon <= v2.x <= epsilon && -epsilon <= v2.y <= epsilon
    ensures v3.ApproxZero(epsilon) <==>
      -epsilon <= v3.x <= epsilon && -epsilon <= v3.y <= epsilon && -epsilon <= v3.z <= epsilon
    ensures v4.ApproxZero(epsilon) <==>
      -epsilon <= v4.x <= epsilon && -epsilon <= v4.y <= epsilon
      && -epsilon <= v4.z <= epsilon && -epsilon <= v4.w <= epsilon
    ensures q.ApproxZero(epsilon) <==>
      -epsilon <= q.x <= epsilon && -epsilon <= q.y <= epsilon
      && -epsilon <= q.z <= epsilon && -epsilon <= q.w <= epsilon
  {
  }

  // ---------------------------------------------------------------------------
  // Dot and cross products

  lemma DotIsSymmetric(a2: Vec2, b2: Vec2, a3: Vec3, b3: Vec3, a4: Vec4, b4: Vec4, p: Quat, q: Quat)
    ensures a2.Dot(b2) == b2.Dot(a2)
    ensures a3.Dot(b3) == b3.Dot(a3)
    ensures a4.Dot(b4) == b4.Dot(a4)
    ensures p.Dot(q) == q.Dot(p)
  {
  }

  lemma CrossIsAntiCommutative(a: Vec3, b: Vec3)
    ensures a.Cross(b) == b.Cross(a).Neg()
  {
  }

  /** The cross product is orthogonal to both of its operands. */
  lemma CrossIsOrthogonal(a: Vec3, b: Vec3)
    ensures a.Dot(a.Cross(b)) == 0.0
    ensures b.Dot(a.Cross(b)) == 0.0
  {
  }

  /** Crossing with the zero vector gives the zero vector. */
  lemma CrossWithZero(a: Vec3)
    ensures a.Cross(DefaultVec3) == DefaultVec3
    ensures DefaultVec3.Cross(a) == DefaultVec3
  {
  }
}
