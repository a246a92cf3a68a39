/** Optional values: `None` stands for a floating-point result that is not a
    finite number (a NaN or an infinity produced by a division by zero). */
module Wrappers {
  datatype Option<+T> = None | Some(value: T)
}

/** Three-component real vectors and 3×3 real matrices: the part of NumPy's
    linear algebra (`dot`, `diag`, elementwise products) that the colour
    transforms use. */
module Vectors {

  datatype Triple = Triple(x: real, y: real, z: real)

  /** A 3×3 matrix, stored by rows. */
  datatype Matrix3 = Matrix3(r0: Triple, r1: Triple, r2: Triple)

  const Zero := Triple(0.0, 0.0, 0.0)
  const Ones := Triple(1.0, 1.0, 1.0)

  function Sum(v: Triple): real { v.x + v.y + v.z }

  function Dot(u: Triple, v: Triple): real { u.x * v.x + u.y * v.y + u.z * v.z }

  function Add(u: Triple, v: Triple): Triple { Triple(u.x + v.x, u.y + v.y, u.z + v.z) }

  function Scale(k: real, v: Triple): Triple { Triple(k * v.x, k * v.y, k * v.z) }

  /** Elementwise product. */
  function Hadamard(u: Triple, v: Triple): Triple { Triple(u.x * v.x, u.y * v.y, u.z * v.z) }

  predicate NonNegative(v: Triple) { 0.0 <= v.x && 0.0 <= v.y && 0.0 <= v.z }

  predicate Positive(v: Triple) { 0.0 < v.x && 0.0 < v.y && 0.0 < v.z }

  function Transpose(m: Matrix3): Matrix3 {
    Matrix3(Triple(m.r0.x, m.r1.x, m.r2.x),
            Triple(m.r0.y, m.r1.y, m.r2.y),
            Triple(m.r0.z, m.r1.z, m.r2.z))
  }

  /** `m.dot(v)` for a vector `v`. */
  function MatVec(m: Matrix3, v: Triple): Triple {
    Triple(Dot(m.r0, v), Dot(m.r1, v), Dot(m.r2, v))
  }

  /** `a.dot(b)` for matrices: row i of the product is row i of `a` times `b`. */
  function MatMul(a: Matrix3, b: Matrix3): Matrix3 {
    var bt := Transpose(b);
    Matrix3(MatVec(bt, a.r0), MatVec(bt, a.r1), MatVec(bt, a.r2))
  }

  /** `np.diag(d)`. */
  function Diag(d: Triple): Matrix3 {
    Matrix3(Triple(d.x, 0.0, 0.0), Triple(0.0, d.y, 0.0), Triple(0.0, 0.0, d.z))
  }

  /** A diagonal matrix scales each component by its own factor. */
  lemma DiagMatVec(d: Triple, v: Triple)
    ensures MatVec(Diag(d), v) == Hadamard(d, v)
  {
  }

  /** Multiplying by a product of matrices is multiplying by each in turn. */
  lemma MatMulMatVec(a: Matrix3, b: Matrix3, v: Triple)
    ensures MatVec(MatMul(a, b), v) == MatVec(a, MatVec(b, v))
  {
  }

  /** Matrix-vector multiplication is linear in the vector. */
  lemma MatVecLinear(m: Matrix3, k: real, u: Triple, v: Triple)
    ensures MatVec(m, Scale(k, u)) == Scale(k, MatVec(m, u))
    ensures MatVec(m, Add(u, v)) == Add(MatVec(m, u), MatVec(m, v))
  {
  }

  // Facts of real arithmetic that the solver does not find unaided.

  lemma Cancel(a: real, b: real, m: real)
    requires m != 0.0 && a * m == b * m
    ensures a == b
  {
    assert (a - b) * m == 0.0;
  }

  lemma SumOfQuotients(a: real, b: real, c: real, s: real)
    requires s != 0.0
    ensures a / s + b / s + c / s == (a + b + c) / s
  {
    assert (a / s) * s == a && (b / s) * s == b && (c / s) * s == c;
    assert (a / s + b / s + c / s) * s == a + b + c;
  }

  lemma ProductZero(a: real, b: real)
    requires a * b == 0.0
    ensures a == 0.0 || b == 0.0
  {
    if a != 0.0 {
      assert b == (a * b) / a;
    }
  }

  lemma SquareZero(x: real)
    requires x * x == 0.0
    ensures x == 0.0
  {
    ProductZero(x, x);
  }
}
