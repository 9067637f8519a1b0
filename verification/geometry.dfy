/** Revit's `XYZ`: a point or vector with real coordinates (feet in model space). */
module Geometry {

  datatype Vec3 = Vec3(x: real, y: real, z: real)

  const Zero: Vec3 := Vec3(0.0, 0.0, 0.0)

  function Add(a: Vec3, b: Vec3): Vec3 {
    Vec3(a.x + b.x, a.y + b.y, a.z + b.z)
  }

  function Sub(a: Vec3, b: Vec3): Vec3 {
    Vec3(a.x - b.x, a.y - b.y, a.z - b.z)
  }

  /** `v * k` */
  function Scale(v: Vec3, k: real): Vec3 {
    Vec3(v.x * k, v.y * k, v.z * k)
  }

  function Neg(v: Vec3): Vec3 {
    Vec3(-v.x, -v.y, -v.z)
  }

  /** `a.DotProduct(b)` */
  function Dot(a: Vec3, b: Vec3): real {
    a.x * b.x + a.y * b.y + a.z * b.z
  }

  /** `(a + b) / 2` */
  function Midpoint(a: Vec3, b: Vec3): Vec3 {
    Vec3((a.x + b.x) / 2.0, (a.y + b.y) / 2.0, (a.z + b.z) / 2.0)
  }

  /** A unit vector (squared length 1). */
  predicate IsUnit(v: Vec3) {
    Dot(v, v) == 1.0
  }

  /** `r` and `u` form an orthonormal pair, as a view's RightDirection and UpDirection do. */
  predicate Orthonormal(r: Vec3, u: Vec3) {
    IsUnit(r) && IsUnit(u) && Dot(r, u) == 0.0
  }

  lemma DotAdd(a: Vec3, b: Vec3, c: Vec3)
    ensures Dot(Add(a, b), c) == Dot(a, c) + Dot(b, c)
  {
  }

  lemma DotScale(a: Vec3, k: real, c: Vec3)
    ensures Dot(Scale(a, k), c) == k * Dot(a, c)
  {
  }

  lemma DotSymmetric(a: Vec3, b: Vec3)
    ensures Dot(a, b) == Dot(b, a)
  {
  }

  /** Moving a point by `k * d` changes its projection on `axis` by `k * (d . axis)`. */
  lemma DotTranslate(p: Vec3, d: Vec3, k: real, axis: Vec3)
    ensures Dot(Add(p, Scale(d, k)), axis) == Dot(p, axis) + k * Dot(d, axis)
  {
  }

  /** The projection of a midpoint is the average of the projections. */
  lemma DotMidpoint(a: Vec3, b: Vec3, axis: Vec3)
    ensures Dot(Midpoint(a, b), axis) == (Dot(a, axis) + Dot(b, axis)) / 2.0
  {
  }
}
