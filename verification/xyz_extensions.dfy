/** `XyzExtensions.IsZeroLength`: the component-wise zero test used before issuing a move. */
module XyzExtensions {
  import opened Geometry

  function Abs(r: real): (a: real)
    ensures a >= 0.0
    ensures a == r || a == -r
  {
    if r < 0.0 then -r else r
  }

  /** Every component of `v` is strictly below `tol` in absolute value. The same test is
      `AlignService.IsZero`. */
  predicate IsZeroLength(v: Vec3, tol: real) {
    Abs(v.x) < tol && Abs(v.y) < tol && Abs(v.z) < tol
  }

  /** The test holds exactly when each component lies strictly between `-tol` and `tol`. */
  lemma IsZeroLengthBounds(v: Vec3, tol: real)
    ensures IsZeroLength(v, tol) <==>
      (-tol < v.x < tol && -tol < v.y < tol && -tol < v.z < tol)
  {
  }

  /** The zero vector is zero-length for every positive tolerance, and for no other. */
  lemma ZeroIsZeroLength(tol: real)
    ensures IsZeroLength(Zero, tol) <==> tol > 0.0
  {
  }

  /** Negating a vector does not change the outcome. */
  lemma IsZeroLengthNeg(v: Vec3, tol: real)
    ensures IsZeroLength(Neg(v), tol) == IsZeroLength(v, tol)
  {
  }

  /** A vector zero-length for `tol` is zero-length for every larger tolerance. */
  lemma IsZeroLengthMonotone(v: Vec3, tol: real, tol2: real)
    requires IsZeroLength(v, tol) && tol <= tol2
    ensures IsZeroLength(v, tol2)
  {
  }
}
