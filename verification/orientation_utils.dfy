/** `OrientationUtils`: the in-plane angle of an element in a view, angle
    normalisation, and the rotation `RotateTo` asks the host for. `Math.Atan2` is a
    parameter; the host's `RotateElement` call becomes the returned `Rotation`. */
module OrientationUtils {
  import opened Wrappers
  import opened Geometry
  import opened XyzExtensions
  import opened Revit

  /** `Math.PI` and `2 * Math.PI`, as the decimal values of the doubles. */
  const Pi: real := 3.141592653589793
  const TwoPi: real := 6.283185307179586

  /** The file's `EPS`. */
  const Eps: real := 0.000000001

  // ---------------------------------------------------------------------------
  // Angle normalisation

  /** `d` is a whole number of turns. */
  predicate WholeTurns(d: real) {
    (d / 6.283185307179586).Floor as real == d / 6.283185307179586
  }

  /** `a` and `b` are the same angle modulo 2π. */
  predicate Congruent(a: real, b: real) {
    WholeTurns(a - b)
  }

  lemma WholeShift(q: real, p: real)
    requires q.Floor as real == q
    requires p == q + 1.0 || p == q - 1.0
    ensures p.Floor as real == p
  {
    if p == q + 1.0 {
      assert p.Floor == q.Floor + 1;
    } else {
      assert p.Floor == q.Floor - 1;
    }
  }

  /** Congruence to `x ± 2π` is congruence to `x`. */
  lemma CongruentShift(r: real, x: real, y: real)
    requires y == x + TwoPi || y == x - TwoPi
    requires Congruent(r, y)
    ensures Congruent(r, x)
  {
    var q := (r - y) / 6.283185307179586;
    var p := (r - x) / 6.283185307179586;
    assert p == q + 1.0 || p == q - 1.0;
    WholeShift(q, p);
  }

  /** The first loop of `Normalize`: subtract 2π while above π. */
  function NormDown(x: real): (r: real)
    ensures r <= Pi
    ensures x <= Pi ==> r == x
    ensures x > Pi ==> r > -Pi
    decreases (x + Pi).Floor
  {
    if x > Pi then NormDown(x - TwoPi) else x
  }

  /** The second loop of `Normalize`: add 2π while below -π. */
  function NormUp(x: real): (r: real)
    ensures r >= -Pi
    ensures x >= -Pi ==> r == x
    ensures x < -Pi ==> r < Pi
    decreases (Pi - x).Floor
  {
    if x < -Pi then NormUp(x + TwoPi) else x
  }

  lemma {:induction false} NormDownCongruent(x: real)
    ensures Congruent(NormDown(x), x)
    decreases (x + Pi).Floor
  {
    if x > Pi {
      NormDownCongruent(x - TwoPi);
      CongruentShift(NormDown(x), x, x - TwoPi);
    }
  }

  lemma {:induction false} NormUpCongruent(x: real)
    ensures Congruent(NormUp(x), x)
    decreases (Pi - x).Floor
  {
    if x < -Pi {
      NormUpCongruent(x + TwoPi);
      CongruentShift(NormUp(x), x, x + TwoPi);
    }
  }

  /** The value `Normalize(x)` returns. */
  function Normalized(x: real): real {
    NormUp(NormDown(x))
  }

  /** `Normalize(x)` lies in [-π, π], is `x` plus a whole number of turns, and is `x`
      itself when `x` is already in [-π, π]; from above it never reaches -π, and from
      below it never reaches π. */
  lemma NormalizedSpec(x: real)
    ensures -Pi <= Normalized(x) <= Pi
    ensures Congruent(Normalized(x), x)
    ensures -Pi <= x <= Pi ==> Normalized(x) == x
    ensures x > Pi ==> Normalized(x) > -Pi
    ensures x < -Pi ==> Normalized(x) < Pi
  {
    if x > Pi {
      NormDownCongruent(x);
    } else {
      NormUpCongruent(x);
    }
  }

  /** `Normalize`: two loops stepping by 2π. */
  method Normalize(x0: real) returns (x: real)
    ensures x == Normalized(x0)
    ensures -Pi <= x <= Pi
  {
    x := x0;
    while x > Pi
      invariant NormDown(x) == NormDown(x0)
      decreases (x + Pi).Floor
    {
      x := x - TwoPi;
    }
    while x < -Pi
      invariant NormUp(x) == NormUp(NormDown(x0))
      decreases (Pi - x).Floor
    {
      x := x + TwoPi;
    }
  }

  // ---------------------------------------------------------------------------
  // Elements and their angle in the view

  /** A curve: its end parameters and the host's normalised tangent
      (`ComputeDerivatives(t, true).BasisX.Normalize()`) at a parameter. */
  datatype Curve = Curve(start: real, end: real, tangent: real -> Vec3)

  /** `Element.Location`: a point with its rotation, a curve (possibly null), or none. */
  datatype Location =
    | PointLocation(point: Vec3, rotation: real)
    | CurveLocation(curve: Option<Curve>)
    | NoLocation

  /** The element classes the angle rules look at. */
  datatype Kind =
    | TextNote
    | Wall(orientation: Vec3)
    | CurveElement(geometryCurve: Option<Curve>)
    | OtherKind

  /** An element: its id, class, location, and its bounding box in the view and in the
      model (`get_BoundingBox(view)`, `get_BoundingBox(null)`). */
  datatype Element = Element(id: ElementId, kind: Kind, location: Location,
                             viewBox: Option<BoundingBox>, modelBox: Option<BoundingBox>)

  /** The mid parameter `0.5 * (p0 + p1)` at which a curve's angle is measured. */
  function MidParameter(c: Curve): (mid: real)
    ensures mid - c.start == c.end - mid
  {
    0.5 * (c.start + c.end)
  }

  /** `TryAngleFromVector`: `atan2` of the vector's Up and Right components; fails when
      both are below `Eps`, that is when its view-plane coordinates are zero-length. */
  function TryAngleFromVector(vec: Vec3, v: View, atan2: (real, real) -> real): (a: Option<real>)
    ensures a.None? <==> IsZeroLength(Vec3(Dot(vec, v.right), Dot(vec, v.up), 0.0), Eps)
    ensures a.Some? ==> a.value == atan2(Dot(vec, v.up), Dot(vec, v.right))
  {
    var x := Dot(vec, v.right);
    var y := Dot(vec, v.up);
    if Abs(x) < Eps && Abs(y) < Eps then None else Some(atan2(y, x))
  }

  /** `TryAngleFromCurve`: a null curve fails; otherwise the tangent at the mid
      parameter decides. */
  function TryAngleFromCurve(c: Option<Curve>, v: View, atan2: (real, real) -> real): (a: Option<real>)
    ensures c.None? ==> a.None?
    ensures c.Some? ==> a == TryAngleFromVector(c.value.tangent(MidParameter(c.value)), v, atan2)
  {
    match c
    case None => None
    case Some(curve) => TryAngleFromVector(curve.tangent(MidParameter(curve)), v, atan2)
  }

  /** `TryGetAngle`, with `None` standing for a null element or view. */
  function TryGetAngle(e: Option<Element>, view: Option<View>, atan2: (real, real) -> real): Option<real> {
    if e.None? || view.None? then None
    else
      match e.value.location
      case PointLocation(_, rotation) => Some(rotation)
      case CurveLocation(c) => TryAngleFromCurve(c, view.value, atan2)
      case NoLocation =>
        match e.value.kind
        case Wall(orientation) => TryAngleFromVector(orientation, view.value, atan2)
        case CurveElement(c) => TryAngleFromCurve(c, view.value, atan2)
        case _ => None
  }

  /** The order in which `TryGetAngle` looks for an angle: a null element or view fails;
      a point location's rotation wins over everything; then a location curve; then a
      wall's orientation; then a curve element's curve; anything else fails. */
  lemma AngleSourcePriority(e: Element, view: View, atan2: (real, real) -> real)
    ensures TryGetAngle(None, Some(view), atan2) == None && TryGetAngle(Some(e), None, atan2) == None
    ensures e.location.PointLocation? ==> TryGetAngle(Some(e), Some(view), atan2) == Some(e.location.rotation)
    ensures e.location.CurveLocation? ==>
      TryGetAngle(Some(e), Some(view), atan2) == TryAngleFromCurve(e.location.curve, view, atan2)
    ensures e.location.NoLocation? && e.kind.Wall? ==>
      TryGetAngle(Some(e), Some(view), atan2) == TryAngleFromVector(e.kind.orientation, view, atan2)
    ensures e.location.NoLocation? && e.kind.CurveElement? ==>
      TryGetAngle(Some(e), Some(view), atan2) == TryAngleFromCurve(e.kind.geometryCurve, view, atan2)
    ensures e.location.NoLocation? && (e.kind.TextNote? || e.kind.OtherKind?) ==>
      TryGetAngle(Some(e), Some(view), atan2) == None
  {
  }

  // ---------------------------------------------------------------------------
  // Rotating an element to an angle

  /** A `RotateElement` call: about the line from `origin` along `direction`, by `angle`. */
  datatype Rotation = Rotation(id: ElementId, origin: Vec3, direction: Vec3, angle: real)

  /** What `RotateTo` does: nothing, a rotation, or a `NullReferenceException` when the
      element has neither a point location nor a bounding box. */
  datatype RotateOutcome = Unchanged | Rotate(rotation: Rotation) | NoBoundingBox

  /** The pivot: the location point, else the center of the view box (or, without one,
      the model box); `None` when there is no box at all. */
  function Pivot(e: Element): (o: Option<Vec3>)
    ensures e.location.PointLocation? ==> o == Some(e.location.point)
    ensures !e.location.PointLocation? && e.viewBox.Some? ==>
      o == Some(Midpoint(e.viewBox.value.min, e.viewBox.value.max))
    ensures !e.location.PointLocation? && e.viewBox.None? && e.modelBox.Some? ==>
      o == Some(Midpoint(e.modelBox.value.min, e.modelBox.value.max))
    ensures o.None? <==> !e.location.PointLocation? && e.viewBox.None? && e.modelBox.None?
  {
    if e.location.PointLocation? then Some(e.location.point)
    else
      var bb := if e.viewBox.Some? then e.viewBox else e.modelBox;
      match bb
      case None => None
      case Some(b) => Some(Scale(Add(b.min, b.max), 0.5))
  }

  /** `RotateTo`: rotates by the normalised difference to `targetAngle`, about the view
      direction through the pivot. */
  function RotateTo(e: Element, view: View, targetAngle: real, atan2: (real, real) -> real): RotateOutcome {
    match TryGetAngle(Some(e), Some(view), atan2)
    case None => Unchanged
    case Some(cur) =>
      var delta := Normalized(targetAngle - cur);
      if Abs(delta) < Eps then Unchanged
      else
        match Pivot(e)
        case None => NoBoundingBox
        case Some(origin) => Rotate(Rotation(e.id, origin, view.viewDirection, delta))
  }

  /** `RotateTo` leaves the element alone exactly when its angle is not computable or
      already within `Eps` of the target modulo 2π. A rotation turns the element by
      the shortest angle (at most π either way) that brings it onto the target modulo
      2π, about the view direction through its pivot. */
  lemma RotateToSpec(e: Element, view: View, targetAngle: real, atan2: (real, real) -> real)
    ensures RotateTo(e, view, targetAngle, atan2).Unchanged? <==>
      TryGetAngle(Some(e), Some(view), atan2).None?
      || Abs(Normalized(targetAngle - TryGetAngle(Some(e), Some(view), atan2).value)) < Eps
    ensures RotateTo(e, view, targetAngle, atan2).Rotate? ==>
      var r := RotateTo(e, view, targetAngle, atan2).rotation;
      var cur := TryGetAngle(Some(e), Some(view), atan2).value;
      && r.id == e.id
      && Congruent(cur + r.angle, targetAngle)
      && -Pi <= r.angle <= Pi && Eps <= Abs(r.angle)
      && r.direction == view.viewDirection
      && Some(r.origin) == Pivot(e)
    ensures RotateTo(e, view, targetAngle, atan2).NoBoundingBox? <==>
      !RotateTo(e, view, targetAngle, atan2).Unchanged? && Pivot(e).None?
  {
    var a := TryGetAngle(Some(e), Some(view), atan2);
    if a.Some? {
      var cur := a.value;
      NormalizedSpec(targetAngle - cur);
      var delta := Normalized(targetAngle - cur);
      assert (cur + delta) - targetAngle == delta - (targetAngle - cur);
    }
  }
}
