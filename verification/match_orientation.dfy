/** `MatchOrientationCommand`: rotates every picked target onto the angle of a picked
    base element. Its private `Utils` repeat the angle rules of `OrientationUtils`
    with an extra `TextNote` case and a box-center fallback of `XYZ.Zero`. */
module MatchOrientation {
  import opened Wrappers
  import opened Geometry
  import opened XyzExtensions
  import opened Seqs
  import opened Revit
  import opened OrientationUtils

  /** `Utils.TryGetAngle`: as `OrientationUtils.TryGetAngle`, but a `TextNote` with a
      point location is tried first. */
  function TryGetAngle(e: Option<Element>, view: Option<View>, atan2: (real, real) -> real): (a: Option<real>)
    ensures a == OrientationUtils.TryGetAngle(e, view, atan2)
  {
    if e.None? || view.None? then None
    else if e.value.kind.TextNote? && e.value.location.PointLocation? then Some(e.value.location.rotation)
    else if e.value.location.PointLocation? then Some(e.value.location.rotation)
    else if e.value.location.CurveLocation? then TryAngleFromCurve(e.value.location.curve, view.value, atan2)
    else if e.value.kind.Wall? then TryAngleFromVector(e.value.kind.orientation, view.value, atan2)
    else if e.value.kind.CurveElement? then TryAngleFromCurve(e.value.kind.geometryCurve, view.value, atan2)
    else None
  }

  /** `Utils.CenterOf`: the center of the view box, else of the model box, else the
      origin. */
  function CenterOf(e: Element): (c: Vec3)
    ensures e.viewBox.Some? ==> c == Midpoint(e.viewBox.value.min, e.viewBox.value.max)
    ensures e.viewBox.None? && e.modelBox.Some? ==> c == Midpoint(e.modelBox.value.min, e.modelBox.value.max)
    ensures e.viewBox.None? && e.modelBox.None? ==> c == Zero
  {
    var bb := if e.viewBox.Some? then e.viewBox else e.modelBox;
    match bb
    case None => Zero
    case Some(b) => Scale(Add(b.min, b.max), 0.5)
  }

  /** `Utils.RotateTo`: the rotation issued, if any; about the location point or,
      without one, the box center. */
  function RotateTo(e: Element, view: View, targetAngle: real, atan2: (real, real) -> real): Option<Rotation> {
    match TryGetAngle(Some(e), Some(view), atan2)
    case None => None
    case Some(current) =>
      var delta := Normalized(targetAngle - current);
      if Abs(delta) < Eps then None
      else
        var origin := if e.location.PointLocation? then e.location.point else CenterOf(e);
        Some(Rotation(e.id, origin, view.viewDirection, delta))
  }

  /** A target is rotated exactly when its angle is computable and at least `Eps` away
      from the base angle modulo 2π; the rotation is the shortest one onto the base
      angle, about the view direction through the location point or the box center. */
  lemma RotateToSpec(e: Element, view: View, baseAngle: real, atan2: (real, real) -> real)
    ensures RotateTo(e, view, baseAngle, atan2).None? <==>
      TryGetAngle(Some(e), Some(view), atan2).None?
      || Abs(Normalized(baseAngle - TryGetAngle(Some(e), Some(view), atan2).value)) < Eps
    ensures RotateTo(e, view, baseAngle, atan2).Some? ==>
      var r := RotateTo(e, view, baseAngle, atan2).value;
      && r.id == e.id
      && Congruent(TryGetAngle(Some(e), Some(view), atan2).value + r.angle, baseAngle)
      && -Pi <= r.angle <= Pi
      && r.direction == view.viewDirection
      && r.origin == (if e.location.PointLocation? then e.location.point else CenterOf(e))
  {
    var a := TryGetAngle(Some(e), Some(view), atan2);
    if a.Some? {
      NormalizedSpec(baseAngle - a.value);
      var delta := Normalized(baseAngle - a.value);
      assert (a.value + delta) - baseAngle == delta - (baseAngle - a.value);
    }
  }

  function ElementKey(e: Element): ElementId { e.id }

  /** The targets: the picked elements, first of each id, without the base. */
  function Targets(picked: seq<Element>, baseId: ElementId): (targets: seq<Element>)
    ensures forall t :: t in targets ==> t in picked && t.id != baseId
    ensures DistinctKeys(targets, ElementKey)
  {
    var unique := DistinctBy(picked, ElementKey);
    FilterKeepsDistinctKeys(unique, (e: Element) => e.id != baseId, ElementKey);
    FilterSpec(unique, (e: Element) => e.id != baseId);
    Filter(unique, (e: Element) => e.id != baseId)
  }

  /** Every picked element other than the base is represented among the targets. */
  lemma TargetsCover(picked: seq<Element>, baseId: ElementId, e: Element)
    requires e in picked && e.id != baseId
    ensures exists i :: 0 <= i < |Targets(picked, baseId)| && Targets(picked, baseId)[i].id == e.id
  {
    var unique := DistinctBy(picked, ElementKey);
    DistinctByCovers(picked, ElementKey, e);
    var i :| 0 <= i < |unique| && ElementKey(unique[i]) == ElementKey(e);
    var targets := Filter(unique, (e: Element) => e.id != baseId);
    FilterSpec(unique, (e: Element) => e.id != baseId);
    assert targets == Targets(picked, baseId);
    assert unique[i] in targets;
    var j :| 0 <= j < |targets| && targets[j] == unique[i];
  }

  /** The rotations issued for `targets`, in order. */
  function Rotations(targets: seq<Element>, view: View, baseAngle: real, atan2: (real, real) -> real): seq<Rotation> {
    if targets == [] then []
    else
      var rest := Rotations(targets[..|targets| - 1], view, baseAngle, atan2);
      match RotateTo(targets[|targets| - 1], view, baseAngle, atan2)
      case None => rest
      case Some(r) => rest + [r]
  }

  /** `Execute`, after the picks: cancelled when the base has no angle or there is no
      target; otherwise every target is rotated to the base angle. */
  method Execute(base: Element, picked: seq<Element>, view: View, atan2: (real, real) -> real)
    returns (result: Result, rotations: seq<Rotation>)
    ensures TryGetAngle(Some(base), Some(view), atan2).None? ==> result == Cancelled && rotations == []
    ensures TryGetAngle(Some(base), Some(view), atan2).Some? && Targets(picked, base.id) == [] ==>
      result == Cancelled && rotations == []
    ensures TryGetAngle(Some(base), Some(view), atan2).Some? && Targets(picked, base.id) != [] ==>
      result == Succeeded
      && rotations == Rotations(Targets(picked, base.id), view, TryGetAngle(Some(base), Some(view), atan2).value, atan2)
  {
    rotations := [];
    var baseAngle := TryGetAngle(Some(base), Some(view), atan2);
    if baseAngle.None? {
      return Cancelled, rotations;
    }
    var targets := Targets(picked, base.id);
    if |targets| == 0 {
      return Cancelled, rotations;
    }
    var i := 0;
    while i < |targets|
      invariant 0 <= i <= |targets|
      invariant rotations == Rotations(targets[..i], view, baseAngle.value, atan2)
    {
      assert targets[..i + 1][..i] == targets[..i] && targets[..i + 1][i] == targets[i];
      var r := RotateTo(targets[i], view, baseAngle.value, atan2);
      assert Rotations(targets[..i + 1], view, baseAngle.value, atan2)
        == rotations + (if r.Some? then [r.value] else []);
      if r.Some? {
        rotations := rotations + [r.value];
      }
      i := i + 1;
    }
    assert targets[..|targets|] == targets;
    result := Succeeded;
  }

  /** Each rotation issued is `RotateTo` of one of the targets. */
  lemma {:induction false} RotationsFromTargets(targets: seq<Element>, view: View, baseAngle: real,
                                                atan2: (real, real) -> real, k: nat)
    requires k < |Rotations(targets, view, baseAngle, atan2)|
    ensures exists j :: (0 <= j < |targets|
      && RotateTo(targets[j], view, baseAngle, atan2) == Some(Rotations(targets, view, baseAngle, atan2)[k]))
    decreases |targets|
  {
    var n := |targets|;
    var rest := Rotations(targets[..n - 1], view, baseAngle, atan2);
    if k < |rest| {
      RotationsFromTargets(targets[..n - 1], view, baseAngle, atan2, k);
      var j :| 0 <= j < n - 1 && RotateTo(targets[..n - 1][j], view, baseAngle, atan2) == Some(rest[k]);
      assert targets[..n - 1][j] == targets[j];
    }
  }

  /** Every rotation issued brings its target onto the base angle modulo 2π, by at most
      π either way. */
  lemma RotationsMatchBase(targets: seq<Element>, view: View, baseAngle: real,
                           atan2: (real, real) -> real, k: nat)
    requires k < |Rotations(targets, view, baseAngle, atan2)|
    ensures exists j :: (0 <= j < |targets|
      && targets[j].id == Rotations(targets, view, baseAngle, atan2)[k].id
      && TryGetAngle(Some(targets[j]), Some(view), atan2).Some?
      && Congruent(TryGetAngle(Some(targets[j]), Some(view), atan2).value
                   + Rotations(targets, view, baseAngle, atan2)[k].angle, baseAngle)
      && -Pi <= Rotations(targets, view, baseAngle, atan2)[k].angle <= Pi)
  {
    RotationsFromTargets(targets, view, baseAngle, atan2, k);
    var j :| 0 <= j < |targets|
      && RotateTo(targets[j], view, baseAngle, atan2) == Some(Rotations(targets, view, baseAngle, atan2)[k]);
    RotateToSpec(targets[j], view, baseAngle, atan2);
  }

  /** Distinct targets get at most one rotation each: no element is rotated twice. */
  lemma {:induction false} RotationsDistinct(targets: seq<Element>, view: View, baseAngle: real,
                                             atan2: (real, real) -> real)
    requires DistinctKeys(targets, ElementKey)
    ensures forall i, j :: 0 <= i < j < |Rotations(targets, view, baseAngle, atan2)| ==>
      Rotations(targets, view, baseAngle, atan2)[i].id != Rotations(targets, view, baseAngle, atan2)[j].id
    decreases |targets|
  {
    if targets != [] {
      var n := |targets|;
      var prefix := targets[..n - 1];
      var rest := Rotations(prefix, view, baseAngle, atan2);
      var all := Rotations(targets, view, baseAngle, atan2);
      assert DistinctKeys(prefix, ElementKey) by {
        forall i, j | 0 <= i < j < |prefix| ensures ElementKey(prefix[i]) != ElementKey(prefix[j]) {
          assert prefix[i] == targets[i] && prefix[j] == targets[j];
        }
      }
      RotationsDistinct(prefix, view, baseAngle, atan2);
      if |all| > |rest| {
        forall i | 0 <= i < |rest| ensures rest[i].id != all[|rest|].id {
          RotationsFromTargets(prefix, view, baseAngle, atan2, i);
          var j :| 0 <= j < n - 1 && RotateTo(prefix[j], view, baseAngle, atan2) == Some(rest[i]);
          assert rest[i].id == targets[j].id;
          assert ElementKey(targets[j]) != ElementKey(targets[n - 1]);
        }
      }
    }
  }
}
