/** `AlignTags.AlignTagElements`: lines tag heads up with the first tag along one view
    axis, by moving each other head along that axis only. */
module AlignTags {
  import opened Geometry
  import opened XyzExtensions
  import opened Revit

  /** An `IndependentTag` and its writable `TagHeadPosition`. */
  class Tag {
    const id: ElementId
    var head: Vec3

    constructor (id: ElementId, head: Vec3)
      ensures this.id == id && this.head == head
    {
      this.id := id;
      this.head := head;
    }
  }

  /** `vertical` keeps the view's Right component fixed (a vertical column of tags);
      otherwise the Up component is fixed (a horizontal row). */
  function Axis(view: View, vertical: bool): Vec3 {
    if vertical then view.right else view.up
  }

  /** Where a head at `p` ends up: moved by `(fixedComp - p . axis) * axis`, unless that
      component differs by less than `eps`. */
  function SnapHead(p: Vec3, axis: Vec3, fixedComp: real, eps: real): Vec3 {
    var deltaComp := fixedComp - Dot(p, axis);
    if Abs(deltaComp) < eps then p else Add(p, Scale(axis, deltaComp))
  }

  /** Along a unit axis a snapped head has exactly the reference component, unless it
      was already within `eps` of it and stayed in place. */
  lemma SnapHeadAligned(p: Vec3, axis: Vec3, fixedComp: real, eps: real)
    requires IsUnit(axis)
    ensures Dot(SnapHead(p, axis, fixedComp, eps), axis) == fixedComp
      || (SnapHead(p, axis, fixedComp, eps) == p && Abs(fixedComp - Dot(p, axis)) < eps)
    ensures SnapHead(p, axis, fixedComp, eps) == p <==> Abs(fixedComp - Dot(p, axis)) < eps || Dot(p, axis) == fixedComp
  {
    var d := fixedComp - Dot(p, axis);
    DotTranslate(p, axis, d, axis);
    if Abs(d) >= eps && d != 0.0 {
      assert Scale(axis, d) != Zero by {
        DotScale(axis, d, axis);
      }
    }
  }

  /** A move along `axis` leaves the component along any direction orthogonal to it
      unchanged. */
  lemma SnapHeadKeepsOrthogonal(p: Vec3, axis: Vec3, fixedComp: real, eps: real, other: Vec3)
    requires Dot(axis, other) == 0.0
    ensures Dot(SnapHead(p, axis, fixedComp, eps), other) == Dot(p, other)
  {
    DotTranslate(p, axis, fixedComp - Dot(p, axis), other);
  }

  /** `AlignTagElements`: with fewer than two tags nothing changes; otherwise the first
      tag stays and every other head is snapped to the first head's component along
      the chosen axis. The tags are distinct objects (they come from a selection). */
  method AlignTagElements(tags: seq<Tag>, view: View, vertical: bool, eps: real)
    requires forall i, j :: 0 <= i < j < |tags| ==> tags[i] != tags[j]
    modifies set t | t in tags
    ensures |tags| < 2 ==> forall t :: t in tags ==> t.head == old(t.head)
    ensures |tags| >= 2 ==> tags[0].head == old(tags[0].head)
    ensures |tags| >= 2 ==> forall i :: 1 <= i < |tags| ==>
      tags[i].head == SnapHead(old(tags[i].head), Axis(view, vertical), Dot(old(tags[0].head), Axis(view, vertical)), eps)
  {
    if |tags| < 2 {
      return;
    }
    var axis := Axis(view, vertical);
    var fixedComp := Dot(tags[0].head, axis);
    var i := 1;
    while i < |tags|
      invariant 1 <= i <= |tags|
      invariant tags[0].head == old(tags[0].head)
      invariant forall j :: 1 <= j < i ==> tags[j].head == SnapHead(old(tags[j].head), axis, fixedComp, eps)
      invariant forall j :: i <= j < |tags| ==> tags[j].head == old(tags[j].head)
    {
      var tag := tags[i];
      var p := tag.head;
      var curComp := Dot(p, axis);
      var deltaComp := fixedComp - curComp;
      if Abs(deltaComp) >= eps {
        var delta := Scale(axis, deltaComp);
        tag.head := Add(p, delta);
      }
      i := i + 1;
    }
  }
}
