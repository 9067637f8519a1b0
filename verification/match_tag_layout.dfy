/** `MatchTagLayoutCommand`: copies a base tag's head (and elbow) placement, relative
    to its leader end and expressed in the view's (Right, Up) coordinates, onto other
    tags. The reflection-based accessors become plain fields of `Tag`. */
module MatchTagLayout {
  import opened Wrappers
  import opened Geometry
  import opened Seqs
  import opened Revit

  /** An `IndependentTag` as the command sees it: what the leader accessors return
      (`None` for null or a missing API), and its head position. */
  class Tag {
    const id: ElementId
    var hasLeader: bool
    var leaderEnd: Option<Vec3>
    var elbow: Option<Vec3>
    var taggedPoint: Option<Vec3>
    var head: Vec3

    constructor (id: ElementId, hasLeader: bool, leaderEnd: Option<Vec3>, elbow: Option<Vec3>,
                 taggedPoint: Option<Vec3>, head: Vec3)
      ensures this.id == id && this.hasLeader == hasLeader && this.leaderEnd == leaderEnd
      ensures this.elbow == elbow && this.taggedPoint == taggedPoint && this.head == head
    {
      this.id := id;
      this.hasLeader := hasLeader;
      this.leaderEnd := leaderEnd;
      this.elbow := elbow;
      this.taggedPoint := taggedPoint;
      this.head := head;
    }
  }

  /** `TagLayout`: offsets from the leader end, in (Right, Up) coordinates. */
  datatype TagLayout = TagLayout(hasLeader: bool, headOffsetRU: Vec3, elbowOffsetRU: Option<Vec3>)

  // ---------------------------------------------------------------------------
  // View coordinates

  /** `WorldToRU`: the components of `v` along the view's Right and Up directions. */
  function WorldToRU(view: View, v: Vec3): Vec3 {
    Vec3(Dot(v, view.right), Dot(v, view.up), 0.0)
  }

  /** `RUToWorld`: the world vector `r * p.X + u * p.Y`. */
  function RUToWorld(view: View, p: Vec3): Vec3 {
    Add(Scale(view.right, p.x), Scale(view.up, p.y))
  }

  /** For orthonormal Right and Up, going to world coordinates and back recovers the
      (Right, Up) coordinates and drops the third one. */
  lemma RoundTrip(view: View, p: Vec3)
    requires Orthonormal(view.right, view.up)
    ensures WorldToRU(view, RUToWorld(view, p)) == Vec3(p.x, p.y, 0.0)
  {
    var r, u := view.right, view.up;
    DotAdd(Scale(r, p.x), Scale(u, p.y), r);
    DotAdd(Scale(r, p.x), Scale(u, p.y), u);
    DotScale(r, p.x, r);
    DotScale(u, p.y, r);
    DotScale(r, p.x, u);
    DotScale(u, p.y, u);
    DotSymmetric(u, r);
  }

  /** The view coordinates of a world offset survive a trip through the world: the
      offset rebuilt from them has the same view coordinates. */
  lemma OffsetCopies(view: View, d: Vec3)
    requires Orthonormal(view.right, view.up)
    ensures WorldToRU(view, RUToWorld(view, WorldToRU(view, d))) == WorldToRU(view, d)
  {
    RoundTrip(view, WorldToRU(view, d));
  }

  // ---------------------------------------------------------------------------
  // Reading and applying a layout

  /** The elbow `TryGetLayout` reads: only a tag with a leader has one. */
  function LayoutElbow(tag: Tag): Option<Vec3>
    reads tag
  {
    if tag.hasLeader then tag.elbow else None
  }

  /** The leader end `TryGetLayout` uses: `LeaderEnd`, else the elbow, else the tagged
      point. */
  function LayoutEnd(tag: Tag): (e: Option<Vec3>)
    reads tag
    ensures tag.leaderEnd.Some? ==> e == tag.leaderEnd
    ensures tag.leaderEnd.None? && LayoutElbow(tag).Some? ==> e == LayoutElbow(tag)
    ensures tag.leaderEnd.None? && LayoutElbow(tag).None? ==> e == tag.taggedPoint
  {
    if tag.leaderEnd.Some? then tag.leaderEnd
    else if LayoutElbow(tag).Some? then LayoutElbow(tag)
    else tag.taggedPoint
  }

  /** `TryGetLayout`: refused when no leader end can be found; otherwise the head
      offset `head - end`, and the elbow offset when the tag has a leader and an
      elbow, both in view coordinates. */
  function TryGetLayout(view: View, tag: Tag): (layout: Option<TagLayout>)
    reads tag
    ensures layout.None? <==> tag.leaderEnd.None? && LayoutElbow(tag).None? && tag.taggedPoint.None?
    ensures layout.Some? ==> layout.value.hasLeader == tag.hasLeader
    ensures layout.Some? ==> (layout.value.elbowOffsetRU.Some? <==> tag.hasLeader && tag.elbow.Some?)
    ensures layout.Some? ==> layout.value.headOffsetRU.z == 0.0
    ensures layout.Some? ==> layout.value.headOffsetRU == WorldToRU(view, Sub(tag.head, LayoutEnd(tag).value))
    ensures layout.Some? && layout.value.elbowOffsetRU.Some? ==>
      layout.value.elbowOffsetRU.value == WorldToRU(view, Sub(tag.elbow.value, LayoutEnd(tag).value))
  {
    var elbow := LayoutElbow(tag);
    match LayoutEnd(tag)
    case None => None
    case Some(end) =>
      var elbowOffset := if elbow.Some? then Some(Sub(elbow.value, end)) else None;
      Some(TagLayout(tag.hasLeader, WorldToRU(view, Sub(tag.head, end)),
                     if elbowOffset.Some? then Some(WorldToRU(view, elbowOffset.value)) else None))
  }

  /** The anchor `ApplyLayout` measures from: `LeaderEnd`, else the tagged point, else
      the current head. */
  function ApplyAnchor(tag: Tag): Vec3
    reads tag
  {
    if tag.leaderEnd.Some? then tag.leaderEnd.value
    else if tag.taggedPoint.Some? then tag.taggedPoint.value
    else tag.head
  }

  /** `ApplyLayout`: sets the leader flag, puts the head at `end + RUToWorld(headOffset)`,
      and the elbow at `end + RUToWorld(elbowOffset)` when the layout has a leader and
      an elbow; nothing else of the tag changes. */
  method ApplyLayout(view: View, tag: Tag, layout: TagLayout)
    modifies tag
    ensures tag.hasLeader == layout.hasLeader
    ensures tag.head == Add(old(ApplyAnchor(tag)), RUToWorld(view, layout.headOffsetRU))
    ensures layout.hasLeader && layout.elbowOffsetRU.Some? ==>
      tag.elbow == Some(Add(old(ApplyAnchor(tag)), RUToWorld(view, layout.elbowOffsetRU.value)))
    ensures !(layout.hasLeader && layout.elbowOffsetRU.Some?) ==> tag.elbow == old(tag.elbow)
    ensures tag.leaderEnd == old(tag.leaderEnd) && tag.taggedPoint == old(tag.taggedPoint)
  {
    tag.hasLeader := layout.hasLeader;
    var end := ApplyAnchor(tag);
    var newHead := Add(end, RUToWorld(view, layout.headOffsetRU));
    tag.head := newHead;
    if layout.hasLeader && layout.elbowOffsetRU.Some? {
      var newElbow := Add(end, RUToWorld(view, layout.elbowOffsetRU.value));
      tag.elbow := Some(newElbow);
    }
  }

  /** The state `ApplyLayout` leaves a tag in, given its anchor, elbow, leader end and
      tagged point before the call. */
  predicate Applied(view: View, tag: Tag, layout: TagLayout, anchor: Vec3, elbow: Option<Vec3>,
                    leaderEnd: Option<Vec3>, taggedPoint: Option<Vec3>)
    reads tag
  {
    && tag.hasLeader == layout.hasLeader
    && tag.head == Add(anchor, RUToWorld(view, layout.headOffsetRU))
    && tag.elbow == (if layout.hasLeader && layout.elbowOffsetRU.Some?
                     then Some(Add(anchor, RUToWorld(view, layout.elbowOffsetRU.value)))
                     else elbow)
    && tag.leaderEnd == leaderEnd && tag.taggedPoint == taggedPoint
  }

  /** The head placed from a copied layout sits, relative to the target's anchor and in
      view coordinates, exactly where the base head sat relative to the base's end. */
  lemma LayoutReproduced(view: View, baseHead: Vec3, baseEnd: Vec3, anchor: Vec3)
    requires Orthonormal(view.right, view.up)
    ensures WorldToRU(view, Sub(Add(anchor, RUToWorld(view, WorldToRU(view, Sub(baseHead, baseEnd)))), anchor))
      == WorldToRU(view, Sub(baseHead, baseEnd))
  {
    var d := RUToWorld(view, WorldToRU(view, Sub(baseHead, baseEnd)));
    assert Sub(Add(anchor, d), anchor) == d;
    OffsetCopies(view, Sub(baseHead, baseEnd));
  }

  // ---------------------------------------------------------------------------
  // The command

  function TagKey(t: Tag): ElementId { t.id }

  /** The picked elements that are tags, in pick order. */
  function PickedTags(picked: seq<Option<Tag>>): (tags: seq<Tag>)
    ensures forall i :: 0 <= i < |tags| ==> Some(tags[i]) in picked
    ensures forall i :: 0 <= i < |picked| && picked[i].Some? ==> picked[i].value in tags
  {
    if picked == [] then []
    else
      var rest := PickedTags(picked[1..]);
      assert forall i :: 1 <= i < |picked| ==> picked[i] == picked[1..][i - 1];
      match picked[0]
      case Some(t) => [t] + rest
      case None => rest
  }

  /** The tags are taken in pick order: a further pick adds its tag, if it is one, at the
      end. */
  lemma {:induction false} PickedTagsSnoc(picked: seq<Option<Tag>>, o: Option<Tag>)
    ensures PickedTags(picked + [o]) == PickedTags(picked) + (if o.Some? then [o.value] else [])
  {
    if picked != [] {
      assert (picked + [o])[1..] == picked[1..] + [o];
      PickedTagsSnoc(picked[1..], o);
    }
  }

  /** The targets: the picked tags other than the base, first of each id. */
  function Targets(picked: seq<Option<Tag>>, baseId: ElementId): (targets: seq<Tag>)
    ensures forall i :: 0 <= i < |targets| ==> Some(targets[i]) in picked && targets[i].id != baseId
    ensures DistinctKeys(targets, TagKey)
  {
    var tags := PickedTags(picked);
    var kept := Filter(tags, (t: Tag) => t.id != baseId);
    FilterSpec(tags, (t: Tag) => t.id != baseId);
    var targets := DistinctBy(kept, TagKey);
    forall i | 0 <= i < |targets| ensures Some(targets[i]) in picked && targets[i].id != baseId {
      var j :| 0 <= j < |kept| && kept[j] == targets[i];
      var k :| 0 <= k < |tags| && tags[k] == kept[j];
    }
    targets
  }

  /** Every picked tag other than the base is represented among the targets. */
  lemma TargetsCover(picked: seq<Option<Tag>>, baseId: ElementId, k: nat)
    requires k < |picked| && picked[k].Some? && picked[k].value.id != baseId
    ensures exists i :: 0 <= i < |Targets(picked, baseId)| && Targets(picked, baseId)[i].id == picked[k].value.id
  {
    var t := picked[k].value;
    var kept := Filter(PickedTags(picked), (t: Tag) => t.id != baseId);
    FilterSpec(PickedTags(picked), (t: Tag) => t.id != baseId);
    assert t in kept;
    DistinctByCovers(kept, TagKey, t);
    assert Targets(picked, baseId) == DistinctBy(kept, TagKey);
  }

  /** `Execute`, after the picks: cancelled without an `IndependentTag` base, without a
      base layout, or without targets; otherwise every target gets the base layout. */
  method Execute(view: View, base: Option<Tag>, picked: seq<Option<Tag>>) returns (result: Result)
    modifies set o | o in picked && o.Some? :: o.value
    ensures base.None? ==> result == Cancelled
    ensures base.Some? && old(TryGetLayout(view, base.value)).None? ==> result == Cancelled
    ensures base.Some? && old(TryGetLayout(view, base.value)).Some? ==>
      (result == Cancelled <==> Targets(picked, base.value.id) == [])
    ensures result == Cancelled || result == Succeeded
    ensures result != Succeeded ==> forall k :: 0 <= k < |picked| && picked[k].Some? ==> unchanged(picked[k].value)
    ensures result == Succeeded ==> base.Some? && old(TryGetLayout(view, base.value)).Some?
    ensures result == Succeeded ==>
      forall i :: 0 <= i < |Targets(picked, base.value.id)| ==>
        Applied(view, Targets(picked, base.value.id)[i], old(TryGetLayout(view, base.value)).value,
                old(ApplyAnchor(Targets(picked, base.value.id)[i])), old(Targets(picked, base.value.id)[i].elbow),
                old(Targets(picked, base.value.id)[i].leaderEnd), old(Targets(picked, base.value.id)[i].taggedPoint))
    ensures result == Succeeded ==>
      forall k :: 0 <= k < |picked| && picked[k].Some? && picked[k].value !in Targets(picked, base.value.id) ==>
        unchanged(picked[k].value)
  {
    if base.None? {
      return Cancelled;
    }
    var baseTag := base.value;
    var baseLayout := TryGetLayout(view, baseTag);
    if baseLayout.None? {
      return Cancelled;
    }
    var layout := baseLayout.value;
    var targets := Targets(picked, baseTag.id);
    if |targets| == 0 {
      return Cancelled;
    }
    var i := 0;
    while i < |targets|
      invariant 0 <= i <= |targets|
      invariant forall k :: 0 <= k < |picked| && picked[k].Some? && picked[k].value !in targets ==> unchanged(picked[k].value)
      invariant forall j :: i <= j < |targets| ==> unchanged(targets[j])
      invariant forall j :: 0 <= j < i ==>
        Applied(view, targets[j], layout, old(ApplyAnchor(targets[j])), old(targets[j].elbow),
                old(targets[j].leaderEnd), old(targets[j].taggedPoint))
    {
      var tag := targets[i];
      assert forall j :: 0 <= j < |targets| && j != i ==> targets[j] != tag by {
        forall j | 0 <= j < |targets| && j != i ensures targets[j] != tag {
          assert TagKey(targets[j]) != TagKey(targets[i]);
        }
      }
      ApplyLayout(view, tag, layout);
      i := i + 1;
    }
    result := Succeeded;
  }
}
