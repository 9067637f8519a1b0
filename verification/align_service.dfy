/** `AlignService`: aligns, distributes and untangles a group of elements along a view
    axis. Each element is its bounding box; the host's `MoveElement` calls become the
    returned map from element id to move vector. */
module AlignService {
  import opened Wrappers
  import opened Geometry
  import opened Seqs
  import opened XyzExtensions
  import opened Revit

  /** An element and its bounding box in the active view. */
  datatype Box = Box(id: ElementId, min: Vec3, max: Vec3)

  datatype AlignType =
    | Left | Right | Bottom | Top | CenterX | CenterY
    | DistributeHorizontally | DistributeVertically
    | UntangleHorizontally | UntangleVertically

  function BoxId(b: Box): ElementId { b.id }

  predicate DistinctIds(boxes: seq<Box>) {
    DistinctKeys(boxes, BoxId)
  }

  /** Projection of the box's `Min` corner on `axis`. */
  function Lo(b: Box, axis: Vec3): real { Dot(b.min, axis) }

  /** Projection of the box's `Max` corner on `axis`. */
  function Hi(b: Box, axis: Vec3): real { Dot(b.max, axis) }

  /** Projection of the box center `(Min + Max) * 0.5` on `axis`. */
  function Center(b: Box, axis: Vec3): real {
    Dot(Midpoint(b.min, b.max), axis)
  }

  /** The projected center is the midpoint of the projected span. */
  lemma CenterIsMidSpan(b: Box, axis: Vec3)
    ensures Center(b, axis) == (Lo(b, axis) + Hi(b, axis)) / 2.0
  {
    DotMidpoint(b.min, b.max, axis);
  }

  function Max(a: real, b: real): real { if a >= b then a else b }

  // ---------------------------------------------------------------------------
  // Issuing moves

  /** The moves a loop issues when it visits `boxes` in order and moves box `i` by
      `offsets[i] * axis`, skipping vectors that are zero within `eps`. */
  function Moves(boxes: seq<Box>, offsets: seq<real>, axis: Vec3, eps: real): map<ElementId, Vec3>
    requires |offsets| == |boxes|
    decreases |boxes|
  {
    if boxes == [] then map[]
    else
      var n := |boxes| - 1;
      var m := Moves(boxes[..n], offsets[..n], axis, eps);
      var delta := Scale(axis, offsets[n]);
      if IsZeroLength(delta, eps) then m else m[boxes[n].id := delta]
  }

  /** Visiting one more box adds its move unless that move is zero within `eps`. */
  lemma MovesSnoc(boxes: seq<Box>, offsets: seq<real>, axis: Vec3, eps: real, k: nat, next: nat)
    requires |offsets| == |boxes| && k < |boxes| && next == k + 1
    ensures var m := Moves(boxes[..k], offsets[..k], axis, eps);
      var delta := Scale(axis, offsets[k]);
      Moves(boxes[..next], offsets[..next], axis, eps)
        == if IsZeroLength(delta, eps) then m else m[boxes[k].id := delta]
  {
    assert boxes[..next][..k] == boxes[..k] && offsets[..next][..k] == offsets[..k];
  }

  /** Only visited elements move. */
  lemma {:induction false} MovesKeys(boxes: seq<Box>, offsets: seq<real>, axis: Vec3, eps: real)
    requires |offsets| == |boxes|
    ensures forall id :: id in Moves(boxes, offsets, axis, eps) ==>
      exists i :: 0 <= i < |boxes| && boxes[i].id == id
    decreases |boxes|
  {
    if boxes != [] {
      var n := |boxes| - 1;
      MovesKeys(boxes[..n], offsets[..n], axis, eps);
      forall id | id in Moves(boxes[..n], offsets[..n], axis, eps)
        ensures exists i :: 0 <= i < |boxes| && boxes[i].id == id
      {
        var i :| 0 <= i < n && boxes[..n][i].id == id;
        assert boxes[i].id == id;
      }
    }
  }

  /** With distinct ids, element `i` moves exactly when its move vector is not zero
      within `eps`, and then by exactly that vector. */
  lemma {:induction false} MovesSpec(boxes: seq<Box>, offsets: seq<real>, axis: Vec3, eps: real)
    requires |offsets| == |boxes| && DistinctIds(boxes)
    ensures forall i :: 0 <= i < |boxes| ==>
      (boxes[i].id in Moves(boxes, offsets, axis, eps) <==> !IsZeroLength(Scale(axis, offsets[i]), eps))
    ensures forall i :: 0 <= i < |boxes| && boxes[i].id in Moves(boxes, offsets, axis, eps) ==>
      Moves(boxes, offsets, axis, eps)[boxes[i].id] == Scale(axis, offsets[i])
    decreases |boxes|
  {
    if boxes != [] {
      var n := |boxes| - 1;
      var pre, offs := boxes[..n], offsets[..n];
      assert DistinctIds(pre) by {
        forall i, j | 0 <= i < j < |pre| ensures BoxId(pre[i]) != BoxId(pre[j]) {
          assert pre[i] == boxes[i] && pre[j] == boxes[j];
        }
      }
      MovesSpec(pre, offs, axis, eps);
      MovesKeys(pre, offs, axis, eps);
      forall i | 0 <= i < n
        ensures pre[i].id != boxes[n].id && pre[i] == boxes[i] && offs[i] == offsets[i]
      {
        assert BoxId(boxes[i]) != BoxId(boxes[n]);
      }
      assert boxes[n].id !in Moves(pre, offs, axis, eps);
    }
  }

  /** Along a unit axis, a box that moves has its projections shifted by exactly its
      offset; a box that stays has an offset whose move vector is zero within `eps`. */
  lemma MovesShift(boxes: seq<Box>, offsets: seq<real>, axis: Vec3, eps: real, i: nat)
    requires |offsets| == |boxes| && DistinctIds(boxes) && IsUnit(axis) && i < |boxes|
    ensures var m := Moves(boxes, offsets, axis, eps);
      if boxes[i].id in m then Dot(m[boxes[i].id], axis) == offsets[i]
      else IsZeroLength(Scale(axis, offsets[i]), eps)
  {
    MovesSpec(boxes, offsets, axis, eps);
    DotScale(axis, offsets[i], axis);
  }

  /** A box whose compared position along `axis` is `base` reaches `target` under
      `m`: it moves by exactly the difference, or it stays and the move vector of that
      difference is zero within `eps`. */
  predicate Reaches(m: map<ElementId, Vec3>, id: ElementId, axis: Vec3, eps: real, base: real, target: real) {
    if id in m then base + Dot(m[id], axis) == target
    else IsZeroLength(Scale(axis, target - base), eps)
  }

  /** `MovesShift` for an offset `target - base`. */
  lemma MovesShiftTo(boxes: seq<Box>, offsets: seq<real>, axis: Vec3, eps: real, i: nat, base: real, target: real)
    requires |offsets| == |boxes| && DistinctIds(boxes) && IsUnit(axis) && i < |boxes|
    requires offsets[i] == target - base
    ensures Reaches(Moves(boxes, offsets, axis, eps), boxes[i].id, axis, eps, base, target)
  {
    MovesShift(boxes, offsets, axis, eps, i);
  }

  // ---------------------------------------------------------------------------
  // Edge alignment (Left, Right, Bottom, Top)

  /** The edge an alignment compares: the projected `Min` or the projected `Max`. */
  function EdgePos(b: Box, axis: Vec3, useMin: bool): real {
    if useMin then Lo(b, axis) else Hi(b, axis)
  }

  /** `boxes.Min(b => b.Box.Min.DotProduct(axis))` when `useMin`, otherwise
      `boxes.Max(b => b.Box.Max.DotProduct(axis))`: the group's extreme edge. */
  function EdgeTarget(boxes: seq<Box>, axis: Vec3, useMin: bool): (t: real)
    requires |boxes| > 0
    ensures exists i :: 0 <= i < |boxes| && t == EdgePos(boxes[i], axis, useMin)
    ensures forall i :: 0 <= i < |boxes| ==>
      if useMin then t <= EdgePos(boxes[i], axis, useMin) else EdgePos(boxes[i], axis, useMin) <= t
  {
    if |boxes| == 1 then EdgePos(boxes[0], axis, useMin)
    else
      var rest := EdgeTarget(boxes[1..], axis, useMin);
      var here := EdgePos(boxes[0], axis, useMin);
      assert forall i :: 1 <= i < |boxes| ==> boxes[i] == boxes[1..][i - 1];
      var k :| 0 <= k < |boxes[1..]| && rest == EdgePos(boxes[1..][k], axis, useMin);
      assert rest == EdgePos(boxes[k + 1], axis, useMin);
      if useMin then (if here <= rest then here else rest)
      else (if here >= rest then here else rest)
  }

  /** How far each box must travel along the axis to reach the group's edge. */
  function EdgeOffsets(boxes: seq<Box>, axis: Vec3, useMin: bool): (offs: seq<real>)
    requires |boxes| > 0
    ensures |offs| == |boxes|
  {
    var t := EdgeTarget(boxes, axis, useMin);
    seq(|boxes|, i requires 0 <= i < |boxes| => t - EdgePos(boxes[i], axis, useMin))
  }

  function EdgeMoves(boxes: seq<Box>, axis: Vec3, useMin: bool, eps: real): map<ElementId, Vec3>
    requires |boxes| > 0
  {
    Moves(boxes, EdgeOffsets(boxes, axis, useMin), axis, eps)
  }

  /** `AlignToEdge`: moves every box so that its compared edge reaches the extreme one. */
  method AlignToEdge(boxes: seq<Box>, axis: Vec3, useMin: bool, eps: real)
    returns (moves: map<ElementId, Vec3>)
    requires |boxes| > 0
    ensures moves == EdgeMoves(boxes, axis, useMin, eps)
  {
    var target := EdgeTarget(boxes, axis, useMin);
    ghost var offsets := EdgeOffsets(boxes, axis, useMin);
    moves := map[];
    var i := 0;
    while i < |boxes|
      invariant 0 <= i <= |boxes|
      invariant moves == Moves(boxes[..i], offsets[..i], axis, eps)
    {
      var currentPos := EdgePos(boxes[i], axis, useMin);
      var delta := Scale(axis, target - currentPos);
      if !IsZeroLength(delta, eps) {
        moves := moves[boxes[i].id := delta];
      }
      assert boxes[..i + 1][..i] == boxes[..i] && offsets[..i + 1][..i] == offsets[..i];
      i := i + 1;
    }
    assert boxes[..i] == boxes && offsets[..i] == offsets;
  }

  /** After an edge alignment along a unit axis, every moved box has its compared edge
      exactly on the group's extreme edge, and every box left in place was already
      within `eps` of it. */
  lemma EdgeAligned(boxes: seq<Box>, axis: Vec3, useMin: bool, eps: real, i: nat)
    requires |boxes| > 0 && DistinctIds(boxes) && IsUnit(axis) && i < |boxes|
    ensures Reaches(EdgeMoves(boxes, axis, useMin, eps), boxes[i].id, axis, eps,
                    EdgePos(boxes[i], axis, useMin), EdgeTarget(boxes, axis, useMin))
  {
    var offs := EdgeOffsets(boxes, axis, useMin);
    assert offs[i] == EdgeTarget(boxes, axis, useMin) - EdgePos(boxes[i], axis, useMin);
    MovesShiftTo(boxes, offs, axis, eps, i, EdgePos(boxes[i], axis, useMin), EdgeTarget(boxes, axis, useMin));
  }

  /** A box whose edge already is the group's extreme edge never moves. */
  lemma EdgeExtremeStays(boxes: seq<Box>, axis: Vec3, useMin: bool, eps: real, i: nat)
    requires |boxes| > 0 && DistinctIds(boxes) && eps > 0.0 && i < |boxes|
    requires EdgePos(boxes[i], axis, useMin) == EdgeTarget(boxes, axis, useMin)
    ensures boxes[i].id !in EdgeMoves(boxes, axis, useMin, eps)
  {
    var offs := EdgeOffsets(boxes, axis, useMin);
    MovesSpec(boxes, offs, axis, eps);
    assert offs[i] == 0.0;
    assert Scale(axis, offs[i]) == Zero;
    ZeroIsZeroLength(eps);
  }

  // ---------------------------------------------------------------------------
  // Center alignment (CenterX, CenterY)

  /** `(min + max) * 0.5` of the group's projected extent. */
  function CenterTarget(boxes: seq<Box>, axis: Vec3): real
    requires |boxes| > 0
  {
    (EdgeTarget(boxes, axis, true) + EdgeTarget(boxes, axis, false)) * 0.5
  }

  function CenterOffsets(boxes: seq<Box>, axis: Vec3): (offs: seq<real>)
    requires |boxes| > 0
    ensures |offs| == |boxes|
  {
    var t := CenterTarget(boxes, axis);
    seq(|boxes|, i requires 0 <= i < |boxes| => t - Center(boxes[i], axis))
  }

  function CenterMoves(boxes: seq<Box>, axis: Vec3, eps: real): map<ElementId, Vec3>
    requires |boxes| > 0
  {
    Moves(boxes, CenterOffsets(boxes, axis), axis, eps)
  }

  /** `AlignToCenter`: moves every box center onto the middle of the group's extent. */
  method AlignToCenter(boxes: seq<Box>, axis: Vec3, eps: real) returns (moves: map<ElementId, Vec3>)
    requires |boxes| > 0
    ensures moves == CenterMoves(boxes, axis, eps)
  {
    var min := EdgeTarget(boxes, axis, true);
    var max := EdgeTarget(boxes, axis, false);
    var targetPos := (min + max) * 0.5;
    ghost var offsets := CenterOffsets(boxes, axis);
    moves := map[];
    var i := 0;
    while i < |boxes|
      invariant 0 <= i <= |boxes|
      invariant moves == Moves(boxes[..i], offsets[..i], axis, eps)
    {
      var currentPos := Center(boxes[i], axis);
      var delta := Scale(axis, targetPos - currentPos);
      if !IsZeroLength(delta, eps) {
        moves := moves[boxes[i].id := delta];
      }
      assert boxes[..i + 1][..i] == boxes[..i] && offsets[..i + 1][..i] == offsets[..i];
      i := i + 1;
    }
    assert boxes[..i] == boxes && offsets[..i] == offsets;
  }

  /** After a center alignment along a unit axis, every moved box has its center at
      `(groupMin + groupMax) / 2`, where groupMin is the least projected `Min` and
      groupMax the greatest projected `Max`; a box left in place was within `eps`. */
  lemma CenterAligned(boxes: seq<Box>, axis: Vec3, eps: real, i: nat)
    requires |boxes| > 0 && DistinctIds(boxes) && IsUnit(axis) && i < |boxes|
    ensures Reaches(CenterMoves(boxes, axis, eps), boxes[i].id, axis, eps, Center(boxes[i], axis),
                    (EdgeTarget(boxes, axis, true) + EdgeTarget(boxes, axis, false)) / 2.0)
  {
    var offs := CenterOffsets(boxes, axis);
    var t := (EdgeTarget(boxes, axis, true) + EdgeTarget(boxes, axis, false)) / 2.0;
    assert offs[i] == t - Center(boxes[i], axis);
    MovesShiftTo(boxes, offs, axis, eps, i, Center(boxes[i], axis), t);
  }

  // ---------------------------------------------------------------------------
  // Distribution (DistributeHorizontally, DistributeVertically)

  /** Order of projected centers, the key of `OrderBy(x => x.Pos)`. */
  function CenterLe(axis: Vec3): (Box, Box) -> bool {
    (a: Box, b: Box) => Center(a, axis) <= Center(b, axis)
  }

  lemma CenterLeTotalPreorder(axis: Vec3)
    ensures TotalPreorder(CenterLe(axis))
  {
  }

  /** The boxes ordered by projected center (a stable sort). */
  function ByCenter(boxes: seq<Box>, axis: Vec3): (sorted: seq<Box>)
    ensures |sorted| == |boxes| && multiset(sorted) == multiset(boxes)
  {
    SortBy(boxes, CenterLe(axis))
  }

  lemma ByCenterSorted(boxes: seq<Box>, axis: Vec3)
    ensures var sorted := ByCenter(boxes, axis);
      forall i, j :: 0 <= i < j < |sorted| ==> Center(sorted[i], axis) <= Center(sorted[j], axis)
  {
    CenterLeTotalPreorder(axis);
    SortByIsSorted(boxes, CenterLe(axis));
    assert SortedBy(ByCenter(boxes, axis), CenterLe(axis));
  }

  /** Whether the span between the outer centers (`availableSpace`) leaves room for
      `totalSpacing = (n - 1) * minGap`. */
  predicate HasRoom(sorted: seq<Box>, axis: Vec3, minGap: real)
    requires |sorted| > 0
  {
    var n := |sorted|;
    var availableSpace := Center(sorted[n - 1], axis) - Center(sorted[0], axis);
    var totalSpacing := (n - 1) as real * minGap;
    !(availableSpace < totalSpacing)
  }

  /** The free space between neighbours once every gap holds `minGap`:
      `(available - (n - 1) * minGap) / (n - 1)`. */
  function Spacing(sorted: seq<Box>, axis: Vec3, minGap: real): real
    requires |sorted| > 0
  {
    var n := |sorted|;
    var available := Center(sorted[n - 1], axis) - Center(sorted[0], axis);
    // with a single box the source divides 0 by 0 here, and uses no target
    if n > 1 then (available - (n - 1) as real * minGap) / (n - 1) as real else 0.0
  }

  /** Where box `i` of the center order goes: `start + i * (spacing + minGap)`. */
  function DistributeTarget(sorted: seq<Box>, axis: Vec3, minGap: real, i: nat): real
    requires |sorted| > 0
  {
    Center(sorted[0], axis) + i as real * (Spacing(sorted, axis, minGap) + minGap)
  }

  /** The offset of each box of the center order towards its target. */
  function DistributeOffsets(sorted: seq<Box>, axis: Vec3, minGap: real): (offs: seq<real>)
    requires |sorted| > 0
    ensures |offs| == |sorted|
  {
    seq(|sorted|, j requires 0 <= j < |sorted| =>
      DistributeTarget(sorted, axis, minGap, j) - Center(sorted[j], axis))
  }

  /** The loop's moves: only the inner boxes `sorted[1..n-1]` are visited. */
  function InnerMoves(sorted: seq<Box>, axis: Vec3, minGap: real, eps: real): map<ElementId, Vec3>
    requires |sorted| > 0
  {
    var n := |sorted|;
    if n < 3 then map[]
    else Moves(sorted[1..n - 1], DistributeOffsets(sorted, axis, minGap)[1..n - 1], axis, eps)
  }

  /** Nothing moves when there is no room for the gaps. */
  function DistributeMoves(boxes: seq<Box>, axis: Vec3, minGap: real, eps: real): map<ElementId, Vec3>
    requires |boxes| > 0
  {
    var sorted := ByCenter(boxes, axis);
    if !HasRoom(sorted, axis, minGap) then map[] else InnerMoves(sorted, axis, minGap, eps)
  }

  /** `Distribute`: keeps the outermost boxes and spaces the centers of the others evenly. */
  method Distribute(boxes: seq<Box>, axis: Vec3, minGap: real, eps: real)
    returns (moves: map<ElementId, Vec3>)
    requires |boxes| > 0
    ensures moves == DistributeMoves(boxes, axis, minGap, eps)
  {
    var centers := ByCenter(boxes, axis);
    moves := map[];
    if !HasRoom(centers, axis, minGap) {
      return;
    }
    moves := SpaceInner(centers, axis, minGap, eps);
  }

  /** The loop of `Distribute` over the center order `centers`: each inner box is sent
      to `start + i * (spacing + minGap)`. */
  method SpaceInner(centers: seq<Box>, axis: Vec3, minGap: real, eps: real)
    returns (moves: map<ElementId, Vec3>)
    requires |centers| > 0
    ensures moves == InnerMoves(centers, axis, minGap, eps)
  {
    var count := |centers|;
    ghost var offsets := DistributeOffsets(centers, axis, minGap);
    ghost var inner, innerOffsets := centers[1..], offsets[1..];
    moves := map[];
    var i := 1;
    while i < count - 1
      invariant 1 <= i <= if count >= 2 then count - 1 else 1
      invariant moves == Moves(inner[..i - 1], innerOffsets[..i - 1], axis, eps)
    {
      var targetPos := DistributeTarget(centers, axis, minGap, i);
      var offset := targetPos - Center(centers[i], axis);
      var delta := Scale(axis, offset);
      ghost var k := i - 1;
      assert offset == innerOffsets[k] && centers[i] == inner[k];
      if !IsZeroLength(delta, eps) {
        moves := moves[centers[i].id := delta];
      }
      i := i + 1;
      MovesSnoc(inner, innerOffsets, axis, eps, k, i - 1);
    }
    assert count >= 3 ==> inner[..count - 2] == centers[1..count - 1] && innerOffsets[..count - 2] == offsets[1..count - 1];
  }

  /** Distribution never moves the first and last box of the center order (the boxes
      with the least and the greatest projected center). */
  lemma DistributeKeepsEnds(boxes: seq<Box>, axis: Vec3, minGap: real, eps: real)
    requires |boxes| > 0 && DistinctIds(boxes)
    ensures var sorted := ByCenter(boxes, axis);
      && sorted[0].id !in DistributeMoves(boxes, axis, minGap, eps)
      && sorted[|sorted| - 1].id !in DistributeMoves(boxes, axis, minGap, eps)
      && (forall i :: 0 <= i < |sorted| ==>
            Center(sorted[0], axis) <= Center(sorted[i], axis) <= Center(sorted[|sorted| - 1], axis))
  {
    var sorted := ByCenter(boxes, axis);
    var n := |sorted|;
    ByCenterSorted(boxes, axis);
    PermutationKeepsDistinctKeys(boxes, sorted, BoxId);
    if n >= 3 && HasRoom(sorted, axis, minGap) {
      var inner := sorted[1..n - 1];
      var offs := DistributeOffsets(sorted, axis, minGap)[1..n - 1];
      MovesKeys(inner, offs, axis, eps);
      forall i | 0 <= i < |inner|
        ensures inner[i].id != sorted[0].id && inner[i].id != sorted[n - 1].id
      {
        assert inner[i] == sorted[i + 1];
        assert BoxId(sorted[0]) != BoxId(sorted[i + 1]) && BoxId(sorted[i + 1]) != BoxId(sorted[n - 1]);
      }
    }
  }

  /** `start + i * (spacing + minGap)` is `start + i * (end - start) / (n - 1)`. */
  lemma EvenStep(startPos: real, endPos: real, minGap: real, n: nat, i: nat)
    requires n >= 2
    ensures var m := (n - 1) as real;
      startPos + i as real * ((endPos - startPos - m * minGap) / m + minGap)
        == startPos + i as real * (endPos - startPos) / m
  {
    var m := (n - 1) as real;
    var a := endPos - startPos;
    assert (a - m * minGap) / m == a / m - minGap;
    assert i as real * (a / m) == i as real * a / m;
  }

  /** The targets are evenly stepped whatever `minGap` is: box `i` of the center order
      goes to `start + i * (end - start) / (n - 1)`. */
  lemma DistributeTargetEven(sorted: seq<Box>, axis: Vec3, minGap: real, i: nat)
    requires |sorted| >= 2
    ensures var n := |sorted|;
      var startPos := Center(sorted[0], axis);
      DistributeTarget(sorted, axis, minGap, i)
        == startPos + i as real * (Center(sorted[n - 1], axis) - startPos) / (n - 1) as real
  {
    var n := |sorted|;
    var startPos, endPos := Center(sorted[0], axis), Center(sorted[n - 1], axis);
    assert Spacing(sorted, axis, minGap) == (endPos - startPos - (n - 1) as real * minGap) / (n - 1) as real;
    EvenStep(startPos, endPos, minGap, n, i);
  }

  /** Distribution sends each inner box of the center order (index `i` from 1 to n - 2)
      to its target along a unit axis; a box left in place was within `eps` of it. */
  lemma DistributeReachesTargets(boxes: seq<Box>, axis: Vec3, minGap: real, eps: real, i: nat)
    requires |boxes| >= 3 && DistinctIds(boxes) && IsUnit(axis)
    requires HasRoom(ByCenter(boxes, axis), axis, minGap)
    requires 1 <= i < |boxes| - 1
    ensures var sorted := ByCenter(boxes, axis);
      Reaches(DistributeMoves(boxes, axis, minGap, eps), sorted[i].id, axis, eps,
              Center(sorted[i], axis), DistributeTarget(sorted, axis, minGap, i))
  {
    var sorted := ByCenter(boxes, axis);
    var n := |sorted|;
    var inner := sorted[1..n - 1];
    var offs := DistributeOffsets(sorted, axis, minGap);
    var innerOffs := offs[1..n - 1];
    PermutationKeepsDistinctKeys(boxes, sorted, BoxId);
    assert DistinctIds(inner) by {
      forall p, q | 0 <= p < q < |inner| ensures BoxId(inner[p]) != BoxId(inner[q]) {
        assert inner[p] == sorted[p + 1] && inner[q] == sorted[q + 1];
      }
    }
    assert inner[i - 1] == sorted[i] && innerOffs[i - 1] == offs[i];
    assert offs[i] == DistributeTarget(sorted, axis, minGap, i) - Center(sorted[i], axis);
    MovesShiftTo(inner, innerOffs, axis, eps, i - 1, Center(sorted[i], axis), DistributeTarget(sorted, axis, minGap, i));
    assert DistributeMoves(boxes, axis, minGap, eps) == Moves(inner, innerOffs, axis, eps);
  }

  /** Without room for the gaps, distribution moves nothing. */
  lemma DistributeNoRoom(boxes: seq<Box>, axis: Vec3, minGap: real, eps: real)
    requires |boxes| > 0 && !HasRoom(ByCenter(boxes, axis), axis, minGap)
    ensures DistributeMoves(boxes, axis, minGap, eps) == map[]
  {
  }

  // ---------------------------------------------------------------------------
  // Untangling (UntangleHorizontally, UntangleVertically)

  /** Order of projected `Min`, the key of `OrderBy(x => x.Min)`. */
  function LoLe(axis: Vec3): (Box, Box) -> bool {
    (a: Box, b: Box) => Lo(a, axis) <= Lo(b, axis)
  }

  lemma LoLeTotalPreorder(axis: Vec3)
    ensures TotalPreorder(LoLe(axis))
  {
  }

  /** The boxes ordered by projected `Min` (a stable sort). */
  function ByLo(boxes: seq<Box>, axis: Vec3): (sorted: seq<Box>)
    ensures |sorted| == |boxes| && multiset(sorted) == multiset(boxes)
    ensures forall i, j :: 0 <= i < j < |sorted| ==> Lo(sorted[i], axis) <= Lo(sorted[j], axis)
  {
    LoLeTotalPreorder(axis);
    SortByIsSorted(boxes, LoLe(axis));
    SortBy(boxes, LoLe(axis))
  }

  /** The sweep's state: `currentEnd`, the offset given to each item visited so far
      (0 for an item left in place) and the `moveDelta` dictionary. */
  datatype Sweep = Sweep(currentEnd: real, offsets: seq<real>, moves: map<ElementId, Vec3>)

  /** One step of the sweep: an item starting before `currentEnd + minGap - eps` is pushed
      forward to start exactly at `currentEnd + minGap`. */
  function SweepStep(s: Sweep, item: Box, axis: Vec3, minGap: real, eps: real): Sweep {
    if Lo(item, axis) < s.currentEnd + minGap - eps then
      var offset := s.currentEnd + minGap - Lo(item, axis);
      Sweep(Max(s.currentEnd, Hi(item, axis) + offset), s.offsets + [offset],
            s.moves[item.id := Scale(axis, offset)])
    else
      Sweep(Max(s.currentEnd, Hi(item, axis)), s.offsets + [0.0], s.moves)
  }

  /** The sweep's state after visiting `items[..k]`; the first item only sets `currentEnd`. */
  function SweepPrefix(items: seq<Box>, k: nat, axis: Vec3, minGap: real, eps: real): (s: Sweep)
    requires 1 <= k <= |items|
    ensures |s.offsets| == k
  {
    if k == 1 then Sweep(Hi(items[0], axis), [0.0], map[])
    else SweepStep(SweepPrefix(items, k - 1, axis, minGap, eps), items[k - 1], axis, minGap, eps)
  }

  function UntangleMoves(boxes: seq<Box>, axis: Vec3, minGap: real, eps: real): map<ElementId, Vec3> {
    var items := ByLo(boxes, axis);
    if |items| < 2 then map[] else SweepPrefix(items, |items|, axis, minGap, eps).moves
  }

  /** `Untangle`: one forward sweep in order of projected `Min`, pushing each item that
      overlaps (or comes closer than `minGap` to) the items before it. */
  method Untangle(boxes: seq<Box>, axis: Vec3, minGap: real, eps: real)
    returns (moves: map<ElementId, Vec3>)
    ensures moves == UntangleMoves(boxes, axis, minGap, eps)
  {
    var items := ByLo(boxes, axis);
    moves := map[];
    if |items| < 2 {
      return;
    }
    var currentEnd := Hi(items[0], axis);
    var i := 1;
    while i < |items|
      invariant 1 <= i <= |items|
      invariant currentEnd == SweepPrefix(items, i, axis, minGap, eps).currentEnd
      invariant moves == SweepPrefix(items, i, axis, minGap, eps).moves
    {
      var item := items[i];
      if Lo(item, axis) < currentEnd + minGap - eps {
        var offset := currentEnd + minGap - Lo(item, axis);
        var delta := Scale(axis, offset);
        moves := moves[item.id := delta];
        var newMax := Hi(item, axis) + offset;
        currentEnd := Max(currentEnd, newMax);
      } else {
        currentEnd := Max(currentEnd, Hi(item, axis));
      }
      i := i + 1;
    }
  }

  /** Projected `Min` and `Max` of item `i` after its offset. */
  function NewLo(items: seq<Box>, offs: seq<real>, axis: Vec3, i: nat): real
    requires i < |items| && i < |offs|
  {
    Lo(items[i], axis) + offs[i]
  }

  function NewHi(items: seq<Box>, offs: seq<real>, axis: Vec3, i: nat): real
    requires i < |items| && i < |offs|
  {
    Hi(items[i], axis) + offs[i]
  }

  /** The greatest new `Max` among `items[..k]`. */
  function MaxNewHi(items: seq<Box>, offs: seq<real>, axis: Vec3, k: nat): (m: real)
    requires 1 <= k <= |items| && k <= |offs|
    ensures forall j :: 0 <= j < k ==> NewHi(items, offs, axis, j) <= m
    ensures exists j :: 0 <= j < k && NewHi(items, offs, axis, j) == m
  {
    if k == 1 then NewHi(items, offs, axis, 0)
    else Max(MaxNewHi(items, offs, axis, k - 1), NewHi(items, offs, axis, k - 1))
  }

  /** Earlier steps of the sweep are never revised. */
  lemma {:induction false} SweepPrefixStable(items: seq<Box>, j: nat, k: nat, axis: Vec3, minGap: real, eps: real)
    requires 1 <= j <= k <= |items|
    ensures SweepPrefix(items, k, axis, minGap, eps).offsets[..j] == SweepPrefix(items, j, axis, minGap, eps).offsets
    decreases k
  {
    if j < k {
      SweepPrefixStable(items, j, k - 1, axis, minGap, eps);
      var pre := SweepPrefix(items, k - 1, axis, minGap, eps).offsets;
      assert SweepPrefix(items, k, axis, minGap, eps).offsets[..k - 1] == pre;
    }
  }

  /** `MaxNewHi` looks only at the first `k` offsets. */
  lemma {:induction false} MaxNewHiPrefix(items: seq<Box>, offs: seq<real>, offs2: seq<real>, axis: Vec3, k: nat)
    requires 1 <= k <= |items| && k <= |offs| && k <= |offs2| && offs[..k] == offs2[..k]
    ensures MaxNewHi(items, offs, axis, k) == MaxNewHi(items, offs2, axis, k)
  {
    assert offs[k - 1] == offs[..k][k - 1];
    if k > 1 {
      assert offs[..k - 1] == offs[..k][..k - 1];
      assert offs2[..k - 1] == offs2[..k][..k - 1];
      MaxNewHiPrefix(items, offs, offs2, axis, k - 1);
    }
  }

  /** `currentEnd` is the greatest new `Max` of the items visited so far. */
  lemma {:induction false} SweepEnd(items: seq<Box>, k: nat, axis: Vec3, minGap: real, eps: real)
    requires 1 <= k <= |items|
    ensures var s := SweepPrefix(items, k, axis, minGap, eps);
      s.currentEnd == MaxNewHi(items, s.offsets, axis, k)
  {
    var s := SweepPrefix(items, k, axis, minGap, eps);
    if k > 1 {
      SweepEnd(items, k - 1, axis, minGap, eps);
      var p := SweepPrefix(items, k - 1, axis, minGap, eps);
      SweepPrefixStable(items, k - 1, k, axis, minGap, eps);
      MaxNewHiPrefix(items, s.offsets, p.offsets, axis, k - 1);
    }
  }

  /** The offset one sweep step records for `item`, against `bound = currentEnd + minGap`. */
  lemma SweepStepOffset(s: Sweep, item: Box, axis: Vec3, minGap: real, eps: real)
    requires eps >= 0.0
    ensures var off := SweepStep(s, item, axis, minGap, eps).offsets[|s.offsets|];
      && (off == 0.0 || off > eps)
      && Lo(item, axis) + off >= s.currentEnd + minGap - eps
      && (off == 0.0 <==> Lo(item, axis) >= s.currentEnd + minGap - eps)
      && (off != 0.0 ==> Lo(item, axis) + off == s.currentEnd + minGap)
  {
  }

  /** The sweep's state after one more item. */
  lemma SweepPrefixNext(items: seq<Box>, k: nat, next: nat, axis: Vec3, minGap: real, eps: real)
    requires 1 <= k < |items| && next == k + 1
    ensures SweepPrefix(items, next, axis, minGap, eps)
      == SweepStep(SweepPrefix(items, k, axis, minGap, eps), items[k], axis, minGap, eps)
  {
  }

  /** The final offset of item `i` is the one recorded when it was visited. */
  lemma FinalOffset(items: seq<Box>, i: nat, axis: Vec3, minGap: real, eps: real)
    requires 1 <= i < |items|
    ensures SweepPrefix(items, |items|, axis, minGap, eps).offsets[i]
      == SweepPrefix(items, i + 1, axis, minGap, eps).offsets[i]
  {
    var offs := SweepPrefix(items, |items|, axis, minGap, eps).offsets;
    SweepPrefixStable(items, i + 1, |items|, axis, minGap, eps);
    assert offs[i] == offs[..i + 1][i];
  }

  /** The `currentEnd` met by item `i` is the greatest new `Max` before it, computed with
      the final offsets. */
  lemma FinalEndBefore(items: seq<Box>, i: nat, axis: Vec3, minGap: real, eps: real)
    requires 1 <= i < |items|
    ensures MaxNewHi(items, SweepPrefix(items, |items|, axis, minGap, eps).offsets, axis, i)
      == SweepPrefix(items, i, axis, minGap, eps).currentEnd
  {
    var offs := SweepPrefix(items, |items|, axis, minGap, eps).offsets;
    var before := SweepPrefix(items, i, axis, minGap, eps);
    SweepEnd(items, i, axis, minGap, eps);
    SweepPrefixStable(items, i, |items|, axis, minGap, eps);
    MaxNewHiPrefix(items, offs, before.offsets, axis, i);
  }

  /** Item `i` of the sweep, against the greatest new `Max` of the items before it. */
  lemma UntangleStep(items: seq<Box>, i: nat, axis: Vec3, minGap: real, eps: real)
    requires 1 <= i < |items| && eps >= 0.0
    ensures var offs := SweepPrefix(items, |items|, axis, minGap, eps).offsets;
      && (offs[i] == 0.0 || offs[i] > eps)
      && NewLo(items, offs, axis, i) >= MaxNewHi(items, offs, axis, i) + minGap - eps
      && (offs[i] == 0.0 <==> Lo(items[i], axis) >= MaxNewHi(items, offs, axis, i) + minGap - eps)
      && (offs[i] != 0.0 ==> NewLo(items, offs, axis, i) == MaxNewHi(items, offs, axis, i) + minGap)
  {
    var before := SweepPrefix(items, i, axis, minGap, eps);
    var next := i + 1;
    SweepPrefixNext(items, i, next, axis, minGap, eps);
    SweepStepOffset(before, items[i], axis, minGap, eps);
    FinalOffset(items, i, axis, minGap, eps);
    FinalEndBefore(items, i, axis, minGap, eps);
  }

  /** The untangle sweep in full: the first item never moves; every item is moved
      forward only (by more than `eps`) or not at all; after the sweep each item starts
      at least `minGap - eps` after the greatest new `Max` before it; an item that
      already did is left in place, and a moved item starts exactly `minGap` after it. */
  lemma UntangleSweep(items: seq<Box>, axis: Vec3, minGap: real, eps: real)
    requires |items| >= 2 && eps >= 0.0
    ensures var offs := SweepPrefix(items, |items|, axis, minGap, eps).offsets;
      && offs[0] == 0.0
      && (forall i :: 1 <= i < |items| ==> offs[i] == 0.0 || offs[i] > eps)
      && (forall i :: 1 <= i < |items| ==>
            NewLo(items, offs, axis, i) >= MaxNewHi(items, offs, axis, i) + minGap - eps)
      && (forall i :: 1 <= i < |items| ==>
            (offs[i] == 0.0 <==> Lo(items[i], axis) >= MaxNewHi(items, offs, axis, i) + minGap - eps))
      && (forall i :: 1 <= i < |items| && offs[i] != 0.0 ==>
            NewLo(items, offs, axis, i) == MaxNewHi(items, offs, axis, i) + minGap)
  {
    var n := |items|;
    var offs := SweepPrefix(items, n, axis, minGap, eps).offsets;
    SweepPrefixStable(items, 1, n, axis, minGap, eps);
    assert offs[0] == offs[..1][0];
    forall i | 1 <= i < n
      ensures offs[i] == 0.0 || offs[i] > eps
      ensures NewLo(items, offs, axis, i) >= MaxNewHi(items, offs, axis, i) + minGap - eps
      ensures offs[i] == 0.0 <==> Lo(items[i], axis) >= MaxNewHi(items, offs, axis, i) + minGap - eps
      ensures offs[i] != 0.0 ==> NewLo(items, offs, axis, i) == MaxNewHi(items, offs, axis, i) + minGap
    {
      UntangleStep(items, i, axis, minGap, eps);
    }
  }

  /** One sweep step appends the item's offset, and records a move of `offset * axis`
      for it exactly when that offset is positive. */
  lemma SweepStepMoves(s: Sweep, item: Box, axis: Vec3, minGap: real, eps: real)
    requires eps >= 0.0
    ensures var t := SweepStep(s, item, axis, minGap, eps);
      var off := t.offsets[|s.offsets|];
      && t.offsets == s.offsets + [off]
      && (off > 0.0 ==> t.moves == s.moves[item.id := Scale(axis, off)])
      && (!(off > 0.0) ==> t.moves == s.moves)
  {
  }

  /** `s.moves` holds exactly the items among the first `k` whose offset is positive,
      each moved by `offset * axis`, and no other element. */
  ghost predicate MovesMatch(items: seq<Box>, k: nat, s: Sweep, axis: Vec3)
    requires k <= |items| && |s.offsets| == k
  {
    && (forall id :: id in s.moves ==> exists i :: 0 <= i < k && items[i].id == id)
    && (forall i :: 0 <= i < k ==> (items[i].id in s.moves <==> s.offsets[i] > 0.0))
    && (forall i :: 0 <= i < k && items[i].id in s.moves ==> s.moves[items[i].id] == Scale(axis, s.offsets[i]))
  }

  /** A sweep step over an item whose id is new keeps `MovesMatch`. */
  lemma SweepStepMatch(items: seq<Box>, j: nat, p: Sweep, axis: Vec3, minGap: real, eps: real)
    requires j < |items| && |p.offsets| == j && DistinctIds(items) && eps >= 0.0
    requires MovesMatch(items, j, p, axis)
    ensures MovesMatch(items, j + 1, SweepStep(p, items[j], axis, minGap, eps), axis)
  {
    var s := SweepStep(p, items[j], axis, minGap, eps);
    SweepStepMoves(p, items[j], axis, minGap, eps);
    forall i | 0 <= i < j ensures items[i].id != items[j].id && s.offsets[i] == p.offsets[i] {
      assert BoxId(items[i]) != BoxId(items[j]);
    }
    assert items[j].id !in p.moves;
  }

  /** With distinct ids, the item at position `i` of the sweep is in `moveDelta` exactly
      when its offset is positive, and its move is `offset * axis`. */
  lemma {:induction false} SweepMoves(items: seq<Box>, k: nat, axis: Vec3, minGap: real, eps: real)
    requires 1 <= k <= |items| && DistinctIds(items) && eps >= 0.0
    ensures MovesMatch(items, k, SweepPrefix(items, k, axis, minGap, eps), axis)
  {
    if k > 1 {
      var j := k - 1;
      SweepMoves(items, j, axis, minGap, eps);
      SweepPrefixNext(items, j, k, axis, minGap, eps);
      SweepStepMatch(items, j, SweepPrefix(items, j, axis, minGap, eps), axis, minGap, eps);
    }
  }

  /** Untangling along an axis never moves the item with the least projected `Min`,
      moves items forward only, and leaves fewer than two items alone. */
  lemma UntangleForward(boxes: seq<Box>, axis: Vec3, minGap: real, eps: real)
    requires DistinctIds(boxes) && eps >= 0.0
    ensures |boxes| < 2 ==> UntangleMoves(boxes, axis, minGap, eps) == map[]
    ensures |boxes| >= 2 ==> ByLo(boxes, axis)[0].id !in UntangleMoves(boxes, axis, minGap, eps)
    ensures forall id :: id in UntangleMoves(boxes, axis, minGap, eps) ==>
      exists k: real :: k > eps && UntangleMoves(boxes, axis, minGap, eps)[id] == Scale(axis, k)
  {
    var items := ByLo(boxes, axis);
    var n := |items|;
    if n >= 2 {
      PermutationKeepsDistinctKeys(boxes, items, BoxId);
      SweepMoves(items, n, axis, minGap, eps);
      UntangleSweep(items, axis, minGap, eps);
      var s := SweepPrefix(items, n, axis, minGap, eps);
      forall id | id in s.moves ensures exists k: real :: k > eps && s.moves[id] == Scale(axis, k) {
        var i :| 0 <= i < n && items[i].id == id;
        assert s.moves[id] == Scale(axis, s.offsets[i]);
      }
    }
  }

  // ---------------------------------------------------------------------------
  // The command

  /** The elements that have a bounding box, in selection order. */
  function Present(selection: seq<Option<Box>>): (boxes: seq<Box>)
    ensures |boxes| <= |selection|
    ensures forall b :: b in boxes <==> Some(b) in selection
  {
    if selection == [] then []
    else
      var rest := Present(selection[1..]);
      assert forall o :: o in selection <==> o == selection[0] || o in selection[1..];
      match selection[0]
      case Some(b) => [b] + rest
      case None => rest
  }

  /** The boxes are kept in selection order: a further element adds its box, if it has
      one, at the end. */
  lemma {:induction false} PresentSnoc(selection: seq<Option<Box>>, o: Option<Box>)
    ensures Present(selection + [o]) == Present(selection) + (if o.Some? then [o.value] else [])
  {
    if selection != [] {
      assert (selection + [o])[1..] == selection[1..] + [o];
      PresentSnoc(selection[1..], o);
    }
  }

  /** The moves issued for each alignment type; distribution needs three boxes. */
  function Plan(kind: AlignType, boxes: seq<Box>, right: Vec3, up: Vec3, minGap: real, eps: real)
    : map<ElementId, Vec3>
    requires |boxes| > 0
  {
    match kind
    case Left => EdgeMoves(boxes, right, true, eps)
    case Right => EdgeMoves(boxes, right, false, eps)
    case Bottom => EdgeMoves(boxes, up, true, eps)
    case Top => EdgeMoves(boxes, up, false, eps)
    case CenterX => CenterMoves(boxes, right, eps)
    case CenterY => CenterMoves(boxes, up, eps)
    case DistributeHorizontally => if |boxes| >= 3 then DistributeMoves(boxes, right, minGap, eps) else map[]
    case DistributeVertically => if |boxes| >= 3 then DistributeMoves(boxes, up, minGap, eps) else map[]
    case UntangleHorizontally => UntangleMoves(boxes, right, minGap, eps)
    case UntangleVertically => UntangleMoves(boxes, up, minGap, eps)
  }

  /** `AlignElements`: with fewer than two selected elements the command is cancelled;
      with fewer than two bounding boxes it fails and moves nothing; otherwise it
      succeeds with the moves of the chosen operation. `selection` holds one entry per
      selected element, `None` when it has no bounding box in the view. */
  method AlignElements(kind: AlignType, selection: seq<Option<Box>>, right: Vec3, up: Vec3,
                       minGap: real, eps: real)
    returns (result: Result, moves: map<ElementId, Vec3>)
    ensures |selection| < 2 ==> result == Cancelled && moves == map[]
    ensures |selection| >= 2 && |Present(selection)| < 2 ==> result == Failed && moves == map[]
    ensures |selection| >= 2 && |Present(selection)| >= 2 ==>
      result == Succeeded && moves == Plan(kind, Present(selection), right, up, minGap, eps)
  {
    moves := map[];
    if |selection| < 2 {
      return Cancelled, moves;
    }
    var boxes := Present(selection);
    if |boxes| < 2 {
      return Failed, moves;
    }
    match kind {
      case Left => moves := AlignToEdge(boxes, right, true, eps);
      case Right => moves := AlignToEdge(boxes, right, false, eps);
      case Bottom => moves := AlignToEdge(boxes, up, true, eps);
      case Top => moves := AlignToEdge(boxes, up, false, eps);
      case CenterX => moves := AlignToCenter(boxes, right, eps);
      case CenterY => moves := AlignToCenter(boxes, up, eps);
      case DistributeHorizontally =>
        if |boxes| >= 3 { moves := Distribute(boxes, right, minGap, eps); }
      case DistributeVertically =>
        if |boxes| >= 3 { moves := Distribute(boxes, up, minGap, eps); }
      case UntangleHorizontally => moves := Untangle(boxes, right, minGap, eps);
      case UntangleVertically => moves := Untangle(boxes, up, minGap, eps);
    }
    result := Succeeded;
  }
}
