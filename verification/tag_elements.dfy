/** `TagElementsViewModel`: tags the selected (or picked) pipes of the active view with
    elevation and diameter tags. The tag option decides how many tags each pipe gets and
    where their heads go; the pipe-length box of the selected option gives a minimum
    length below which pipes are not tagged; a new tag is only placed where no tag is
    already near its head. */
module TagElements {
  import opened Wrappers
  import opened Seqs
  import opened Text
  import opened Geometry
  import opened Revit

  // ---------------------------------------------------------------------------
  // Options and length boxes

  /** `TagOption`. */
  datatype TagOption =
    | OnlyElevation
    | OnlyDiameter
    | ElevMinusDia
    | ElevDiaByLength
    | StartEndElevation
    | StartEndElevationMinusDia

  /** The option's value in the enum, 1 to 6. */
  function Code(option: TagOption): (n: nat)
    ensures 1 <= n <= 6
  {
    match option
    case OnlyElevation => 1
    case OnlyDiameter => 2
    case ElevMinusDia => 3
    case ElevDiaByLength => 4
    case StartEndElevation => 5
    case StartEndElevationMinusDia => 6
  }

  /** The six pipe-length boxes (`Length1` .. `Length6`); `None` is a null string. */
  datatype Lengths = Lengths(
    length1: Option<string>, length2: Option<string>, length3: Option<string>,
    length4: Option<string>, length5: Option<string>, length6: Option<string>)

  /** `LengthN` for `n` in 1..6. */
  function Field(lengths: Lengths, n: nat): Option<string> {
    if n == 1 then lengths.length1
    else if n == 2 then lengths.length2
    else if n == 3 then lengths.length3
    else if n == 4 then lengths.length4
    else if n == 5 then lengths.length5
    else if n == 6 then lengths.length6
    else None
  }

  /** `IsLenNEnabled`: box `n` is enabled when the selected option is the one it belongs to. */
  predicate IsLenEnabled(option: TagOption, n: nat) {
    if n == 1 then option == OnlyElevation
    else if n == 2 then option == OnlyDiameter
    else if n == 3 then option == ElevMinusDia
    else if n == 4 then option == ElevDiaByLength
    else if n == 5 then option == StartEndElevation
    else if n == 6 then option == StartEndElevationMinusDia
    else false
  }

  /** The text `TryGetActiveMinLengthFeet` reads for the option. */
  function ActiveLengthText(option: TagOption, lengths: Lengths): Option<string> {
    match option
    case OnlyElevation => lengths.length1
    case OnlyDiameter => lengths.length2
    case ElevMinusDia => lengths.length3
    case ElevDiaByLength => lengths.length4
    case StartEndElevation => lengths.length5
    case StartEndElevationMinusDia => lengths.length6
  }

  /** Exactly one length box is enabled, the one numbered by the option's value, and it is
      the box the minimum length is read from. */
  lemma ActiveLengthIsEnabledBox(option: TagOption, lengths: Lengths)
    ensures IsLenEnabled(option, Code(option))
    ensures forall n :: IsLenEnabled(option, n) ==> n == Code(option)
    ensures ActiveLengthText(option, lengths) == Field(lengths, Code(option))
  {
  }

  // ---------------------------------------------------------------------------
  // Length parsing

  /** Millimetres per foot, the internal length unit. */
  const MmPerFoot: real := 304.8

  /** `UnitUtils.ConvertToInternalUnits(mm, UnitTypeId.Millimeters)`. */
  function MmToFeet(mm: real): (feet: real)
    ensures feet * MmPerFoot == mm
    ensures mm >= 0.0 ==> feet >= 0.0
  {
    mm / MmPerFoot
  }

  /** The text handed to the number parser: trimmed, with commas read as decimal points. */
  function Normalized(text: string): string {
    ReplaceChar(Trim(text), ',', '.')
  }

  /** `TryParseMmToFeetOptional`: a blank (or null) box gives 0; otherwise the normalised
      text must parse (`parse` stands for `double.TryParse` with the invariant culture) to a
      non-negative millimetre value, which is converted to feet. `None` is failure. */
  function TryParseMmToFeetOptional(text: Option<string>, parse: string -> Option<real>): Option<real> {
    if IsNullOrWhiteSpace(text) then Some(0.0)
    else
      match parse(Normalized(text.value))
      case None => None
      case Some(mm) => if mm < 0.0 then None else Some(MmToFeet(mm))
  }

  /** Blank succeeds with 0; a non-blank text succeeds exactly when it parses to a
      non-negative number, giving that many millimetres in feet; a result is never
      negative. */
  lemma TryParseMmToFeetSpec(text: Option<string>, parse: string -> Option<real>)
    ensures IsNullOrWhiteSpace(text) ==> TryParseMmToFeetOptional(text, parse) == Some(0.0)
    ensures !IsNullOrWhiteSpace(text) ==>
      (TryParseMmToFeetOptional(text, parse).Some? <==>
        parse(Normalized(text.value)).Some? && parse(Normalized(text.value)).value >= 0.0)
    ensures !IsNullOrWhiteSpace(text) && TryParseMmToFeetOptional(text, parse).Some? ==>
      TryParseMmToFeetOptional(text, parse).value * MmPerFoot == parse(Normalized(text.value)).value
    ensures TryParseMmToFeetOptional(text, parse).Some? ==> TryParseMmToFeetOptional(text, parse).value >= 0.0
  {
  }

  /** A comma and a decimal point read the same: writing points for the commas of a box
      does not change what it parses to. */
  lemma CommaIsDecimalPoint(text: string, parse: string -> Option<real>)
    ensures TryParseMmToFeetOptional(Some(ReplaceChar(text, ',', '.')), parse)
      == TryParseMmToFeetOptional(Some(text), parse)
  {
    var dotted := ReplaceChar(text, ',', '.');
    TrimReplaceChar(text, ',', '.');
    var t := Trim(text);
    var a, b := ReplaceChar(ReplaceChar(t, ',', '.'), ',', '.'), ReplaceChar(t, ',', '.');
    assert a == b;
    assert Normalized(dotted) == Normalized(text);
  }

  // ---------------------------------------------------------------------------
  // Tag families

  /** A tag `FamilySymbol`: its id, its family's name (null possible) and its own name. */
  datatype FamilySymbol = FamilySymbol(id: ElementId, familyName: Option<string>, name: string)

  /** `TagFamilyType`: a symbol id and the text the combo boxes show. */
  datatype TagFamilyType = TagFamilyType(symbolId: ElementId, name: string)

  /** `"{family ?? "Family"} : {name}"`. */
  function TypeOf(symbol: FamilySymbol): TagFamilyType {
    TagFamilyType(symbol.id, symbol.familyName.GetOr("Family") + " : " + symbol.name)
  }

  function NameOf(t: TagFamilyType): string {
    t.name
  }

  /** The entry listed when no tag family was found. */
  const Placeholder: TagFamilyType := TagFamilyType(InvalidElementId, "(No pipe tag families found)")

  /** One entry per display name (the first symbol with it), ordered by name. */
  function Loaded(symbols: seq<FamilySymbol>): seq<TagFamilyType> {
    SortBy(DistinctBy(Map(symbols, TypeOf), NameOf), ByKey(NameOf, LexLe))
  }

  /** `LoadPipeTagTypes`: the pipe, pipe-fitting and pipe-accessory tag symbols loaded; the
      placeholder alone when there is none. */
  function LoadPipeTagTypes(pipeTags: seq<FamilySymbol>, fittingTags: seq<FamilySymbol>, accessoryTags: seq<FamilySymbol>): seq<TagFamilyType> {
    var items := Loaded(pipeTags + fittingTags + accessoryTags);
    if items == [] then [Placeholder] else items
  }

  /** With no symbol, the placeholder alone; otherwise the loaded entries, of which there is
      at least one. */
  lemma LoadPipeTagTypesSpec(pipeTags: seq<FamilySymbol>, fittingTags: seq<FamilySymbol>, accessoryTags: seq<FamilySymbol>)
    ensures pipeTags + fittingTags + accessoryTags == [] ==> LoadPipeTagTypes(pipeTags, fittingTags, accessoryTags) == [Placeholder]
    ensures pipeTags + fittingTags + accessoryTags != [] ==>
      LoadPipeTagTypes(pipeTags, fittingTags, accessoryTags) == Loaded(pipeTags + fittingTags + accessoryTags) != []
  {
    var symbols := pipeTags + fittingTags + accessoryTags;
    if symbols != [] {
      LoadedCover(symbols);
      var i :| 0 <= i < |Loaded(symbols)| && Loaded(symbols)[i].name == TypeOf(symbols[0]).name;
    }
  }

  /** The loaded names are pairwise different and in order. */
  lemma LoadedOrdered(symbols: seq<FamilySymbol>)
    ensures forall i, j :: 0 <= i < j < |Loaded(symbols)| ==> Loaded(symbols)[i].name != Loaded(symbols)[j].name
    ensures SortedBy(Map(Loaded(symbols), NameOf), LexLe)
  {
    var unique := DistinctBy(Map(symbols, TypeOf), NameOf);
    PermutationKeepsDistinctKeys(unique, Loaded(symbols), NameOf);
    SortByKey(unique, NameOf, LexLe);
    LexLeIsTotalPreorder();
    SortByIsSorted(Map(unique, NameOf), LexLe);
  }

  /** Every loaded entry is the entry of some symbol. */
  lemma LoadedSound(symbols: seq<FamilySymbol>)
    ensures forall i :: 0 <= i < |Loaded(symbols)| ==> exists k :: 0 <= k < |symbols| && Loaded(symbols)[i] == TypeOf(symbols[k])
  {
    var types := Map(symbols, TypeOf);
    var unique := DistinctBy(types, NameOf);
    var sorted := Loaded(symbols);
    forall i | 0 <= i < |sorted| ensures exists k :: 0 <= k < |symbols| && sorted[i] == TypeOf(symbols[k]) {
      assert sorted[i] in multiset(unique);
      var p :| 0 <= p < |types| && types[p] == sorted[i];
    }
  }

  /** Every symbol's name is loaded. */
  lemma LoadedCover(symbols: seq<FamilySymbol>)
    ensures forall k :: 0 <= k < |symbols| ==> exists i :: 0 <= i < |Loaded(symbols)| && Loaded(symbols)[i].name == TypeOf(symbols[k]).name
  {
    var types := Map(symbols, TypeOf);
    var unique := DistinctBy(types, NameOf);
    var sorted := Loaded(symbols);
    forall k | 0 <= k < |symbols| ensures exists i :: 0 <= i < |sorted| && sorted[i].name == TypeOf(symbols[k]).name {
      DistinctByCovers(types, NameOf, types[k]);
      var q :| 0 <= q < |unique| && NameOf(unique[q]) == NameOf(types[k]);
      assert unique[q] in multiset(sorted);
    }
  }

  /** `CanCreate`: both families chosen, neither the placeholder's invalid id, and the
      active length box valid (or blank). */
  predicate CanCreateFrom(elevation: Option<TagFamilyType>, diameter: Option<TagFamilyType>, minLength: Option<real>) {
    if elevation.None? || diameter.None? then false
    else if elevation.value.symbolId == InvalidElementId then false
    else if diameter.value.symbolId == InvalidElementId then false
    else minLength.Some?
  }

  /** When no tag family exists, the first (and only) entry cannot create tags. */
  lemma NoFamiliesCannotCreate(minLength: Option<real>)
    ensures var first := LoadPipeTagTypes([], [], [])[0];
      !CanCreateFrom(Some(first), Some(first), minLength)
  {
    assert LoadPipeTagTypes([], [], []) == [Placeholder] by {
      LoadPipeTagTypesSpec([], [], []);
    }
  }

  // ---------------------------------------------------------------------------
  // Where tags go

  /** `ProjectOnPlane`: `v` minus its component along `n`. */
  function ProjectOnPlane(v: Vec3, n: Vec3): Vec3 {
    Sub(v, Scale(n, Dot(v, n)))
  }

  /** Against a unit normal the projection has no normal component, and projecting again
      changes nothing. */
  lemma ProjectOnPlaneSpec(v: Vec3, n: Vec3)
    requires IsUnit(n)
    ensures Dot(ProjectOnPlane(v, n), n) == 0.0
    ensures ProjectOnPlane(ProjectOnPlane(v, n), n) == ProjectOnPlane(v, n)
  {
    var d := Dot(v, n);
    calc {
      Dot(ProjectOnPlane(v, n), n);
      Dot(v, n) - Dot(Scale(n, d), n);
      { DotScale(n, d, n); }
      d - d * Dot(n, n);
      d - d * 1.0;
    }
    assert Scale(n, 0.0) == Zero;
  }

  /** Which of the two chosen families a tag uses. */
  datatype TagKind = Elevation | Diameter

  /** A tag to place: its head position and its family. */
  datatype Placement = Placement(head: Vec3, kind: TagKind)

  /** A pipe's location curve: end points `GetEndPoint(0)` and `GetEndPoint(1)`, the point
      `Evaluate(0.5, true)` halfway along it, and its length. */
  datatype Curve = Curve(start: Vec3, end: Vec3, middle: Vec3, length: real)

  /** The view directions and the layout distances, in feet. */
  datatype Frame = Frame(up: Vec3, right: Vec3, nudgeUp: real, pairGap: real)

  /** A point lifted by `nudgeUp` along the view's up direction. */
  function Lift(p: Vec3, frame: Frame): Vec3 {
    Add(p, Scale(frame.up, frame.nudgeUp))
  }

  /** Half a pair gap to the left of `p`. */
  function LeftOf(p: Vec3, frame: Frame): Vec3 {
    Sub(p, Scale(frame.right, frame.pairGap * 0.5))
  }

  /** Half a pair gap to the right of `p`. */
  function RightOf(p: Vec3, frame: Frame): Vec3 {
    Add(p, Scale(frame.right, frame.pairGap * 0.5))
  }

  /** The switch in `CreateTags`: the tags one pipe gets, in the order they are tried. */
  function Plan(option: TagOption, curve: Curve, frame: Frame): seq<Placement> {
    var mid := Lift(curve.middle, frame);
    var p0 := Lift(curve.start, frame);
    var p1 := Lift(curve.end, frame);
    match option
    case OnlyElevation => [Placement(mid, Elevation)]
    case OnlyDiameter => [Placement(mid, Diameter)]
    case ElevMinusDia => [Placement(LeftOf(mid, frame), Elevation), Placement(RightOf(mid, frame), Diameter)]
    case ElevDiaByLength => [Placement(LeftOf(mid, frame), Elevation), Placement(RightOf(mid, frame), Diameter)]
    case StartEndElevation => [Placement(p0, Elevation), Placement(p1, Elevation)]
    case StartEndElevationMinusDia =>
      [Placement(LeftOf(p0, frame), Elevation), Placement(RightOf(p0, frame), Diameter),
       Placement(LeftOf(p1, frame), Elevation), Placement(RightOf(p1, frame), Diameter)]
  }

  /** How many tags a pipe with a curve gets under each option. */
  function PerPipe(option: TagOption): nat {
    match option
    case OnlyElevation => 1
    case OnlyDiameter => 1
    case StartEndElevationMinusDia => 4
    case _ => 2
  }

  /** The families the tags use, in order. */
  function Kinds(option: TagOption): seq<TagKind> {
    match option
    case OnlyElevation => [Elevation]
    case OnlyDiameter => [Diameter]
    case ElevMinusDia => [Elevation, Diameter]
    case ElevDiaByLength => [Elevation, Diameter]
    case StartEndElevation => [Elevation, Elevation]
    case StartEndElevationMinusDia => [Elevation, Diameter, Elevation, Diameter]
  }

  /** A pipe gets `PerPipe(option)` tags, of the families `Kinds(option)` lists. */
  lemma PlanShape(option: TagOption, curve: Curve, frame: Frame)
    ensures |Plan(option, curve, frame)| == PerPipe(option) == |Kinds(option)|
    ensures forall i :: 0 <= i < PerPipe(option) ==> Plan(option, curve, frame)[i].kind == Kinds(option)[i]
  {
  }

  /** The two heads of a pair sit symmetrically about the lifted point: their midpoint is
      that point and they are one pair gap apart along the view's right direction. */
  predicate PairAbout(a: Placement, b: Placement, p: Vec3, frame: Frame) {
    Midpoint(a.head, b.head) == p && Sub(b.head, a.head) == Scale(frame.right, frame.pairGap)
  }

  /** Paired heads sit at minus and plus half the pair gap about the head a single tag
      would get: the middle of the pipe for the elevation/diameter pairs, each end for the
      four-tag option. */
  lemma PairsAreSymmetric(option: TagOption, curve: Curve, frame: Frame)
    ensures option == ElevMinusDia || option == ElevDiaByLength ==>
      PairAbout(Plan(option, curve, frame)[0], Plan(option, curve, frame)[1], Lift(curve.middle, frame), frame)
    ensures option == StartEndElevationMinusDia ==>
      PairAbout(Plan(option, curve, frame)[0], Plan(option, curve, frame)[1], Lift(curve.start, frame), frame)
      && PairAbout(Plan(option, curve, frame)[2], Plan(option, curve, frame)[3], Lift(curve.end, frame), frame)
  {
  }

  /** Each head is `nudgeUp` above its anchor point along the view's up direction, whatever
      its sideways offset, when up and right are orthonormal. */
  lemma HeadsAreNudgedUp(option: TagOption, curve: Curve, frame: Frame)
    requires Orthonormal(frame.right, frame.up)
    ensures forall i :: 0 <= i < |Plan(option, curve, frame)| ==>
      Dot(Plan(option, curve, frame)[i].head, frame.up) == Dot(Anchor(option, curve, i), frame.up) + frame.nudgeUp
  {
    var up, right, g := frame.up, frame.right, frame.pairGap * 0.5;
    forall p: Vec3 ensures Dot(Lift(p, frame), up) == Dot(p, up) + frame.nudgeUp
      && Dot(LeftOf(Lift(p, frame), frame), up) == Dot(p, up) + frame.nudgeUp
      && Dot(RightOf(Lift(p, frame), frame), up) == Dot(p, up) + frame.nudgeUp
    {
      DotTranslate(p, up, frame.nudgeUp, up);
      DotTranslate(Lift(p, frame), right, g, up);
      DotTranslate(Lift(p, frame), right, -g, up);
      assert LeftOf(Lift(p, frame), frame) == Add(Lift(p, frame), Scale(right, -g));
    }
  }

  /** The point of the pipe the `i`-th tag is placed from. */
  function Anchor(option: TagOption, curve: Curve, i: nat): Vec3 {
    match option
    case StartEndElevation => if i == 0 then curve.start else curve.end
    case StartEndElevationMinusDia => if i < 2 then curve.start else curve.end
    case _ => curve.middle
  }

  // ---------------------------------------------------------------------------
  // Pipes and the length filter

  /** A selected element: its id, whether it is in the pipe category, and its location
      curve if it has one. */
  datatype Element = Element(id: ElementId, isPipe: bool, curve: Option<Curve>)

  /** The category test of `GetPipesFromSelection` and of the pick filter. */
  predicate IsPipe(e: Element) {
    e.isPipe
  }

  /** `GetCurveLength`: the curve's length, 0 without a curve. */
  function CurveLength(e: Element): real {
    if e.curve.Some? then e.curve.value.length else 0.0
  }

  /** Step 2 of `CreateTags`: with a positive threshold only pipes at least that long are
      kept; otherwise all are. */
  function LongEnough(pipes: seq<Element>, minLength: real): seq<Element> {
    if minLength > 0.0 then Filter(pipes, (e: Element) => CurveLength(e) >= minLength) else pipes
  }

  /** A positive threshold keeps exactly the pipes at least that long, in order; a zero
      threshold (blank or invalid box) keeps every pipe. */
  lemma LongEnoughSpec(pipes: seq<Element>, minLength: real)
    ensures minLength <= 0.0 ==> LongEnough(pipes, minLength) == pipes
    ensures |LongEnough(pipes, minLength)| <= |pipes|
    ensures forall i :: 0 <= i < |LongEnough(pipes, minLength)| ==> LongEnough(pipes, minLength)[i] in pipes
    ensures minLength > 0.0 ==>
      forall i :: 0 <= i < |LongEnough(pipes, minLength)| ==> CurveLength(LongEnough(pipes, minLength)[i]) >= minLength
    ensures forall i :: 0 <= i < |pipes| && CurveLength(pipes[i]) >= minLength ==> pipes[i] in LongEnough(pipes, minLength)
  {
    if minLength > 0.0 {
      FilterSpec(pipes, (e: Element) => CurveLength(e) >= minLength);
    }
  }

  // ---------------------------------------------------------------------------
  // Placing tags

  /** `BoundingBoxIntersectsFilter` with the cube of half-side `r` about `head`. */
  predicate Near(box: BoundingBox, head: Vec3, r: real) {
    && box.min.x <= head.x + r && head.x - r <= box.max.x
    && box.min.y <= head.y + r && head.y - r <= box.max.y
    && box.min.z <= head.z + r && head.z - r <= box.max.z
  }

  /** `FindNearbyTag` finds nothing: no tag box of the view is near the head. */
  predicate Clear(tags: seq<BoundingBox>, head: Vec3, r: real) {
    forall i :: 0 <= i < |tags| ==> !Near(tags[i], head, r)
  }

  /** What the host decides: the box a tag placed at a head gets, and whether
      `IndependentTag.Create` succeeds for a pipe. */
  datatype Host = Host(boxOf: Placement -> BoundingBox, creates: (ElementId, Placement) -> bool)

  /** The run so far: the tags created, in order, and the attempts skipped. */
  datatype Tally = Tally(made: seq<Placement>, skipped: nat)

  /** The tag boxes of the view: the ones it had and those of the new tags. */
  function TagsOf(existing: seq<BoundingBox>, made: seq<Placement>, host: Host): seq<BoundingBox> {
    existing + Map(made, host.boxOf)
  }

  /** One `PlaceTagIfClear` attempt: created when the head is clear and creation succeeds,
      skipped otherwise. */
  function Attempt(t: Tally, existing: seq<BoundingBox>, host: Host, avoid: real, id: ElementId, p: Placement): Tally {
    if Clear(TagsOf(existing, t.made, host), p.head, avoid) && host.creates(id, p) then Tally(t.made + [p], t.skipped)
    else Tally(t.made, t.skipped + 1)
  }

  /** The attempts for one pipe's placements, in order. */
  function AttemptAll(t: Tally, existing: seq<BoundingBox>, host: Host, avoid: real, id: ElementId, ps: seq<Placement>): Tally {
    if ps == [] then t
    else Attempt(AttemptAll(t, existing, host, avoid, id, ps[..|ps| - 1]), existing, host, avoid, id, ps[|ps| - 1])
  }

  /** One pipe: without a curve one skip, otherwise its planned tags. */
  function TagPipe(t: Tally, existing: seq<BoundingBox>, host: Host, avoid: real, option: TagOption, frame: Frame, e: Element): Tally {
    if e.curve.None? then Tally(t.made, t.skipped + 1)
    else AttemptAll(t, existing, host, avoid, e.id, Plan(option, e.curve.value, frame))
  }

  /** The `foreach` over the pipes. */
  function TagPipes(t: Tally, existing: seq<BoundingBox>, host: Host, avoid: real, option: TagOption, frame: Frame, pipes: seq<Element>): Tally {
    if pipes == [] then t
    else TagPipe(TagPipes(t, existing, host, avoid, option, frame, pipes[..|pipes| - 1]), existing, host, avoid, option, frame, pipes[|pipes| - 1])
  }

  /** How many placements the pipes call for: one per pipe without a curve (its skip), and
      `PerPipe(option)` per pipe with one. */
  function Attempts(pipes: seq<Element>, option: TagOption): nat {
    if pipes == [] then 0
    else Attempts(pipes[..|pipes| - 1], option) + (if pipes[|pipes| - 1].curve.None? then 1 else PerPipe(option))
  }

  /** Every created tag was clear of all tags of the view, including those created before
      it. */
  predicate AllClear(existing: seq<BoundingBox>, made: seq<Placement>, host: Host, avoid: real) {
    forall k :: 0 <= k < |made| ==> Clear(TagsOf(existing, made[..k], host), made[k].head, avoid)
  }

  /** One attempt adds one to created or to skipped, keeps the earlier tags, and keeps
      every created tag clear. */
  lemma AttemptStep(t: Tally, existing: seq<BoundingBox>, host: Host, avoid: real, id: ElementId, p: Placement)
    requires AllClear(existing, t.made, host, avoid)
    ensures var u := Attempt(t, existing, host, avoid, id, p);
      |u.made| + u.skipped == |t.made| + t.skipped + 1 && t.made <= u.made && AllClear(existing, u.made, host, avoid)
  {
    var u := Attempt(t, existing, host, avoid, id, p);
    if u.made != t.made {
      forall k | 0 <= k < |u.made| ensures Clear(TagsOf(existing, u.made[..k], host), u.made[k].head, avoid) {
        if k < |t.made| {
          assert u.made[..k] == t.made[..k];
        } else {
          assert u.made[..k] == t.made;
        }
      }
    }
  }

  /** A pipe's placements make `|ps|` attempts. */
  lemma {:induction false} AttemptAllStep(t: Tally, existing: seq<BoundingBox>, host: Host, avoid: real, id: ElementId, ps: seq<Placement>)
    requires AllClear(existing, t.made, host, avoid)
    ensures var u := AttemptAll(t, existing, host, avoid, id, ps);
      |u.made| + u.skipped == |t.made| + t.skipped + |ps| && t.made <= u.made && AllClear(existing, u.made, host, avoid)
  {
    if ps != [] {
      AttemptAllStep(t, existing, host, avoid, id, ps[..|ps| - 1]);
      AttemptStep(AttemptAll(t, existing, host, avoid, id, ps[..|ps| - 1]), existing, host, avoid, id, ps[|ps| - 1]);
    }
  }

  /** The counters: every attempt adds one to exactly one of created and skipped, so they
      sum to the number of placements the pipes call for (a pipe without a curve counting
      one skip); tags are only added, and every created tag was clear of the tags before
      it. */
  lemma {:induction false} TagPipesSpec(existing: seq<BoundingBox>, host: Host, avoid: real, option: TagOption, frame: Frame, pipes: seq<Element>)
    ensures var u := TagPipes(Tally([], 0), existing, host, avoid, option, frame, pipes);
      |u.made| + u.skipped == Attempts(pipes, option) && AllClear(existing, u.made, host, avoid)
  {
    if pipes != [] {
      var init := pipes[..|pipes| - 1];
      var e := pipes[|pipes| - 1];
      TagPipesSpec(existing, host, avoid, option, frame, init);
      var t := TagPipes(Tally([], 0), existing, host, avoid, option, frame, init);
      if e.curve.Some? {
        PlanShape(option, e.curve.value, frame);
        AttemptAllStep(t, existing, host, avoid, e.id, Plan(option, e.curve.value, frame));
      }
    }
  }

  /** How `CreateTags` ends: no active view, no pipe selected or picked, none long enough,
      or tags placed with the created and skipped counts of its final message. */
  datatype Outcome =
    | NoActiveView
    | NoPipesSelected
    | NoPipesLongEnough
    | Placed(created: nat, skipped: nat, made: seq<Placement>)

  /** `CreateTags` as a function of its inputs. */
  function CreateTagsResult(selection: seq<Element>, picked: seq<Element>, minLength: real, existing: seq<BoundingBox>,
                            host: Host, avoid: real, option: TagOption, frame: Frame): Outcome {
    var selected := Filter(selection, IsPipe);
    var pipes := if selected == [] then Filter(picked, IsPipe) else selected;
    if pipes == [] then NoPipesSelected
    else
      var kept := LongEnough(pipes, minLength);
      if kept == [] then NoPipesLongEnough
      else
        var t := TagPipes(Tally([], 0), existing, host, avoid, option, frame, kept);
        Placed(|t.made|, t.skipped, t.made)
  }

  // ---------------------------------------------------------------------------
  // The view model

  const DefaultNudgeUpMm: real := 150.0
  const DefaultPairGapMm: real := 200.0
  const DefaultAvoidRadiusMm: real := 200.0

  class TagElementsViewModel {
    var tagFamilies: seq<TagFamilyType>
    var selectedElevation: Option<TagFamilyType>
    var selectedDiameter: Option<TagFamilyType>
    var selectedOption: TagOption
    var lengths: Lengths
    var nudgeUpMm: real
    var pairGapMm: real
    var avoidRadiusMm: real

    /** The constructor: the families loaded, the first chosen for both, option 1, a
        2000 mm threshold in box 1 and the others empty, and the default distances. */
    constructor (pipeTags: seq<FamilySymbol>, fittingTags: seq<FamilySymbol>, accessoryTags: seq<FamilySymbol>)
      ensures tagFamilies == LoadPipeTagTypes(pipeTags, fittingTags, accessoryTags)
      ensures selectedElevation == Some(tagFamilies[0]) && selectedDiameter == Some(tagFamilies[0])
      ensures selectedOption == OnlyElevation
      ensures lengths == Lengths(Some("2000"), Some(""), Some(""), Some(""), Some(""), Some(""))
      ensures nudgeUpMm == DefaultNudgeUpMm && pairGapMm == DefaultPairGapMm && avoidRadiusMm == DefaultAvoidRadiusMm
    {
      var families := LoadPipeTagTypes(pipeTags, fittingTags, accessoryTags);
      tagFamilies := families;
      selectedElevation := Some(families[0]);
      selectedDiameter := Some(families[0]);
      selectedOption := OnlyElevation;
      lengths := Lengths(Some("2000"), Some(""), Some(""), Some(""), Some(""), Some(""));
      nudgeUpMm := DefaultNudgeUpMm;
      pairGapMm := DefaultPairGapMm;
      avoidRadiusMm := DefaultAvoidRadiusMm;
    }

    /** The `SelectedOption` setter. */
    method SetSelectedOption(option: TagOption)
      modifies this
      ensures selectedOption == option
      ensures forall n :: IsLenEnabled(selectedOption, n) <==> n == Code(option)
      ensures tagFamilies == old(tagFamilies) && lengths == old(lengths)
      ensures selectedElevation == old(selectedElevation) && selectedDiameter == old(selectedDiameter)
      ensures nudgeUpMm == old(nudgeUpMm) && pairGapMm == old(pairGapMm) && avoidRadiusMm == old(avoidRadiusMm)
    {
      selectedOption := option;
      ActiveLengthIsEnabledBox(option, lengths);
    }

    /** `TryGetActiveMinLengthFeet`. */
    function TryGetActiveMinLengthFeet(parse: string -> Option<real>): Option<real>
      reads this
    {
      TryParseMmToFeetOptional(ActiveLengthText(selectedOption, lengths), parse)
    }

    /** `CanCreate`. */
    predicate CanCreate(parse: string -> Option<real>)
      reads this
    {
      CanCreateFrom(selectedElevation, selectedDiameter, TryGetActiveMinLengthFeet(parse))
    }

    /** `CreateTags`: nothing without an active view; otherwise the selection's pipes, or
        the picked ones when the selection has none; the active box's threshold (0 when it
        is invalid); then each pipe's planned tags, each placed only where no tag is near.
        Returns the outcome and the view's tag boxes afterwards. */
    method CreateTags(hasActiveView: bool, parse: string -> Option<real>, selection: seq<Element>, picked: seq<Element>,
                      existing: seq<BoundingBox>, host: Host, up: Vec3, right: Vec3)
      returns (outcome: Outcome, tags: seq<BoundingBox>)
      ensures !hasActiveView ==> outcome == NoActiveView
      ensures hasActiveView ==> outcome == CreateTagsResult(selection, picked, TryGetActiveMinLengthFeet(parse).GetOr(0.0), existing,
        host, MmToFeet(avoidRadiusMm), selectedOption, Frame(up, right, MmToFeet(nudgeUpMm), MmToFeet(pairGapMm)))
      ensures outcome.Placed? ==> tags == TagsOf(existing, outcome.made, host)
      ensures !outcome.Placed? ==> tags == existing
    {
      tags := existing;
      if !hasActiveView {
        return NoActiveView, tags;
      }
      var pipes := Filter(selection, IsPipe);
      if pipes == [] {
        pipes := Filter(picked, IsPipe);
        if pipes == [] {
          return NoPipesSelected, tags;
        }
      }
      var minLength := TryGetActiveMinLengthFeet(parse).GetOr(0.0);
      if minLength > 0.0 {
        pipes := Filter(pipes, (e: Element) => CurveLength(e) >= minLength);
      }
      if pipes == [] {
        return NoPipesLongEnough, tags;
      }
      var frame := Frame(up, right, MmToFeet(nudgeUpMm), MmToFeet(pairGapMm));
      var created, skipped, made;
      created, skipped, made, tags := PlaceTags(existing, host, MmToFeet(avoidRadiusMm), selectedOption, frame, pipes);
      outcome := Placed(created, skipped, made);
    }
  }

  /** The transaction of `CreateTags`: every pipe in turn, a pipe without a curve counting
      one skip. */
  method PlaceTags(existing: seq<BoundingBox>, host: Host, avoid: real, option: TagOption, frame: Frame, pipes: seq<Element>)
    returns (created: nat, skipped: nat, made: seq<Placement>, tags: seq<BoundingBox>)
    ensures Tally(made, skipped) == TagPipes(Tally([], 0), existing, host, avoid, option, frame, pipes)
    ensures created == |made| && tags == TagsOf(existing, made, host)
  {
    created, skipped, made, tags := 0, 0, [], existing;
    for i := 0 to |pipes|
      invariant Tally(made, skipped) == TagPipes(Tally([], 0), existing, host, avoid, option, frame, pipes[..i])
      invariant created == |made| && tags == TagsOf(existing, made, host)
    {
      assert pipes[..i + 1][..i] == pipes[..i];
      var e := pipes[i];
      if e.curve.None? {
        skipped := skipped + 1;
      } else {
        made, created, skipped, tags := TagOnePipe(existing, host, avoid, e.id, Plan(option, e.curve.value, frame),
          made, created, skipped, tags);
      }
    }
    assert pipes[..|pipes|] == pipes;
  }

  /** The attempts for one pipe, each adding the new tag's box to the view's tags. */
  method TagOnePipe(existing: seq<BoundingBox>, host: Host, avoid: real, id: ElementId, ps: seq<Placement>,
                    made0: seq<Placement>, created0: nat, skipped0: nat, tags0: seq<BoundingBox>)
    returns (made: seq<Placement>, created: nat, skipped: nat, tags: seq<BoundingBox>)
    requires created0 == |made0| && tags0 == TagsOf(existing, made0, host)
    ensures Tally(made, skipped) == AttemptAll(Tally(made0, skipped0), existing, host, avoid, id, ps)
    ensures created == |made| && tags == TagsOf(existing, made, host)
  {
    made, created, skipped, tags := made0, created0, skipped0, tags0;
    for j := 0 to |ps|
      invariant Tally(made, skipped) == AttemptAll(Tally(made0, skipped0), existing, host, avoid, id, ps[..j])
      invariant created == |made| && tags == TagsOf(existing, made, host)
    {
      assert ps[..j + 1][..j] == ps[..j];
      var p := ps[j];
      var nearby := exists k :: 0 <= k < |tags| && Near(tags[k], p.head, avoid);
      if !nearby && host.creates(id, p) {
        made := made + [p];
        created := created + 1;
        tags := tags + [host.boxOf(p)];
      } else {
        skipped := skipped + 1;
      }
    }
    assert ps[..|ps|] == ps;
  }
}
