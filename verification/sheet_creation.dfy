/** `SheetCreatetionWindow`: creates sheets from spreadsheet rows ("Create"), or renumbers
    and renames the sheets the rows name and creates the others ("Update"). The document
    is reduced to its sheets' numbers and names; the numbers in use are kept in a set
    that is compared exactly (a `HashSet<string>` with the default comparer). */
module SheetCreation {
  import opened Wrappers
  import opened Seqs
  import opened Text

  // ---------------------------------------------------------------------------
  // Unique numbers: d, "d - Copy", "d - Copy 2", "d - Copy 3", ...

  /** The `k`-th number `GetUniqueSheetNumber` tries for `desired`. */
  function CopyAttempt(desired: string, k: nat): string {
    if k == 0 then desired
    else if k == 1 then desired + " - Copy"
    else desired + " - Copy " + NatToString(k)
  }

  /** No two attempts for the same number coincide. */
  lemma CopyAttemptsDistinct(desired: string, j: nat, k: nat)
    ensures CopyAttempt(desired, j) == CopyAttempt(desired, k) ==> j == k
  {
    var a, b := CopyAttempt(desired, j), CopyAttempt(desired, k);
    if a == b && j >= 2 && k >= 2 {
      assert a[|desired| + 8..] == NatToString(j);
      assert b[|desired| + 8..] == NatToString(k);
      NatToStringInjective(j, k);
    }
  }

  /** The length of the longest string in `s` (0 for none). */
  ghost function Longest(s: set<string>): (m: nat)
    ensures forall x :: x in s ==> |x| <= m
    decreases s
  {
    if s == {} then 0
    else
      var x :| x in s;
      var rest := Longest(s - {x});
      if |x| > rest then |x| else rest
  }

  /** An attempt whose counter has more digits than the longest used number is free. */
  lemma LongCopyFree(used: set<string>, desired: string, k: nat)
    ensures k >= 2 && k >= Pow10(Longest(used)) ==> CopyAttempt(desired, k) !in used
  {
    if k >= 2 && k >= Pow10(Longest(used)) {
      NatToStringLength(k, Longest(used));
    }
  }

  /** The first free attempt from the `k`-th on. */
  function FirstCopy(used: set<string>, desired: string, k: nat): string
    decreases Pow10(Longest(used)) + 2 - k
  {
    if CopyAttempt(desired, k) !in used then CopyAttempt(desired, k)
    else
      LongCopyFree(used, desired, k);
      FirstCopy(used, desired, k + 1)
  }

  /** The number `GetUniqueSheetNumber` returns. */
  function UniqueCopy(used: set<string>, desired: string): string {
    FirstCopy(used, desired, 0)
  }

  lemma {:induction false} FirstCopySpec(used: set<string>, desired: string, k: nat)
    ensures FirstCopy(used, desired, k) !in used
    ensures exists j :: (j >= k && FirstCopy(used, desired, k) == CopyAttempt(desired, j)
      && forall i :: k <= i < j ==> CopyAttempt(desired, i) in used)
    decreases Pow10(Longest(used)) + 2 - k
  {
    var r := FirstCopy(used, desired, k);
    if CopyAttempt(desired, k) !in used {
      assert r == CopyAttempt(desired, k);
    } else {
      LongCopyFree(used, desired, k);
      var next := k + 1;
      FirstCopySpec(used, desired, next);
      assert r == FirstCopy(used, desired, next);
      var j :| (j >= next && FirstCopy(used, desired, next) == CopyAttempt(desired, j)
        && forall i :: next <= i < j ==> CopyAttempt(desired, i) in used);
      assert r == CopyAttempt(desired, j);
      forall i | k <= i < j ensures CopyAttempt(desired, i) in used {
        if i != k {
          assert next <= i < j;
        }
      }
    }
  }

  /** The result is never a used number: the desired number when it is free, otherwise
      the first free one of "d - Copy", "d - Copy 2", "d - Copy 3", ... */
  lemma UniqueCopySpec(used: set<string>, desired: string)
    ensures UniqueCopy(used, desired) !in used
    ensures desired !in used ==> UniqueCopy(used, desired) == desired
    ensures exists j: nat :: (UniqueCopy(used, desired) == CopyAttempt(desired, j)
      && forall i :: 0 <= i < j ==> CopyAttempt(desired, i) in used)
  {
    FirstCopySpec(used, desired, 0);
  }

  /** `GetUniqueSheetNumber`. */
  method GetUniqueSheetNumber(desiredNumber: string, existingNumbers: set<string>) returns (number: string)
    ensures number == UniqueCopy(existingNumbers, desiredNumber)
  {
    number := desiredNumber;
    var suffix := 1;
    ghost var tried := 0;
    while number in existingNumbers
      invariant suffix >= 1 && tried == suffix - 1
      invariant number == CopyAttempt(desiredNumber, tried)
      invariant UniqueCopy(existingNumbers, desiredNumber) == FirstCopy(existingNumbers, desiredNumber, tried)
      decreases Pow10(Longest(existingNumbers)) + 1 - tried
    {
      LongCopyFree(existingNumbers, desiredNumber, tried);
      number := if suffix == 1 then desiredNumber + " - Copy" else desiredNumber + " - Copy " + NatToString(suffix);
      tried := suffix;
      suffix := suffix + 1;
    }
  }

  // ---------------------------------------------------------------------------
  // Spreadsheet rows and sheets

  /** A spreadsheet row: its "Old Sheet Number", "Sheet Number" and "Sheet Name" cells,
      `None` standing for a null cell. */
  datatype Row = Row(oldNumber: Option<string>, number: Option<string>, name: Option<string>)

  /** `cell?.ToString().Trim()`. */
  function Cell(c: Option<string>): Option<string> {
    if c.None? then None else Some(Trim(c.value))
  }

  predicate IsNullOrEmpty(s: Option<string>) {
    s.None? || s.value == ""
  }

  /** `name ?? "Unnamed"`. */
  function NameOr(s: Option<string>): string {
    if s.None? then "Unnamed" else s.value
  }

  /** A row is processed when its trimmed "Sheet Number" is not empty; the others are
      skipped with a warning. */
  predicate Wanted(row: Row) {
    !IsNullOrEmpty(Cell(row.number))
  }

  datatype Sheet = Sheet(number: string, name: string)

  function SheetNumber(s: Sheet): string {
    s.number
  }

  function Numbers(doc: seq<Sheet>): set<string> {
    set s | s in doc :: s.number
  }

  lemma NumbersSnoc(doc: seq<Sheet>, s: Sheet)
    ensures Numbers(doc + [s]) == Numbers(doc) + {s.number}
  {
    assert forall x :: x in doc + [s] <==> x in doc || x == s;
  }

  // ---------------------------------------------------------------------------
  // Create

  /** The sheets created so far and the numbers in use. */
  datatype Batch = Batch(created: seq<Sheet>, used: set<string>)

  /** `CreateButton_Click` after its guards: each wanted row creates a sheet with a unique
      number, which then counts as used. */
  function CreatePlan(existing: set<string>, rows: seq<Row>): Batch
    decreases |rows|
  {
    if rows == [] then Batch([], existing)
    else
      var b := CreatePlan(existing, rows[..|rows| - 1]);
      var row := rows[|rows| - 1];
      var number := Cell(row.number);
      if IsNullOrEmpty(number) then b
      else
        var unique := UniqueCopy(b.used, number.value);
        Batch(b.created + [Sheet(unique, NameOr(Cell(row.name)))], b.used + {unique})
  }

  /** One sheet per wanted row; the created numbers are new and pairwise distinct, and
      the used set is the existing numbers plus the created ones. */
  lemma {:induction false} CreatePlanSpec(existing: set<string>, rows: seq<Row>)
    ensures |CreatePlan(existing, rows).created| == Count(rows, Wanted)
    ensures CreatePlan(existing, rows).used == existing + Numbers(CreatePlan(existing, rows).created)
    ensures forall i :: 0 <= i < |CreatePlan(existing, rows).created| ==>
      CreatePlan(existing, rows).created[i].number !in existing
    ensures DistinctKeys(CreatePlan(existing, rows).created, SheetNumber)
    decreases |rows|
  {
    if rows != [] {
      var n := |rows| - 1;
      var prefix := rows[..n];
      CreatePlanSpec(existing, prefix);
      var b := CreatePlan(existing, prefix);
      var number := Cell(rows[n].number);
      if !IsNullOrEmpty(number) {
        UniqueCopySpec(b.used, number.value);
        CreateStep(existing, b, Sheet(UniqueCopy(b.used, number.value), NameOr(Cell(rows[n].name))));
      }
    }
  }

  /** The k-th created sheet comes from the k-th wanted row: its number is the first free
      one for that row's trimmed number, given the existing numbers and those created
      before it, and its name is the row's trimmed name, "Unnamed" for a null cell. */
  lemma {:induction false} CreatePlanRows(existing: set<string>, rows: seq<Row>)
    ensures |CreatePlan(existing, rows).created| == |Filter(rows, Wanted)|
    ensures forall k :: 0 <= k < |CreatePlan(existing, rows).created| ==>
      var row := Filter(rows, Wanted)[k];
      var created := CreatePlan(existing, rows).created;
      && Wanted(row)
      && created[k] == Sheet(UniqueCopy(existing + Numbers(created[..k]), Cell(row.number).value), NameOr(Cell(row.name)))
    decreases |rows|
  {
    if rows != [] {
      var n := |rows| - 1;
      var prefix, last := rows[..n], rows[n];
      assert rows == prefix + [last];
      CreatePlanRows(existing, prefix);
      CreatePlanSpec(existing, prefix);
      FilterSnoc(prefix, last, Wanted);
      var b := CreatePlan(existing, prefix);
      var c := CreatePlan(existing, rows).created;
      var wanted := Filter(rows, Wanted);
      forall k | 0 <= k < |c|
        ensures Wanted(wanted[k])
        ensures c[k] == Sheet(UniqueCopy(existing + Numbers(c[..k]), Cell(wanted[k].number).value), NameOr(Cell(wanted[k].name)))
      {
        if k < |b.created| {
          assert c[..k] == b.created[..k];
          assert wanted[k] == Filter(prefix, Wanted)[k];
        } else {
          assert c[..k] == b.created;
          assert wanted[k] == last;
        }
      }
    }
  }

  /** Appending a sheet whose number is not yet used keeps `CreatePlanSpec`'s facts. */
  lemma CreateStep(existing: set<string>, b: Batch, s: Sheet)
    requires b.used == existing + Numbers(b.created)
    requires forall i :: 0 <= i < |b.created| ==> b.created[i].number !in existing
    requires DistinctKeys(b.created, SheetNumber)
    requires s.number !in b.used
    ensures b.used + {s.number} == existing + Numbers(b.created + [s])
    ensures forall i :: 0 <= i < |b.created + [s]| ==> (b.created + [s])[i].number !in existing
    ensures DistinctKeys(b.created + [s], SheetNumber)
  {
    NumbersSnoc(b.created, s);
    var c := b.created + [s];
    forall i | 0 <= i < |c| ensures c[i].number !in existing {
      if i < |b.created| {
        assert c[i] == b.created[i];
      }
    }
    forall i, j | 0 <= i < j < |c| ensures c[i].number != c[j].number {
      assert c[i] == b.created[i];
      if j < |b.created| {
        assert c[j] == b.created[j];
      } else {
        assert c[i] in b.created;
      }
    }
  }

  /** `CreateButton_Click`'s loop: returns the sheets created and `createdCount`. */
  method CreateSheets(existingNumbers: set<string>, rows: seq<Row>) returns (created: seq<Sheet>, createdCount: nat)
    ensures created == CreatePlan(existingNumbers, rows).created
    ensures createdCount == |created| == Count(rows, Wanted)
  {
    created := [];
    createdCount := 0;
    var used := existingNumbers;
    for i := 0 to |rows|
      invariant Batch(created, used) == CreatePlan(existingNumbers, rows[..i])
      invariant createdCount == |created|
    {
      var row := rows[i];
      assert rows[..i + 1][..i] == rows[..i] && rows[..i + 1][i] == row;
      var sheetNumber := Cell(row.number);
      var sheetName := Cell(row.name);
      if sheetNumber.None? || sheetNumber.value == "" {
        continue;
      }
      var uniqueSheetNumber := GetUniqueSheetNumber(sheetNumber.value, used);
      created := created + [Sheet(uniqueSheetNumber, NameOr(sheetName))];
      used := used + {uniqueSheetNumber};
      createdCount := createdCount + 1;
    }
    assert rows[..|rows|] == rows;
    CreatePlanSpec(existingNumbers, rows);
  }

  // ---------------------------------------------------------------------------
  // Update

  /** The document's sheets, the numbers counted as used, and the two counters. */
  datatype Update = Update(doc: seq<Sheet>, used: set<string>, updated: nat, created: nat)

  /** The state before the first row: every sheet number of the document is used. */
  function Start(doc: seq<Sheet>): Update {
    Update(doc, Numbers(doc), 0, 0)
  }

  /** The sheet a row names (`GetSheetByNumber` of its old number, looked up only when that
      cell is not empty), as an index into `doc`; `|doc|` when there is none. */
  function Target(doc: seq<Sheet>, oldNumber: Option<string>): (i: nat)
    ensures i <= |doc|
    ensures i < |doc| ==> oldNumber.Some? && doc[i].number == oldNumber.value
  {
    if IsNullOrEmpty(oldNumber) then |doc| else FirstKeyIndex(doc, SheetNumber, oldNumber.value)
  }

  /** The number a found sheet gets: made unique only when it is in use and differs from
      the sheet's own number. */
  function Renumber(used: set<string>, current: string, number: string): string {
    if number in used && current != number then UniqueCopy(used, number) else number
  }

  /** One row of `UpdateButton_Click`, with the found sheet's OLD number released from the
      used set. */
  function UpdateRow(s: Update, row: Row): Update {
    UpdateCells(s, Cell(row.oldNumber), Cell(row.number), Cell(row.name))
  }

  /** `UpdateRow` on the row's trimmed cells. */
  function UpdateCells(s: Update, oldNumber: Option<string>, number: Option<string>, name: Option<string>): Update {
    if IsNullOrEmpty(number) then s
    else
      var i := Target(s.doc, oldNumber);
      if i < |s.doc| then
        var n := Renumber(s.used, s.doc[i].number, number.value);
        Update(s.doc[i := Sheet(n, NameOr(name))], s.used - {s.doc[i].number} + {n}, s.updated + 1, s.created)
      else
        var unique := UniqueCopy(s.used, number.value);
        Update(s.doc + [Sheet(unique, NameOr(name))], s.used + {unique}, s.updated, s.created + 1)
  }

  /** One row of `UpdateButton_Click` as written: the sheet's number is reassigned before
      `Remove(sheetToUpdate.SheetNumber)`, so the NEW number is removed and added back and
      the old one stays in the used set. */
  function UpdateRowAsWritten(s: Update, row: Row): Update {
    var number := Cell(row.number);
    if IsNullOrEmpty(number) then s
    else
      var i := Target(s.doc, Cell(row.oldNumber));
      var name := NameOr(Cell(row.name));
      if i < |s.doc| then
        var n := Renumber(s.used, s.doc[i].number, number.value);
        var doc := s.doc[i := Sheet(n, name)];
        Update(doc, s.used - {doc[i].number} + {n}, s.updated + 1, s.created)
      else
        var unique := UniqueCopy(s.used, number.value);
        Update(s.doc + [Sheet(unique, name)], s.used + {unique}, s.updated, s.created + 1)
  }

  function UpdateAll(s: Update, rows: seq<Row>): Update
    decreases |rows|
  {
    if rows == [] then s else UpdateRow(UpdateAll(s, rows[..|rows| - 1]), rows[|rows| - 1])
  }

  function UpdateAllAsWritten(s: Update, rows: seq<Row>): Update
    decreases |rows|
  {
    if rows == [] then s else UpdateRowAsWritten(UpdateAllAsWritten(s, rows[..|rows| - 1]), rows[|rows| - 1])
  }

  /** The used set is exactly the document's numbers, and no two sheets share one. */
  predicate Consistent(s: Update) {
    s.used == Numbers(s.doc) && DistinctKeys(s.doc, SheetNumber)
  }

  /** Renumbering sheet `i` of a document without repeated numbers replaces its number in
      the set of numbers. */
  lemma NumbersUpdate(doc: seq<Sheet>, i: nat, x: Sheet)
    requires i < |doc| && DistinctKeys(doc, SheetNumber)
    ensures Numbers(doc[i := x]) == Numbers(doc) - {doc[i].number} + {x.number}
  {
    var d := doc[i := x];
    forall y | y in Numbers(doc) - {doc[i].number} + {x.number} ensures y in Numbers(d) {
      if y != x.number {
        var s :| s in doc && s.number == y;
        var k :| 0 <= k < |doc| && doc[k] == s;
        assert k != i && d[k] == s;
      } else {
        assert d[i] == x;
      }
    }
    forall y | y in Numbers(d) ensures y in Numbers(doc) - {doc[i].number} + {x.number} {
      var s :| s in d && s.number == y;
      var k :| 0 <= k < |d| && d[k] == s;
      if k != i {
        assert doc[k] == s && SheetNumber(doc[k]) != SheetNumber(doc[i]);
      }
    }
  }

  /** The number a found sheet gets is its own or a free one. */
  lemma RenumberFree(used: set<string>, current: string, number: string)
    ensures Renumber(used, current, number) == current || Renumber(used, current, number) !in used
  {
    if number in used && current != number {
      UniqueCopySpec(used, number);
    }
  }

  /** Giving sheet `i` its own or a free number keeps the state consistent. */
  lemma RenameKeeps(s: Update, i: nat, x: Sheet)
    requires Consistent(s) && i < |s.doc|
    requires x.number == s.doc[i].number || x.number !in s.used
    ensures Consistent(Update(s.doc[i := x], s.used - {s.doc[i].number} + {x.number}, s.updated + 1, s.created))
  {
    var d := s.doc[i := x];
    NumbersUpdate(s.doc, i, x);
    forall a, b | 0 <= a < b < |d| ensures SheetNumber(d[a]) != SheetNumber(d[b]) {
      if a != i && b != i {
        assert d[a] == s.doc[a] && d[b] == s.doc[b];
      } else if a == i {
        assert d[b] == s.doc[b] && s.doc[b] in s.doc;
      } else {
        assert d[a] == s.doc[a] && s.doc[a] in s.doc;
      }
    }
  }

  /** Creating a sheet with a free number keeps the state consistent. */
  lemma CreateKeeps(s: Update, x: Sheet)
    requires Consistent(s) && x.number !in s.used
    ensures Consistent(Update(s.doc + [x], s.used + {x.number}, s.updated, s.created + 1))
  {
    NumbersSnoc(s.doc, x);
    var d := s.doc + [x];
    forall a, b | 0 <= a < b < |d| ensures SheetNumber(d[a]) != SheetNumber(d[b]) {
      assert d[a] == s.doc[a];
      if b < |s.doc| {
        assert d[b] == s.doc[b];
      } else {
        assert s.doc[a] in s.doc;
      }
    }
  }

  /** Each row keeps the used set equal to the document's numbers and the numbers
      distinct; a wanted row bumps exactly one counter, and only a created sheet grows
      the document. */
  lemma UpdateRowSpec(s: Update, row: Row)
    requires Consistent(s)
    ensures Consistent(UpdateRow(s, row))
    ensures UpdateRow(s, row).updated + UpdateRow(s, row).created
      == s.updated + s.created + (if Wanted(row) then 1 else 0)
    ensures |UpdateRow(s, row).doc| == |s.doc| + (UpdateRow(s, row).created - s.created)
  {
    var number := Cell(row.number);
    if !IsNullOrEmpty(number) {
      var i := Target(s.doc, Cell(row.oldNumber));
      var name := NameOr(Cell(row.name));
      if i < |s.doc| {
        RenumberFree(s.used, s.doc[i].number, number.value);
        RenameKeeps(s, i, Sheet(Renumber(s.used, s.doc[i].number, number.value), name));
      } else {
        UniqueCopySpec(s.used, number.value);
        CreateKeeps(s, Sheet(UniqueCopy(s.used, number.value), name));
      }
    }
  }

  /** From a document without repeated numbers: the numbers stay distinct, the used set
      ends equal to the document's numbers, every wanted row updates or creates exactly
      one sheet, and the document grows by the number created. */
  lemma {:induction false} UpdateAllSpec(doc: seq<Sheet>, rows: seq<Row>)
    requires DistinctKeys(doc, SheetNumber)
    ensures Consistent(UpdateAll(Start(doc), rows))
    ensures UpdateAll(Start(doc), rows).updated + UpdateAll(Start(doc), rows).created == Count(rows, Wanted)
    ensures |UpdateAll(Start(doc), rows).doc| == |doc| + UpdateAll(Start(doc), rows).created
    decreases |rows|
  {
    if rows != [] {
      var n := |rows| - 1;
      UpdateAllSpec(doc, rows[..n]);
      UpdateRowSpec(UpdateAll(Start(doc), rows[..n]), rows[n]);
    }
  }

  /** As written, a number a row renames away stays blocked: a later row that wants it
      gets a " - Copy" number although no sheet has it any more. */
  lemma StaleNumberBlocksReuse(a: string, b: string, name: string)
    requires a != b && a != "" && b != "" && Trim(a) == a && Trim(b) == b
    ensures var rows := [Row(Some(a), Some(b), None), Row(None, Some(a), None)];
      var fixed := UpdateAll(Start([Sheet(a, name)]), rows);
      var written := UpdateAllAsWritten(Start([Sheet(a, name)]), rows);
      && |fixed.doc| == 2 && fixed.doc[0].number == b && fixed.doc[1].number == a
      && |written.doc| == 2 && written.doc[0].number == b && written.doc[1].number != a
  {
    var doc := [Sheet(a, name)];
    var rename, create := Row(Some(a), Some(b), None), Row(None, Some(a), None);
    var rows := [rename, create];
    var s0 := Start(doc);
    assert Numbers(doc) == {a} by {
      assert doc[0] in doc;
    }
    assert Cell(Some(a)) == Some(a) && Cell(Some(b)) == Some(b);
    assert Target(doc, Some(a)) == 0;
    assert Renumber({a}, a, b) == b;
    var fixed1 := Update([Sheet(b, "Unnamed")], {b}, 1, 0);
    var written1 := Update([Sheet(b, "Unnamed")], {a, b}, 1, 0);
    assert UpdateRow(s0, rename) == fixed1;
    assert UpdateRowAsWritten(s0, rename) == written1;
    assert rows[..1] == [rename] && [rename][..0] == [];
    assert UpdateAll(s0, [rename]) == fixed1;
    assert UpdateAllAsWritten(s0, [rename]) == written1;
    assert Target(fixed1.doc, None) == 1 && Target(written1.doc, None) == 1;
    UniqueCopySpec({b}, a);
    UniqueCopySpec({a, b}, a);
    assert UpdateAll(s0, rows) == UpdateRow(fixed1, create);
    assert UpdateAllAsWritten(s0, rows) == UpdateRowAsWritten(written1, create);
  }

  /** The body of `UpdateButton_Click`'s loop for one row. */
  method UpdateOne(sheets: seq<Sheet>, existingSheetNumbers: set<string>, updatedCount: nat, createdCount: nat, row: Row)
    returns (sheets': seq<Sheet>, existingSheetNumbers': set<string>, updatedCount': nat, createdCount': nat)
    ensures Update(sheets', existingSheetNumbers', updatedCount', createdCount')
      == UpdateRow(Update(sheets, existingSheetNumbers, updatedCount, createdCount), row)
  {
    var oldSheetNumber := Cell(row.oldNumber);
    var newSheetNumber := Cell(row.number);
    var newSheetName := Cell(row.name);
    sheets', existingSheetNumbers', updatedCount', createdCount' :=
      UpdateFromCells(sheets, existingSheetNumbers, updatedCount, createdCount, oldSheetNumber, newSheetNumber, newSheetName);
  }

  /** The same body once the row's cells are read and trimmed. */
  method UpdateFromCells(sheets: seq<Sheet>, existingSheetNumbers: set<string>, updatedCount: nat, createdCount: nat,
                         oldSheetNumber: Option<string>, newSheetNumber: Option<string>, newSheetName: Option<string>)
    returns (sheets': seq<Sheet>, existingSheetNumbers': set<string>, updatedCount': nat, createdCount': nat)
    ensures Update(sheets', existingSheetNumbers', updatedCount', createdCount')
      == UpdateCells(Update(sheets, existingSheetNumbers, updatedCount, createdCount), oldSheetNumber, newSheetNumber, newSheetName)
  {
    sheets', existingSheetNumbers', updatedCount', createdCount' := sheets, existingSheetNumbers, updatedCount, createdCount;
    if newSheetNumber.None? || newSheetNumber.value == "" {
      return;
    }
    var number := newSheetNumber.value;
    var target := |sheets|;
    if !(oldSheetNumber.None? || oldSheetNumber.value == "") {
      target := FirstKeyIndex(sheets, SheetNumber, oldSheetNumber.value);
    }
    if target < |sheets| {
      var current := sheets[target].number;
      if number in existingSheetNumbers && current != number {
        number := GetUniqueSheetNumber(number, existingSheetNumbers);
      }
      sheets' := sheets[target := Sheet(number, NameOr(newSheetName))];
      existingSheetNumbers' := existingSheetNumbers - {current} + {number};
      updatedCount' := updatedCount + 1;
    } else {
      var uniqueSheetNumber := GetUniqueSheetNumber(number, existingSheetNumbers);
      sheets' := sheets + [Sheet(uniqueSheetNumber, NameOr(newSheetName))];
      existingSheetNumbers' := existingSheetNumbers + {uniqueSheetNumber};
      createdCount' := createdCount + 1;
    }
  }

  /** `UpdateButton_Click`'s loop after its guards, with the old number released from the
      used set: returns the document's sheets and the two counters. */
  method UpdateSheets(doc: seq<Sheet>, rows: seq<Row>) returns (sheets: seq<Sheet>, updatedCount: nat, createdCount: nat)
    ensures DistinctKeys(doc, SheetNumber) ==>
      DistinctKeys(sheets, SheetNumber) && updatedCount + createdCount == Count(rows, Wanted)
    ensures sheets == UpdateAll(Start(doc), rows).doc
    ensures updatedCount == UpdateAll(Start(doc), rows).updated
    ensures createdCount == UpdateAll(Start(doc), rows).created
  {
    sheets := doc;
    var existingSheetNumbers := Numbers(doc);
    updatedCount, createdCount := 0, 0;
    for i := 0 to |rows|
      invariant Update(sheets, existingSheetNumbers, updatedCount, createdCount) == UpdateAll(Start(doc), rows[..i])
    {
      assert rows[..i + 1][..i] == rows[..i] && rows[..i + 1][i] == rows[i];
      sheets, existingSheetNumbers, updatedCount, createdCount :=
        UpdateOne(sheets, existingSheetNumbers, updatedCount, createdCount, rows[i]);
    }
    assert rows[..|rows|] == rows;
    if DistinctKeys(doc, SheetNumber) {
      UpdateAllSpec(doc, rows);
    }
  }
}
