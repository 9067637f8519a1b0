/** `SheetManagerViewModel`: the sheet list on the left (`Sheets`, each with a check box),
    the rename grid on the right (`Rows`) and the rename rules. The document is reduced
    to the numbers of its sheets, which `GetUniqueSheetNumber` consults. */
module SheetManager {
  import opened Wrappers
  import opened Seqs
  import opened Text
  import opened Revit

  // ---------------------------------------------------------------------------
  // Unique sheet numbers: candidate, candidate-2, candidate-3, ...

  /** `IsSheetNumberExists`: some sheet of the document has `number`, ignoring case. */
  predicate Taken(existing: seq<string>, number: string) {
    exists e :: e in existing && EqualsIgnoreCase(e, number)
  }

  /** `candidate + "-" + i.ToString()`. */
  function Suffixed(candidate: string, i: nat): (r: string)
    ensures |r| == |candidate| + 1 + |NatToString(i)|
    ensures r[..|candidate|] == candidate && r[|candidate|] == '-'
    ensures forall k :: |candidate| < k < |r| ==> IsDigit(r[k])
  {
    candidate + "-" + NatToString(i)
  }

  /** Different counters give different numbers for the same candidate. */
  lemma SuffixedInjective(candidate: string, i: nat, j: nat)
    requires Suffixed(candidate, i) == Suffixed(candidate, j)
    ensures i == j
  {
    assert Suffixed(candidate, i)[|candidate| + 1..] == NatToString(i);
    assert Suffixed(candidate, j)[|candidate| + 1..] == NatToString(j);
    NatToStringInjective(i, j);
  }

  /** The `i`-th number tried: the candidate itself first, then `candidate-2`, ... */
  function Attempt(candidate: string, i: nat): string {
    if i <= 1 then candidate else Suffixed(candidate, i)
  }

  /** A suffix with more digits than the longest existing number has is free. */
  lemma LongSuffixFree(existing: seq<string>, candidate: string, i: nat)
    ensures i > Pow10(MaxLength(existing)) ==> !Taken(existing, Attempt(candidate, i))
  {
    var m := MaxLength(existing);
    if i > Pow10(m) {
      NatToStringLength(i, m);
      forall e | e in existing ensures !EqualsIgnoreCase(e, Attempt(candidate, i)) {
        var k :| 0 <= k < |existing| && existing[k] == e;
        assert |Fold(e)| <= m < |Fold(Attempt(candidate, i))|;
      }
    }
  }

  /** The first free attempt from the `i`-th on. */
  function FirstFree(existing: seq<string>, candidate: string, i: nat): string
    requires i >= 1
    decreases Pow10(MaxLength(existing)) + 1 - i
  {
    if !Taken(existing, Attempt(candidate, i)) then Attempt(candidate, i)
    else
      LongSuffixFree(existing, candidate, i);
      FirstFree(existing, candidate, i + 1)
  }

  /** The number `GetUniqueSheetNumber` returns. */
  function UniqueNumber(existing: seq<string>, candidate: string): string {
    FirstFree(existing, candidate, 1)
  }

  /** `FirstFree` returns the first free attempt from the `i`-th on. */
  lemma {:induction false} FirstFreeSpec(existing: seq<string>, candidate: string, i: nat)
    requires i >= 1
    ensures !Taken(existing, FirstFree(existing, candidate, i))
    ensures exists k :: (k >= i && FirstFree(existing, candidate, i) == Attempt(candidate, k)
      && forall j :: i <= j < k ==> Taken(existing, Attempt(candidate, j)))
    decreases Pow10(MaxLength(existing)) + 1 - i
  {
    var r := FirstFree(existing, candidate, i);
    if !Taken(existing, Attempt(candidate, i)) {
      assert r == Attempt(candidate, i);
    } else {
      LongSuffixFree(existing, candidate, i);
      var next := i + 1;
      FirstFreeSpec(existing, candidate, next);
      assert r == FirstFree(existing, candidate, next);
      var k :| (k >= next && FirstFree(existing, candidate, next) == Attempt(candidate, k)
        && forall j :: next <= j < k ==> Taken(existing, Attempt(candidate, j)));
      assert r == Attempt(candidate, k);
      forall j | i <= j < k ensures Taken(existing, Attempt(candidate, j)) {
        if j != i {
          assert next <= j < k;
        }
      }
    }
  }

  /** The result is never an existing number: the candidate itself when it is free,
      otherwise `candidate-k` for the least `k >= 2` that is free. */
  lemma UniqueNumberSpec(existing: seq<string>, candidate: string)
    ensures !Taken(existing, UniqueNumber(existing, candidate))
    ensures !Taken(existing, candidate) ==> UniqueNumber(existing, candidate) == candidate
    ensures Taken(existing, candidate) ==>
      exists k :: (k >= 2 && UniqueNumber(existing, candidate) == Suffixed(candidate, k)
        && forall j :: 2 <= j < k ==> Taken(existing, Suffixed(candidate, j)))
  {
    FirstFreeSpec(existing, candidate, 1);
    if Taken(existing, candidate) {
      var k :| (k >= 1 && FirstFree(existing, candidate, 1) == Attempt(candidate, k)
        && forall j :: 1 <= j < k ==> Taken(existing, Attempt(candidate, j)));
      assert k != 1;
      forall j | 2 <= j < k ensures Taken(existing, Suffixed(candidate, j)) {
        assert Attempt(candidate, j) == Suffixed(candidate, j);
      }
    }
  }

  /** `GetUniqueSheetNumber`: tries the candidate, then `candidate-2`, `candidate-3`, ... */
  method GetUniqueSheetNumber(existing: seq<string>, candidate: string) returns (cand: string)
    ensures cand == UniqueNumber(existing, candidate)
  {
    cand := candidate;
    var i := 2;
    ghost var tried := 1;
    while Taken(existing, cand)
      invariant i >= 2 && tried == i - 1
      invariant cand == Attempt(candidate, tried)
      invariant FirstFree(existing, candidate, 1) == FirstFree(existing, candidate, tried)
      decreases Pow10(MaxLength(existing)) + 1 - tried
    {
      LongSuffixFree(existing, candidate, tried);
      cand := candidate + "-" + NatToString(i);
      tried := i;
      i := i + 1;
    }
  }

  // ---------------------------------------------------------------------------
  // The rename rule

  /** The new name of a row: `Find` replaced by `Replace` when `Find` is not empty, then
      `Prefix` in front and `Suffix` behind, each when not empty. */
  function RenamedName(current: string, find: string, replace: string, prefix: string, suffix: string): string {
    var replaced := if find != "" then ReplaceAll(current, find, replace) else current;
    var prefixed := if prefix != "" then prefix + replaced else replaced;
    if suffix != "" then prefixed + suffix else prefixed
  }

  /** Without rules a row keeps its current name. */
  lemma RenameWithoutRules(current: string, replace: string)
    ensures RenamedName(current, "", replace, "", "") == current
  {
  }

  /** A name in which `Find` does not occur only gets the prefix and the suffix. */
  lemma RenameWithoutMatch(current: string, find: string, replace: string, prefix: string, suffix: string)
    requires find != "" && !Contains(current, find)
    ensures RenamedName(current, find, replace, prefix, suffix) == prefix + current + suffix
  {
    ReplaceAllAbsent(current, find, replace);
  }

  /** Replacing `Find` by itself only adds the prefix and the suffix. */
  lemma RenameReplaceSelf(current: string, find: string, prefix: string, suffix: string)
    ensures RenamedName(current, find, find, prefix, suffix) == prefix + current + suffix
  {
    if find != "" {
      ReplaceSelf(current, find);
    }
  }

  // ---------------------------------------------------------------------------
  // Sheets and rows

  /** `SheetItem`: a sheet of the document; the check box is its only changing part. */
  class SheetItem {
    const id: ElementId
    const number: string
    const name: string
    var isChecked: bool

    constructor (id: ElementId, number: string, name: string)
      ensures this.id == id && this.number == number && this.name == name && !isChecked
    {
      this.id := id;
      this.number := number;
      this.name := name;
      isChecked := false;
    }
  }

  /** `SheetRow`: a row of the rename grid; the rename rules write `NewName`. */
  class SheetRow {
    const currentNumber: string
    const newNumber: string
    const currentName: string
    var newName: string
    const newSheetId: Option<ElementId>

    constructor (currentNumber: string, newNumber: string, currentName: string, newName: string,
                 newSheetId: Option<ElementId>)
      ensures this.currentNumber == currentNumber && this.newNumber == newNumber
      ensures this.currentName == currentName && this.newName == newName && this.newSheetId == newSheetId
    {
      this.currentNumber := currentNumber;
      this.newNumber := newNumber;
      this.currentName := currentName;
      this.newName := newName;
      this.newSheetId := newSheetId;
    }
  }

  /** Sheets and rows are matched by number and name. */
  type Key = (string, string)

  function SheetKey(s: SheetItem): Key {
    (s.number, s.name)
  }

  function RowKey(r: SheetRow): Key {
    (r.currentNumber, r.currentName)
  }

  function RowKeys(rows: seq<SheetRow>): set<Key> {
    set r | r in rows :: RowKey(r)
  }

  lemma RowKeysSnoc(rows: seq<SheetRow>, r: SheetRow)
    ensures RowKeys(rows + [r]) == RowKeys(rows) + {RowKey(r)}
  {
    assert forall x :: x in rows + [r] <==> x in rows || x == r;
  }

  /** `Sheets.Where(s => s.IsChecked)`. */
  function CheckedSheets(sheets: seq<SheetItem>): (r: seq<SheetItem>)
    reads set s | s in sheets
    ensures forall i :: 0 <= i < |r| ==> r[i] in sheets && r[i].isChecked
    ensures forall i :: 0 <= i < |sheets| && sheets[i].isChecked ==> sheets[i] in r
  {
    if sheets == [] then []
    else
      var rest := CheckedSheets(sheets[1..]);
      assert forall i :: 1 <= i < |sheets| ==> sheets[i] == sheets[1..][i - 1];
      if sheets[0].isChecked then [sheets[0]] + rest else rest
  }

  /** `Sheets.FirstOrDefault(s => s.Number == number && s.Name == name)`. */
  function FirstSheet(sheets: seq<SheetItem>, key: Key): (r: Option<SheetItem>)
    ensures r.Some? ==> r.value in sheets && SheetKey(r.value) == key
    ensures r.None? ==> forall s :: s in sheets ==> SheetKey(s) != key
  {
    var i := FirstKeyIndex(sheets, SheetKey, key);
    if i < |sheets| then Some(sheets[i]) else None
  }

  /** `Rows.Remove(row)`: the first occurrence goes, if there is one. */
  function RemoveFirst<T(==)>(s: seq<T>, x: T): (r: seq<T>)
    ensures multiset(r) == multiset(s) - multiset{x}
    ensures x in s ==> |r| == |s| - 1
    ensures x !in s ==> r == s
  {
    if s == [] then []
    else if s[0] == x then
      assert s == [s[0]] + s[1..];
      s[1..]
    else
      assert s == [s[0]] + s[1..];
      [s[0]] + RemoveFirst(s[1..], x)
  }

  /** The rows left after removing each row of `selected` in turn. */
  function RemoveEach<T(==)>(rows: seq<T>, selected: seq<T>): (r: seq<T>)
    ensures multiset(r) == multiset(rows) - multiset(selected)
  {
    if selected == [] then rows
    else
      var n := |selected| - 1;
      assert selected == selected[..n] + [selected[n]];
      RemoveFirst(RemoveEach(rows, selected[..n]), selected[n])
  }

  /** `RemoveEach` with one more selected row removes that row from what was left. */
  lemma RemoveEachNext<T>(rows: seq<T>, selected: seq<T>, i: nat)
    requires i < |selected|
    ensures RemoveEach(rows, selected[..i + 1]) == RemoveFirst(RemoveEach(rows, selected[..i]), selected[i])
  {
    assert selected[..i + 1][..i] == selected[..i];
  }

  /** In a sequence without repetitions every element occurs once. */
  lemma DistinctCountOne<T>(s: seq<T>, p: nat)
    requires forall i, j :: 0 <= i < j < |s| ==> s[i] != s[j]
    requires p < |s|
    ensures multiset(s)[s[p]] == 1
  {
    var x := s[p];
    assert s == s[..p] + [x] + s[p + 1..];
    assert multiset(s)[x] == multiset(s[..p])[x] + 1 + multiset(s[p + 1..])[x];
    var head, tail := s[..p], s[p + 1..];
    forall k | 0 <= k < |head| ensures head[k] != x {
      assert head[k] == s[k];
    }
    forall k | 0 <= k < |tail| ensures tail[k] != x {
      assert tail[k] == s[p + 1 + k];
    }
    assert x !in head && x !in tail;
  }

  /** With rows that are pairwise distinct objects, a row survives the removal exactly
      when it was not selected. */
  lemma RemoveEachKeepsOthers<T>(rows: seq<T>, selected: seq<T>, r: T)
    requires forall i, j :: 0 <= i < j < |rows| ==> rows[i] != rows[j]
    ensures r in RemoveEach(rows, selected) <==> r in rows && r !in selected
  {
    var left := RemoveEach(rows, selected);
    assert r in left <==> r in multiset(left);
    if r in rows {
      var p :| 0 <= p < |rows| && rows[p] == r;
      DistinctCountOne(rows, p);
    }
  }

  /** The sheets `ExecuteMoveToLeft` unchecks: for each removed row, the first sheet with
      its number and name. */
  function UncheckedBy(sheets: seq<SheetItem>, selected: seq<SheetRow>): (r: set<SheetItem>)
    ensures forall s :: s in r ==> s in sheets
  {
    if selected == [] then {}
    else
      var n := |selected| - 1;
      UncheckedBy(sheets, selected[..n]) + FirstSheetSet(sheets, RowKey(selected[n]))
  }

  /** The sheet `FirstSheet` finds, as a set of at most one. */
  function FirstSheetSet(sheets: seq<SheetItem>, key: Key): (r: set<SheetItem>)
    ensures forall s :: s in r ==> s in sheets && SheetKey(s) == key
  {
    match FirstSheet(sheets, key)
    case None => {}
    case Some(s) => {s}
  }

  lemma UncheckedByNext(sheets: seq<SheetItem>, selected: seq<SheetRow>, i: nat)
    requires i < |selected|
    ensures UncheckedBy(sheets, selected[..i + 1])
      == UncheckedBy(sheets, selected[..i]) + FirstSheetSet(sheets, RowKey(selected[i]))
  {
    assert selected[..i + 1][..i] == selected[..i];
  }

  /** A row made from a sheet: same number and name, a unique new number and the
      sheet's id (its new name, which may change, starts as the sheet's name). */
  predicate IsRowFor(r: SheetRow, s: SheetItem, docNumbers: seq<string>) {
    && r.currentNumber == s.number && r.currentName == s.name
    && r.newNumber == UniqueNumber(docNumbers, s.number)
    && r.newSheetId == Some(s.id)
  }

  /** The sheets `MoveCheckedSheetsToRows` turns into rows: the checked ones, skipping a
      sheet whose number and name some row (old or just added) already has. */
  function Moved(checked: seq<SheetItem>, rows: seq<SheetRow>): seq<SheetItem> {
    DistinctFrom(checked, SheetKey, RowKeys(rows))
  }

  /** One step of `DistinctFrom` at index `i`. */
  lemma DistinctFromAt<T, K>(s: seq<T>, key: T -> K, seen: set<K>, i: nat)
    requires i < |s|
    ensures DistinctFrom(s[i..], key, seen) == if key(s[i]) in seen then DistinctFrom(s[i + 1..], key, seen)
      else [s[i]] + DistinctFrom(s[i + 1..], key, seen + {key(s[i])})
  {
    assert s[i..][1..] == s[i + 1..];
  }

  lemma RowKeysHas(rows: seq<SheetRow>, key: Key)
    ensures key in RowKeys(rows) <==> exists r :: r in rows && RowKey(r) == key
  {
  }

  /** A sheet whose key was seen is skipped. */
  lemma MovedSkip(checked: seq<SheetItem>, seen: set<Key>, i: nat)
    requires i < |checked| && SheetKey(checked[i]) in seen
    ensures DistinctFrom(checked[i..], SheetKey, seen) == DistinctFrom(checked[i + 1..], SheetKey, seen)
  {
    DistinctFromAt(checked, SheetKey, seen, i);
  }

  /** A sheet whose key was not seen is moved, and the row made for it adds its key. */
  lemma MovedTake(checked: seq<SheetItem>, rows: seq<SheetRow>, made: seq<SheetRow>, row: SheetRow,
                  i: nat, added: seq<SheetItem>, target: seq<SheetItem>)
    requires i < |checked| && RowKey(row) == SheetKey(checked[i])
    requires SheetKey(checked[i]) !in RowKeys(rows + made)
    requires added + DistinctFrom(checked[i..], SheetKey, RowKeys(rows + made)) == target
    ensures (added + [checked[i]]) + DistinctFrom(checked[i + 1..], SheetKey, RowKeys(rows + (made + [row]))) == target
  {
    var seen := RowKeys(rows + made);
    var rest := DistinctFrom(checked[i + 1..], SheetKey, seen + {SheetKey(checked[i])});
    DistinctFromAt(checked, SheetKey, seen, i);
    RowKeysSnoc(rows + made, row);
    assert rows + made + [row] == rows + (made + [row]);
    assert (added + [checked[i]]) + rest == added + ([checked[i]] + rest);
  }

  /** Every checked sheet ends up with a row: an old one with its number and name, or one
      of the new rows. */
  lemma MovedCovers(checked: seq<SheetItem>, rows: seq<SheetRow>, s: SheetItem)
    requires s in checked
    ensures SheetKey(s) in RowKeys(rows)
      || exists k :: 0 <= k < |Moved(checked, rows)| && SheetKey(Moved(checked, rows)[k]) == SheetKey(s)
  {
    if SheetKey(s) !in RowKeys(rows) {
      var moved := DistinctFrom(checked, SheetKey, RowKeys(rows));
      DistinctFromCovers(checked, SheetKey, RowKeys(rows), s);
      var i :| 0 <= i < |moved| && SheetKey(moved[i]) == SheetKey(s);
      assert moved == Moved(checked, rows);
    }
  }

  /** The moved sheets have keys no old row has, and no two of them share a key. */
  lemma MovedKeysNew(checked: seq<SheetItem>, rows: seq<SheetRow>)
    ensures forall k :: 0 <= k < |Moved(checked, rows)| ==> SheetKey(Moved(checked, rows)[k]) !in RowKeys(rows)
    ensures DistinctKeys(Moved(checked, rows), SheetKey)
  {
    DistinctFromSubset(checked, SheetKey, RowKeys(rows));
    DistinctFromDistinct(checked, SheetKey, RowKeys(rows));
  }

  /** `SheetManagerViewModel`. */
  class SheetManagerViewModel {
    var sheets: seq<SheetItem>
    var rows: seq<SheetRow>
    var selectAll: bool
    var prefix: string
    var suffix: string
    var find: string
    var replace: string
    var applyToName: bool
    var applyToNumber: bool
    /** The numbers of all sheets of the document, placeholders included. */
    const docNumbers: seq<string>

    /** Everything but the rows. */
    function Settings(): (seq<SheetItem>, bool, string, string, string, string, bool, bool)
      reads this
    {
      (sheets, selectAll, prefix, suffix, find, replace, applyToName, applyToNumber)
    }

    /** The two radio buttons "Sheet Name" and "Sheet Number". */
    predicate Complementary()
      reads this
    {
      applyToName == !applyToNumber
    }

    constructor (sheets: seq<SheetItem>, docNumbers: seq<string>)
      ensures this.sheets == sheets && this.docNumbers == docNumbers && rows == [] && !selectAll
      ensures prefix == "" && suffix == "" && find == "" && replace == ""
      ensures applyToName && Complementary()
    {
      this.sheets := sheets;
      this.docNumbers := docNumbers;
      rows := [];
      selectAll := false;
      prefix, suffix, find, replace := "", "", "", "";
      applyToName := true;
      applyToNumber := false;
    }

    /** The `ApplyToName` setter. */
    method SetApplyToName(value: bool)
      modifies this
      ensures applyToName == value && Complementary()
      ensures sheets == old(sheets) && rows == old(rows) && selectAll == old(selectAll)
      ensures prefix == old(prefix) && suffix == old(suffix) && find == old(find) && replace == old(replace)
    {
      applyToName := value;
      applyToNumber := !value;
    }

    /** The `ApplyToNumber` setter. */
    method SetApplyToNumber(value: bool)
      modifies this
      ensures applyToNumber == value && Complementary()
      ensures sheets == old(sheets) && rows == old(rows) && selectAll == old(selectAll)
      ensures prefix == old(prefix) && suffix == old(suffix) && find == old(find) && replace == old(replace)
    {
      applyToNumber := value;
      applyToName := !value;
    }

    /** The `SelectAll` setter: every sheet gets the new check state. */
    method SetSelectAll(value: bool)
      modifies this, set s | s in sheets
      ensures selectAll == value && sheets == old(sheets) && rows == old(rows)
      ensures prefix == old(prefix) && suffix == old(suffix) && find == old(find) && replace == old(replace)
      ensures applyToName == old(applyToName) && applyToNumber == old(applyToNumber)
      ensures forall s :: s in sheets ==> s.isChecked == value
    {
      selectAll := value;
      var items := sheets;
      for i := 0 to |items|
        modifies set s | s in items
        invariant forall j :: 0 <= j < i ==> items[j].isChecked == value
      {
        items[i].isChecked := value;
      }
    }

    /** `ApplyRules`: refused (with a notice) unless the rules apply to names; otherwise
        every row's new name is computed afresh from its current name. */
    method ApplyRules() returns (notice: bool)
      modifies set r | r in rows
      ensures notice == !applyToName
      ensures !applyToName ==> forall r :: r in rows ==> r.newName == old(r.newName)
      ensures applyToName ==> forall r :: r in rows ==>
        r.newName == RenamedName(r.currentName, find, replace, prefix, suffix)
    {
      if !applyToName {
        return true;
      }
      notice := false;
      for i := 0 to |rows|
        invariant forall j :: 0 <= j < i ==>
          rows[j].newName == RenamedName(rows[j].currentName, find, replace, prefix, suffix)
      {
        var row := rows[i];
        var name := row.currentName;
        if find != "" {
          name := ReplaceAll(name, find, replace);
        }
        if prefix != "" {
          name := prefix + name;
        }
        if suffix != "" {
          name := name + suffix;
        }
        row.newName := name;
      }
    }

    /** `ExecuteMoveToLeft`: each given row leaves the grid, and the first sheet with its
        number and name is unchecked. */
    method ExecuteMoveToLeft(selectedRows: seq<SheetRow>)
      modifies this, set s | s in sheets
      ensures rows == RemoveEach(old(rows), selectedRows)
      ensures Settings() == old(Settings())
      ensures forall s :: s in sheets ==>
        s.isChecked == (if s in UncheckedBy(sheets, selectedRows) then false else old(s.isChecked))
    {
      rows := RemoveRows(sheets, rows, selectedRows);
    }

    /** `MoveCheckedSheetsToRows`: a notice when nothing is checked; otherwise a row for
        every checked sheet whose number and name no row has yet. */
    method MoveCheckedSheetsToRows() returns (notice: bool)
      modifies this
      ensures notice <==> CheckedSheets(sheets) == []
      ensures Settings() == old(Settings())
      ensures var moved := Moved(CheckedSheets(sheets), old(rows)); var n := |old(rows)|;
        && |rows| == n + |moved| && rows[..n] == old(rows)
        && forall k :: n <= k < |rows| ==>
             fresh(rows[k]) && IsRowFor(rows[k], moved[k - n], docNumbers) && rows[k].newName == moved[k - n].name
    {
      var checked := CheckedSheets(sheets);
      if |checked| == 0 {
        return true;
      }
      notice := false;
      ghost var n := |rows|;
      ghost var moved := Moved(checked, rows);
      var made := AddRows(checked, rows, docNumbers);
      rows := rows + made;
      forall k | n <= k < |rows|
        ensures fresh(rows[k]) && IsRowFor(rows[k], moved[k - n], docNumbers) && rows[k].newName == moved[k - n].name
      {
        assert rows[k] == made[k - n];
      }
      assert CheckedSheets(sheets) == checked;
    }
  }

  /** The loop of `ExecuteMoveToLeft`: removes each selected row and unchecks the first
      sheet with its number and name. */
  method RemoveRows(sheets: seq<SheetItem>, rows: seq<SheetRow>, selected: seq<SheetRow>)
    returns (left: seq<SheetRow>)
    modifies set s | s in sheets
    ensures left == RemoveEach(rows, selected)
    ensures forall s :: s in sheets ==>
      s.isChecked == (if s in UncheckedBy(sheets, selected) then false else old(s.isChecked))
  {
    left := rows;
    for i := 0 to |selected|
      invariant left == RemoveEach(rows, selected[..i])
      invariant forall s :: s in sheets ==>
        s.isChecked == (if s in UncheckedBy(sheets, selected[..i]) then false else old(s.isChecked))
    {
      var row := selected[i];
      RemoveEachNext(rows, selected, i);
      UncheckedByNext(sheets, selected, i);
      var sheet := FirstSheet(sheets, RowKey(row));
      if sheet.Some? {
        sheet.value.isChecked := false;
      }
      left := RemoveFirst(left, row);
    }
    assert selected[..|selected|] == selected;
  }

  /** The row `MoveCheckedSheetsToRows` makes for a sheet. */
  method NewRow(sheet: SheetItem, docNumbers: seq<string>) returns (row: SheetRow)
    ensures fresh(row) && IsRowFor(row, sheet, docNumbers) && row.newName == sheet.name
  {
    var newNumber := GetUniqueSheetNumber(docNumbers, sheet.number);
    row := new SheetRow(sheet.number, newNumber, sheet.name, sheet.name, Some(sheet.id));
  }

  /** The loop of `MoveCheckedSheetsToRows`: a new row for each checked sheet whose number
      and name no row has yet, in order. */
  method AddRows(checked: seq<SheetItem>, rows: seq<SheetRow>, docNumbers: seq<string>)
    returns (made: seq<SheetRow>)
    ensures |made| == |Moved(checked, rows)|
    ensures forall k :: 0 <= k < |made| ==>
      fresh(made[k]) && IsRowFor(made[k], Moved(checked, rows)[k], docNumbers)
      && made[k].newName == Moved(checked, rows)[k].name
  {
    made := [];
    ghost var added: seq<SheetItem> := [];
    assert rows + made == rows && checked[0..] == checked;
    for i := 0 to |checked|
      invariant |made| == |added|
      invariant forall k :: 0 <= k < |made| ==>
        fresh(made[k]) && IsRowFor(made[k], added[k], docNumbers) && made[k].newName == added[k].name
      invariant added + DistinctFrom(checked[i..], SheetKey, RowKeys(rows + made)) == Moved(checked, rows)
    {
      var sheet := checked[i];
      var current := rows + made;
      var alreadyExists := exists r :: r in current && RowKey(r) == SheetKey(sheet);
      RowKeysHas(current, SheetKey(sheet));
      if !alreadyExists {
        var row := NewRow(sheet, docNumbers);
        MovedTake(checked, rows, made, row, i, added, Moved(checked, rows));
        made := made + [row];
        added := added + [sheet];
      } else {
        MovedSkip(checked, RowKeys(current), i);
      }
    }
    assert added == Moved(checked, rows);
  }
}
