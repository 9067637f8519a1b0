/** `SheetManagerWindow.MoveSelectedRows`: the "move up" and "move down" buttons of the
    rename grid. Each selected row is taken out of the row collection and put back one
    place higher (`direction == -1`) or lower (`direction == 1`) when that place exists.
    Rows are compared by identity, so the grid's rows are pairwise distinct. */
module SheetManagerWindow {
  import opened Seqs

  /** `IList.IndexOf`: the first position of `x`, or -1. */
  function IndexOf<T(==)>(s: seq<T>, x: T): (r: int)
    ensures -1 <= r < |s|
    ensures r == -1 <==> x !in s
    ensures r >= 0 ==> s[r] == x && forall j :: 0 <= j < r ==> s[j] != x
  {
    if s == [] then -1
    else if s[0] == x then 0
    else
      var k := IndexOf(s[1..], x);
      assert forall j :: 1 <= j < |s| ==> s[j] == s[1..][j - 1];
      if k == -1 then -1 else k + 1
  }

  predicate Distinct<T(==)>(s: seq<T>) {
    forall i, j :: 0 <= i < j < |s| ==> s[i] != s[j]
  }

  /** In a sequence without repeats the position of `s[i]` is `i`. */
  lemma IndexOfDistinct<T>(s: seq<T>, i: nat)
    requires Distinct(s) && i < |s|
    ensures IndexOf(s, s[i]) == i
  {
    var k := IndexOf(s, s[i]);
    assert s[k] == s[i];
  }

  /** `RemoveAt(i)` followed by `Insert(j, x)`. */
  function RemoveAt<T>(s: seq<T>, i: nat): (r: seq<T>)
    requires i < |s|
    ensures |r| == |s| - 1
    ensures multiset(r) + multiset{s[i]} == multiset(s)
  {
    assert s == s[..i] + [s[i]] + s[i + 1..];
    s[..i] + s[i + 1..]
  }

  /** The rows before `i` keep their place; the rows after it move up by one. */
  lemma RemoveAtIndex<T>(s: seq<T>, i: nat)
    requires i < |s|
    ensures forall k :: 0 <= k < i ==> RemoveAt(s, i)[k] == s[k]
    ensures forall k :: i <= k < |s| - 1 ==> RemoveAt(s, i)[k] == s[k + 1]
  {
  }

  function InsertAt<T>(s: seq<T>, j: nat, x: T): (r: seq<T>)
    requires j <= |s|
    ensures |r| == |s| + 1
    ensures multiset(r) == multiset(s) + multiset{x}
    ensures r[j] == x
  {
    assert s == s[..j] + s[j..];
    s[..j] + [x] + s[j..]
  }

  /** The rows before `j` keep their place; the rows from `j` on move down by one. */
  lemma InsertAtIndex<T>(s: seq<T>, j: nat, x: T)
    requires j <= |s|
    ensures forall k :: 0 <= k < j ==> InsertAt(s, j, x)[k] == s[k]
    ensures forall k :: j < k <= |s| ==> InsertAt(s, j, x)[k] == s[k - 1]
  {
  }

  /** One pass of the loop body, given the row's old and new positions: the row is taken
      out and put back at the new position when both are inside the collection. */
  function MoveFrom<T>(rows: seq<T>, row: T, oldIndex: int, newIndex: int): (r: seq<T>)
    ensures 0 <= oldIndex < |rows| && rows[oldIndex] == row ==> multiset(r) == multiset(rows)
  {
    if 0 <= oldIndex < |rows| && 0 <= newIndex < |rows| then InsertAt(RemoveAt(rows, oldIndex), newIndex, row)
    else rows
  }

  /** One pass of the loop body: the row moves by `direction` when the new position is
      inside the collection, and the collection is left alone otherwise (also for a row
      that is not in it, which the selection never holds). */
  function MoveRow<T(==)>(rows: seq<T>, row: T, direction: int): (r: seq<T>)
    ensures multiset(r) == multiset(rows)
  {
    MoveFrom(rows, row, IndexOf(rows, row), IndexOf(rows, row) + direction)
  }

  /** A row whose new position exists trades places with its neighbour; at either end of
      the grid it stays where it is. */
  lemma MoveRowSwaps<T>(rows: seq<T>, i: nat, direction: int)
    requires Distinct(rows) && i < |rows|
    requires direction == -1 || direction == 1
    ensures 0 <= i + direction < |rows| ==>
      MoveRow(rows, rows[i], direction) == rows[i := rows[i + direction]][i + direction := rows[i]]
    ensures !(0 <= i + direction < |rows|) ==> MoveRow(rows, rows[i], direction) == rows
  {
    IndexOfDistinct(rows, i);
    var j := i + direction;
    MoveRowFrom(rows, rows[i], direction, i, j);
    MoveFromCases(rows, rows[i], i, j);
    if 0 <= j < |rows| {
      if direction == -1 {
        SwapUp(rows, i, j);
      } else {
        SwapDown(rows, i, j);
      }
    }
  }

  lemma SwapUp<T>(rows: seq<T>, i: nat, j: nat)
    requires i < |rows| && j == i - 1
    ensures InsertAt(RemoveAt(rows, i), j, rows[i]) == rows[i := rows[j]][j := rows[i]]
  {
    var removed := RemoveAt(rows, i);
    var r := InsertAt(removed, j, rows[i]);
    RemoveAtIndex(rows, i);
    InsertAtIndex(removed, j, rows[i]);
    var swapped := rows[i := rows[j]][j := rows[i]];
    forall k | 0 <= k < |r| ensures r[k] == swapped[k] {
      if k > i {
        assert r[k] == removed[k - 1] == rows[k];
      } else if k == i {
        assert r[k] == removed[j] == rows[j];
      }
    }
  }

  lemma SwapDown<T>(rows: seq<T>, i: nat, j: nat)
    requires j < |rows| && j == i + 1
    ensures InsertAt(RemoveAt(rows, i), j, rows[i]) == rows[i := rows[j]][j := rows[i]]
  {
    var removed := RemoveAt(rows, i);
    var r := InsertAt(removed, j, rows[i]);
    RemoveAtIndex(rows, i);
    InsertAtIndex(removed, j, rows[i]);
    var swapped := rows[i := rows[j]][j := rows[i]];
    forall k | 0 <= k < |r| ensures r[k] == swapped[k] {
      if k > j {
        assert r[k] == removed[k - 1] == rows[k];
      } else if k == i {
        assert r[k] == removed[i] == rows[j];
      }
    }
  }

  /** `MoveRow` in the terms of the loop body. */
  lemma MoveRowFrom<T>(rows: seq<T>, row: T, direction: int, oldIndex: int, newIndex: int)
    requires oldIndex == IndexOf(rows, row) && newIndex == oldIndex + direction
    ensures MoveRow(rows, row, direction) == MoveFrom(rows, row, oldIndex, newIndex)
  {
  }

  lemma MoveFromCases<T>(rows: seq<T>, row: T, oldIndex: int, newIndex: int)
    ensures 0 <= oldIndex < |rows| && 0 <= newIndex < |rows| ==>
      MoveFrom(rows, row, oldIndex, newIndex) == InsertAt(RemoveAt(rows, oldIndex), newIndex, row)
    ensures !(0 <= oldIndex < |rows| && 0 <= newIndex < |rows|) ==> MoveFrom(rows, row, oldIndex, newIndex) == rows
  {
  }

  /** The loop over the first `n` rows of `order`, each row moved in turn in the
      collection as the earlier moves left it. */
  function MoveEach<T(==)>(rows: seq<T>, order: seq<T>, n: nat, direction: int): (r: seq<T>)
    requires n <= |order|
    ensures multiset(r) == multiset(rows)
  {
    if n == 0 then rows
    else MoveRow(MoveEach(rows, order, n - 1, direction), order[n - 1], direction)
  }

  lemma MoveEachStep<T>(rows: seq<T>, order: seq<T>, n: nat, next: nat, direction: int)
    requires n < |order| && next == n + 1
    ensures MoveEach(rows, order, next, direction) == MoveRow(MoveEach(rows, order, n, direction), order[n], direction)
  {
  }

  /** `OrderByDescending(r => rows.IndexOf(r))` and its ascending counterpart; the keys
      are taken from the collection before any row moves. */
  function DescendingByIndex<T(==, !new)>(rows: seq<T>, selected: seq<T>): (r: seq<T>)
    ensures multiset(r) == multiset(selected)
  {
    var le := (a: T, b: T) => IndexOf(rows, b) <= IndexOf(rows, a);
    SortBy(selected, le)
  }

  function AscendingByIndex<T(==, !new)>(rows: seq<T>, selected: seq<T>): (r: seq<T>)
    ensures multiset(r) == multiset(selected)
  {
    var le := (a: T, b: T) => IndexOf(rows, a) <= IndexOf(rows, b);
    SortBy(selected, le)
  }

  /** The method as written: the rows are visited from the bottom up whatever the
      direction. */
  function MoveSelectedAsWritten<T(==, !new)>(rows: seq<T>, selected: seq<T>, direction: int): (r: seq<T>)
    ensures multiset(r) == multiset(rows)
  {
    var order := DescendingByIndex(rows, selected);
    MoveEach(rows, order, |order|, direction)
  }

  /** The corrected visiting order: top down for a move up, bottom up for a move down. */
  function VisitOrder<T(==, !new)>(rows: seq<T>, selected: seq<T>, direction: int): (r: seq<T>)
    ensures multiset(r) == multiset(selected)
  {
    if direction < 0 then AscendingByIndex(rows, selected) else DescendingByIndex(rows, selected)
  }

  /** The corrected method: a move up visits the rows from the top down, a move down
      from the bottom up, so that no row is moved into a place another selected row has
      yet to leave. */
  function MoveSelected<T(==, !new)>(rows: seq<T>, selected: seq<T>, direction: int): (r: seq<T>)
    ensures multiset(r) == multiset(rows)
    ensures selected == [] ==> r == rows
  {
    var order := VisitOrder(rows, selected, direction);
    MoveEach(rows, order, |order|, direction)
  }

  /** The rename grid: its rows and its selection. */
  class RowGrid<T(==, !new)> {
    var rows: seq<T>
    var selected: seq<T>

    constructor (rows: seq<T>)
      ensures this.rows == rows && selected == []
    {
      this.rows := rows;
      selected := [];
    }

    /** `MoveSelectedRows(direction)`, in its corrected visiting order: the rows are
        permuted as `MoveSelected` says and the same rows stay selected. */
    method MoveSelectedRows(direction: int)
      requires forall x :: x in selected ==> x in rows
      modifies this
      ensures rows == MoveSelected(old(rows), old(selected), direction)
      ensures selected == old(selected)
    {
      if |selected| == 0 {
        return;
      }
      var start, chosen := rows, selected;
      var order := VisitOrder(start, chosen, direction);
      var current := start;
      var i := 0;
      while i < |order|
        invariant 0 <= i <= |order|
        invariant current == MoveEach(start, order, i, direction)
        invariant selected == chosen
      {
        var row := order[i];
        var next := i + 1;
        MoveEachStep(start, order, i, next, direction);
        SelectedRowPresent(start, current, chosen, order, i);
        var oldIndex := IndexOf(current, row);
        var newIndex := oldIndex + direction;
        MoveRowFrom(current, row, direction, oldIndex, newIndex);
        MoveFromCases(current, row, oldIndex, newIndex);
        if newIndex >= 0 && newIndex < |current| {
          current := InsertAt(RemoveAt(current, oldIndex), newIndex, row);
        }
        i := next;
      }
      rows := current;
    }
  }

  /** A selected row is still in the collection after any number of moves, so its
      `IndexOf` is never -1. */
  lemma SelectedRowPresent<T>(start: seq<T>, rows: seq<T>, selected: seq<T>, order: seq<T>, i: nat)
    requires forall x :: x in selected ==> x in start
    requires multiset(rows) == multiset(start) && multiset(order) == multiset(selected)
    requires i < |order|
    ensures order[i] in rows
  {
    assert order[i] in multiset(order);
    assert order[i] in selected;
    assert order[i] in multiset(start);
  }

  /** Moving never adds, drops or duplicates a row. */
  lemma MoveSelectedPermutes<T(!new)>(rows: seq<T>, selected: seq<T>, direction: int)
    requires Distinct(rows)
    ensures |MoveSelected(rows, selected, direction)| == |rows|
    ensures Distinct(MoveSelected(rows, selected, direction))
    ensures forall x :: x in rows <==> x in MoveSelected(rows, selected, direction)
  {
    var r := MoveSelected(rows, selected, direction);
    assert |r| == |multiset(r)| == |multiset(rows)| == |rows|;
    forall x ensures x in rows <==> x in r {
      assert x in rows <==> x in multiset(rows);
    }
    forall i, j | 0 <= i < j < |r| ensures r[i] != r[j] {
      if r[i] == r[j] {
        MultisetCountAtLeastTwo(r, i, j);
        var p := IndexOf(rows, r[i]);
        var q := OtherIndex(rows, p);
        assert false;
      }
    }
  }

  /** A single selected row trades places with its neighbour, or stays at the end of the
      grid. */
  lemma MoveSingleRow<T(!new)>(rows: seq<T>, i: nat, direction: int)
    requires Distinct(rows) && i < |rows|
    requires direction == -1 || direction == 1
    ensures 0 <= i + direction < |rows| ==>
      MoveSelected(rows, [rows[i]], direction) == rows[i := rows[i + direction]][i + direction := rows[i]]
    ensures !(0 <= i + direction < |rows|) ==> MoveSelected(rows, [rows[i]], direction) == rows
  {
    var order := VisitOrder(rows, [rows[i]], direction);
    assert order == [rows[i]];
    MoveEachStep(rows, order, 0, 1, direction);
    MoveRowSwaps(rows, i, direction);
  }

  /** The state after the first `k` rows of the block `rows[a..b]` have moved up. */
  function BlockRaised<T>(rows: seq<T>, a: nat, k: nat): seq<T>
    requires 1 <= a && a + k <= |rows|
  {
    rows[..a - 1] + rows[a..a + k] + [rows[a - 1]] + rows[a + k..]
  }

  lemma BlockRaisedAt<T>(rows: seq<T>, a: nat, k: nat)
    requires 1 <= a && a + k <= |rows|
    ensures |BlockRaised(rows, a, k)| == |rows|
    ensures forall j :: 0 <= j < a - 1 ==> BlockRaised(rows, a, k)[j] == rows[j]
    ensures forall j :: a - 1 <= j < a + k - 1 ==> BlockRaised(rows, a, k)[j] == rows[j + 1]
    ensures BlockRaised(rows, a, k)[a + k - 1] == rows[a - 1]
    ensures forall j :: a + k <= j < |rows| ==> BlockRaised(rows, a, k)[j] == rows[j]
  {
  }

  /** In the raised state the next row of the block is still in its own place. */
  lemma RaisedIndex<T>(rows: seq<T>, a: nat, k: nat)
    requires Distinct(rows) && 1 <= a && a + k < |rows|
    ensures IndexOf(BlockRaised(rows, a, k), rows[a + k]) == a + k
  {
    var s := BlockRaised(rows, a, k);
    var row := rows[a + k];
    BlockRaisedAt(rows, a, k);
    assert s[a + k] == row;
    forall j | 0 <= j < a + k ensures s[j] != row {
      if j < a - 1 { assert s[j] == rows[j]; }
      else if j < a + k - 1 { assert s[j] == rows[j + 1]; }
    }
  }

  lemma RaisedShift<T>(rows: seq<T>, a: nat, k: nat)
    requires 1 <= a && a + k < |rows|
    ensures InsertAt(RemoveAt(BlockRaised(rows, a, k), a + k), a + k - 1, rows[a + k])
      == BlockRaised(rows, a, k + 1)
  {
    var s := BlockRaised(rows, a, k);
    BlockRaisedAt(rows, a, k);
    BlockRaisedAt(rows, a, k + 1);
    var removed := RemoveAt(s, a + k);
    var next := InsertAt(removed, a + k - 1, rows[a + k]);
    RemoveAtIndex(s, a + k);
    InsertAtIndex(removed, a + k - 1, rows[a + k]);
    var t := BlockRaised(rows, a, k + 1);
    forall j | 0 <= j < |rows| ensures next[j] == t[j] {
      if j < a + k - 1 {
        assert next[j] == removed[j] == s[j];
      } else if j > a + k {
        assert next[j] == removed[j - 1] == s[j];
      } else if j == a + k {
        assert next[j] == removed[a + k - 1] == s[a + k - 1];
      }
    }
  }

  /** Moving the next row of the block up extends the raised part by one. */
  lemma RaiseBlockStep<T>(rows: seq<T>, a: nat, k: nat)
    requires Distinct(rows) && 1 <= a && a + k < |rows|
    ensures MoveRow(BlockRaised(rows, a, k), rows[a + k], -1) == BlockRaised(rows, a, k + 1)
  {
    RaisedIndex(rows, a, k);
    MoveRowFrom(BlockRaised(rows, a, k), rows[a + k], -1, a + k, a + k - 1);
    MoveFromCases(BlockRaised(rows, a, k), rows[a + k], a + k, a + k - 1);
    RaisedShift(rows, a, k);
  }

  lemma RaiseBlockNone<T>(rows: seq<T>, a: nat, b: nat)
    requires 1 <= a <= b <= |rows|
    ensures MoveEach(rows, rows[a..b], 0, -1) == BlockRaised(rows, a, 0)
  {
    var s := BlockRaised(rows, a, 0);
    BlockRaisedAt(rows, a, 0);
    assert forall j :: 0 <= j < |rows| ==> s[j] == rows[j];
  }

  lemma RaiseBlockMore<T>(rows: seq<T>, a: nat, b: nat, k: nat)
    requires Distinct(rows) && 1 <= a && a + k < b <= |rows|
    requires MoveEach(rows, rows[a..b], k, -1) == BlockRaised(rows, a, k)
    ensures MoveEach(rows, rows[a..b], k + 1, -1) == BlockRaised(rows, a, k + 1)
  {
    MoveEachStep(rows, rows[a..b], k, k + 1, -1);
    RaiseBlockStep(rows, a, k);
    assert rows[a..b][k] == rows[a + k];
  }

  /** After the first `k` rows of the block `rows[a..b]` have been moved up in order,
      they sit above the row that was over the block. */
  lemma RaiseBlock<T>(rows: seq<T>, a: nat, b: nat, k: nat)
    requires Distinct(rows) && 1 <= a && a + k <= b <= |rows|
    ensures MoveEach(rows, rows[a..b], k, -1) == BlockRaised(rows, a, k)
  {
    var i := 0;
    RaiseBlockNone(rows, a, b);
    while i < k
      invariant 0 <= i <= k
      invariant MoveEach(rows, rows[a..b], i, -1) == BlockRaised(rows, a, i)
    {
      RaiseBlockMore(rows, a, b, i);
      i := i + 1;
    }
  }

  lemma BlockRaisedWhole<T>(rows: seq<T>, a: nat, b: nat)
    requires 1 <= a <= b <= |rows|
    ensures BlockRaised(rows, a, b - a) == rows[..a - 1] + rows[a..b] + [rows[a - 1]] + rows[b..]
  {
    assert a + (b - a) == b;
  }

  /** Corrected behaviour: moving a selected block `rows[a..b]` up by one lifts the
      whole block above the row that was just over it. */
  lemma MoveBlockUp<T(!new)>(rows: seq<T>, a: nat, b: nat)
    requires Distinct(rows) && 1 <= a <= b <= |rows|
    ensures MoveSelected(rows, rows[a..b], -1) == rows[..a - 1] + rows[a..b] + [rows[a - 1]] + rows[b..]
  {
    var le := (x: T, y: T) => IndexOf(rows, x) <= IndexOf(rows, y);
    assert SortedBy(rows[a..b], le) by {
      forall i, j | 0 <= i < j < |rows[a..b]| ensures le(rows[a..b][i], rows[a..b][j]) {
        IndexOfDistinct(rows, a + i);
        IndexOfDistinct(rows, a + j);
      }
    }
    SortBySorted(rows[a..b], le);
    assert AscendingByIndex(rows, rows[a..b]) == rows[a..b];
    var n := b - a;
    assert |rows[a..b]| == n;
    RaiseBlock(rows, a, b, n);
    BlockRaisedWhole(rows, a, b);
  }

  /** The as-written visiting order for the lower two rows of three: bottom row first. */
  lemma DescendingExample<T(!new)>(rows: seq<T>)
    requires |rows| == 3 && Distinct(rows)
    ensures DescendingByIndex(rows, rows[1..]) == [rows[2], rows[1]]
  {
    var le := (a: T, b: T) => IndexOf(rows, b) <= IndexOf(rows, a);
    var s := rows[1..];
    IndexOfDistinct(rows, 1);
    IndexOfDistinct(rows, 2);
    assert s[0] == rows[1] && s[1..] == [rows[2]];
    assert SortBy(s[1..], le) == [rows[2]];
    assert !le(rows[1], rows[2]);
    assert SortBy(s, le) == Insert(rows[1], [rows[2]], le) == [rows[2], rows[1]];
  }

  /** The bottom row of three, moved up, trades places with the middle one ... */
  lemma BottomRowUp<T>(rows: seq<T>)
    requires |rows| == 3 && Distinct(rows)
    ensures MoveRow(rows, rows[2], -1) == [rows[0], rows[2], rows[1]]
  {
    MoveRowSwaps(rows, 2, -1);
  }

  /** ... and the middle row, now at the bottom, moved up trades places back. */
  lemma MiddleRowBack<T>(rows: seq<T>)
    requires |rows| == 3 && Distinct(rows)
    ensures MoveRow([rows[0], rows[2], rows[1]], rows[1], -1) == rows
  {
    var swapped := [rows[0], rows[2], rows[1]];
    assert Distinct(swapped);
    MoveRowSwaps(swapped, 2, -1);
  }

  /** As written, moving the two lower rows of three up leaves the grid unchanged: the
      bottom row is moved first, into the place the middle row still holds, and the
      middle row is then moved straight back over it. */
  lemma UpMoveAsWrittenUndoesItself<T(!new)>(rows: seq<T>)
    requires |rows| == 3 && Distinct(rows)
    ensures MoveSelectedAsWritten(rows, rows[1..], -1) == rows
  {
    var order := [rows[2], rows[1]];
    DescendingExample(rows);
    BottomRowUp(rows);
    MiddleRowBack(rows);
    MoveEachStep(rows, order, 0, 1, -1);
    MoveEachStep(rows, order, 1, 2, -1);
  }
}
