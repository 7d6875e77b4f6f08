/// What becomes of a pending insert: whatever else happens to other rows, its row
/// gives every column the last value set in it, and the columns stay in order.
module QueueInserts {
  import opened Text
  import opened Sequences
  import opened EditQueue
  import opened QueueLaws
  import opened QueuePending

  // ---- Rows ----

  function Columns(row: Row): (r: seq<string>)
    ensures |r| == |row|
  {
    seq(|row|, i requires 0 <= i < |row| => row[i].column)
  }

  /** Setting a column is seen in that column and in no other. */
  lemma {:induction false} SetThenGet(row: Row, column: string, v: Value, other: string)
    ensures RowGet(RowSet(row, column, v), other) == if other == column then v else RowGet(row, other)
  {
    if row != [] && row[0].column != column {
      SetThenGet(row[1..], column, v, other);
    }
  }

  lemma ColumnsCons(cell: Cell, rest: Row)
    ensures Columns([cell] + rest) == [cell.column] + Columns(rest)
  {
  }

  /** Setting a column moves none; a new one comes last. */
  lemma {:induction false} SetColumns(row: Row, column: string, v: Value)
    ensures Columns(RowSet(row, column, v)) == if column in Columns(row) then Columns(row) else Columns(row) + [column]
  {
    if row != [] {
      assert row == [row[0]] + row[1..];
      ColumnsCons(row[0], row[1..]);
      if row[0].column == column {
        ColumnsCons(Cell(column, v), row[1..]);
      } else {
        SetColumns(row[1..], column, v);
        ColumnsCons(row[0], RowSet(row[1..], column, v));
      }
    }
  }

  // ---- One operation ----

  lemma OtherKindStays(float: Float, st: State, row: string, column: string, old0: Value, v: Value, original: Row, other: string, kind: ChangeType)
    requires kind != Update
    ensures LastOf(UpdateCell(float, st, row, column, old0, v, original).changes, other, kind) == LastOf(st.changes, other, kind)
  {
    hide KeyOf, LastOf, IndexOf, Opened, WithoutKey, ValuesEqual, RowGet, DropCell, SetCell;
    OpenedAt(st, row, original);
    OpenedStays(st, row, original, other, kind);
    var o := Opened(st, row, original);
    IndexIsLast(o.changes, row, Update);
    var i := IndexOf(o.changes)[KeyOf(row, Update)];
    var c := o.changes[i];
    if ValuesEqual(float, v, RowGet(c.original, column)) {
      var d := c.(cells := DropCell(c.cells, column));
      LastReplaced(o.changes, i, d, other, kind);
      LastRemoved(o.changes[i := d], row, Update, other, kind);
    } else {
      LastReplaced(o.changes, i, c.(cells := SetCell(c.cells, column, old0, v)), other, kind);
    }
  }

  lemma OpenedStays(st: State, row: string, original: Row, other: string, kind: ChangeType)
    requires kind != Update
    ensures LastOf(Opened(st, row, original).changes, other, kind) == LastOf(st.changes, other, kind)
  {
    hide KeyOf, LastOf, IndexOf;
    LastAppended(st.changes, RowChange(row, Update, [], original, [], st.next + 1), other, kind);
  }

  lemma EditedInsert(st: State, row: string, column: string, v: Value, other: string, kind: ChangeType)
    requires KeyOf(row, Insert) in IndexOf(st.changes)
    ensures LastOf(st.changes, row, Insert).Some?
    ensures var c := LastOf(st.changes, row, Insert).value;
      LastOf(EditInsert(st, row, column, v).changes, other, kind)
        == if other == row && kind == Insert then Some(c.(newRow := RowSet(c.newRow, column, v))) else LastOf(st.changes, other, kind)
  {
    hide KeyOf, LastOf, IndexOf, RowSet;
    IndexIsLast(st.changes, row, Insert);
    var i := IndexOf(st.changes)[KeyOf(row, Insert)];
    var c := st.changes[i];
    LastReplaced(st.changes, i, c.(newRow := RowSet(c.newRow, column, v)), other, kind);
  }

  /** The pending insert of row r after an edit of any row. */
  lemma InsertAfterEdit(float: Float, st: State, e: Op, r: string)
    requires e.Edit? && LastOf(st.changes, r, Insert).Some?
    ensures var c := LastOf(st.changes, r, Insert).value;
      LastOf(Apply(float, st, e).changes, r, Insert)
        == Some(if e.rowId == r && !ValuesEqual(float, e.oldValue, e.newValue) then c.(newRow := RowSet(c.newRow, e.column, e.newValue)) else c)
  {
    hide KeyOf, LastOf, IndexOf, RowSet, ValuesEqual, UpdateCell, EditInsert;
    LastIndexed(st.changes, r, Insert);
    if KeyOf(e.rowId, Insert) in IndexOf(st.changes) {
      EditedInsert(st, e.rowId, e.column, e.newValue, r, Insert);
    } else {
      OtherKindStays(float, st, e.rowId, e.column, e.oldValue, e.newValue, e.original, r, Insert);
    }
  }

  // ---- Runs ----

  /** What column of the pending insert of row r shows. */
  function Shown(st: State, r: string, column: string): Value {
    var c := LastOf(st.changes, r, Insert);
    if c.None? then Null else RowGet(c.value.newRow, column)
  }

  /** Row r is not inserted a second time, and nothing is undone or cleared. */
  predicate Beside(op: Op, r: string) { op.Edit? || op.AddDelete? || (op.AddInsert? && op.rowId != r) }

  /** The operations in order; an edit of row r passes what its insert shows as the old value. */
  function Follow(float: Float, st: State, r: string, ops: seq<Op>): State {
    if ops == [] then st else
    var s, op := Follow(float, st, r, ops[..|ops| - 1]), ops[|ops| - 1];
    Apply(float, s, if op.Edit? && op.rowId == r then op.(oldValue := Shown(s, r, op.column)) else op)
  }

  /** The last value set in a column of row r. */
  function LastSet(ops: seq<Op>, r: string, column: string): Option<Value> {
    if ops == [] then None else
    var op := ops[|ops| - 1];
    if op.Edit? && op.rowId == r && op.column == column then Some(op.newValue) else LastSet(ops[..|ops| - 1], r, column)
  }

  /** A column gives the last value set, or the inserted row's own when none was. */
  predicate Gives(float: Float, row: Row, now: Row, last: Option<Value>, column: string) {
    if last.None? then RowGet(now, column) == RowGet(row, column) else ValuesEqual(float, RowGet(now, column), last.value)
  }

  /** The inserted row's columns in their places, then other columns in the order they were first set. */
  ghost predicate Extends(row: Row, now: Row, ops: seq<Op>, r: string) {
    && Columns(row) <= Columns(now)
    && forall i :: |row| <= i < |now| ==> Columns(now)[i] !in Columns(now)[..i] && LastSet(ops, r, Columns(now)[i]).Some?
  }

  lemma SetExtends(row: Row, now: Row, init: seq<Op>, op: Op, r: string)
    requires Extends(row, now, init, r) && op.Edit? && op.rowId == r
    ensures Extends(row, RowSet(now, op.column, op.newValue), init + [op], r)
  {
    hide LastSet, RowSet;
    SetColumns(now, op.column, op.newValue);
    var next := RowSet(now, op.column, op.newValue);
    assert |Columns(next)| == |next| && |Columns(now)| == |now|;
    forall i | |row| <= i < |next|
      ensures Columns(next)[i] !in Columns(next)[..i] && LastSet(init + [op], r, Columns(next)[i]).Some?
    {
      LastSetSnoc(init, op, r, Columns(next)[i]);
      if i < |now| {
        assert Columns(next)[i] == Columns(now)[i] && Columns(next)[..i] == Columns(now)[..i];
      } else {
        assert Columns(next)[..i] == Columns(now);
      }
    }
  }

  lemma LastSetSnoc(init: seq<Op>, op: Op, r: string, column: string)
    ensures LastSet(init + [op], r, column)
      == if op.Edit? && op.rowId == r && op.column == column then Some(op.newValue) else LastSet(init, r, column)
  {
    assert (init + [op])[..|init|] == init;
  }

  lemma StaysExtended(row: Row, now: Row, init: seq<Op>, op: Op, r: string)
    requires Extends(row, now, init, r)
    ensures Extends(row, now, init + [op], r)
  {
    hide LastSet;
    forall i | |row| <= i < |now| ensures LastSet(init + [op], r, Columns(now)[i]).Some? {
      LastSetSnoc(init, op, r, Columns(now)[i]);
    }
  }

  /** The pending insert after a run: only its row has changed, as the edits of the row say. */
  ghost predicate InsertStands(float: Float, row: Row, ops: seq<Op>, r: string, n: nat, c: Option<RowChange>) {
    && c.Some? && c.value == RowChange(r, Insert, [], [], c.value.newRow, n)
    && Extends(row, c.value.newRow, ops, r)
    && forall column :: Gives(float, row, c.value.newRow, LastSet(ops, r, column), column)
  }

  lemma StandsAfterEdit(float: Float, row: Row, init: seq<Op>, op: Op, r: string, n: nat, c: RowChange)
    requires InsertStands(float, row, init, r, n, Some(c)) && op.Edit? && op.rowId == r
    ensures InsertStands(float, row, init + [op], r, n,
      Some(if ValuesEqual(float, RowGet(c.newRow, op.column), op.newValue) then c else c.(newRow := RowSet(c.newRow, op.column, op.newValue))))
  {
    hide LastSet, RowSet, RowGet, ValuesEqual, Extends;
    var v := op.newValue;
    SetExtends(row, c.newRow, init, op, r);
    StaysExtended(row, c.newRow, init, op, r);
    var next := if ValuesEqual(float, RowGet(c.newRow, op.column), v) then c.newRow else RowSet(c.newRow, op.column, v);
    forall column ensures Gives(float, row, next, LastSet(init + [op], r, column), column) {
      LastSetSnoc(init, op, r, column);
      SetThenGet(c.newRow, op.column, v, column);
      ValuesEqualIsEquivalence(float, v, v, v);
      assert Gives(float, row, c.newRow, LastSet(init, r, column), column);
    }
  }

  lemma StandsAfterOther(float: Float, row: Row, init: seq<Op>, op: Op, r: string, n: nat, c: RowChange)
    requires InsertStands(float, row, init, r, n, Some(c)) && !(op.Edit? && op.rowId == r)
    ensures InsertStands(float, row, init + [op], r, n, Some(c))
  {
    hide LastSet, RowGet, ValuesEqual, Extends;
    StaysExtended(row, c.newRow, init, op, r);
    forall column ensures Gives(float, row, c.newRow, LastSet(init + [op], r, column), column) {
      LastSetSnoc(init, op, r, column);
      assert Gives(float, row, c.newRow, LastSet(init, r, column), column);
    }
  }

  lemma InsertStarts(float: Float, st: State, r: string, row: Row)
    ensures InsertStands(float, row, [], r, st.next + 1, LastOf(InsertRow(st, r, row).changes, r, Insert))
  {
    hide LastOf;
    LastAppended(st.changes, RowChange(r, Insert, [], [], row, st.next + 1), r, Insert);
  }

  lemma InsertAfterRow(float: Float, st: State, op: Op, r: string)
    requires op.AddDelete? || (op.AddInsert? && op.rowId != r)
    ensures LastOf(Apply(float, st, op).changes, r, Insert) == LastOf(st.changes, r, Insert)
  {
    hide LastOf;
    if op.AddDelete? {
      LastAppended(st.changes, RowChange(op.rowId, Delete, [], op.original, [], st.next + 1), r, Insert);
    } else {
      LastAppended(st.changes, RowChange(op.rowId, Insert, [], [], op.row, st.next + 1), r, Insert);
    }
  }

  /**
   * Insert a row into any queue, then edit it, edit other rows, insert and delete other rows, in any order: the
   * pending insert keeps its place in the numbering, has no cells and no original, gives every column the last
   * value set (as values are equal), or the inserted row's own when none was set, and lists the inserted
   * row's columns first.
   */
  lemma {:induction false} InsertFollowsEdits(float: Float, st: State, r: string, row: Row, ops: seq<Op>)
    requires forall op :: op in ops ==> Beside(op, r)
    ensures InsertStands(float, row, ops, r, st.next + 1, LastOf(Follow(float, InsertRow(st, r, row), r, ops).changes, r, Insert))
  {
    hide LastOf, InsertStands, Apply, ValuesEqual, InsertRow;
    if ops == [] {
      InsertStarts(float, st, r, row);
    } else {
      var init, op := ops[..|ops| - 1], ops[|ops| - 1];
      assert op in ops && ops == init + [op];
      InsertFollowsEdits(float, st, r, row, init);
      var s := Follow(float, InsertRow(st, r, row), r, init);
      InsertIsSome(float, row, init, r, st.next + 1, LastOf(s.changes, r, Insert));
      var c := LastOf(s.changes, r, Insert).value;
      if op.Edit? && op.rowId == r {
        StandsAfterEdit(float, row, init, op, r, st.next + 1, c);
        InsertAfterEdit(float, s, op.(oldValue := Shown(s, r, op.column)), r);
      } else {
        StandsAfterOther(float, row, init, op, r, st.next + 1, c);
        if op.Edit? {
          InsertAfterEdit(float, s, op, r);
        } else {
          InsertAfterRow(float, s, op, r);
        }
      }
    }
  }

  lemma InsertIsSome(float: Float, row: Row, ops: seq<Op>, r: string, n: nat, c: Option<RowChange>)
    requires InsertStands(float, row, ops, r, n, c)
    ensures c.Some?
  {
  }

  // ---- Deletes ----

  /** Beside row r's delete: anything but another delete of it, and nothing undone or cleared. */
  predicate BesideDelete(op: Op, r: string) { op.Edit? || op.AddInsert? || (op.AddDelete? && op.rowId != r) }

  lemma DeleteAfter(float: Float, st: State, op: Op, r: string)
    requires BesideDelete(op, r)
    ensures LastOf(Apply(float, st, op).changes, r, Delete) == LastOf(st.changes, r, Delete)
  {
    hide LastOf, KeyOf, IndexOf, RowSet, ValuesEqual, UpdateCell, EditInsert;
    match op
    case Edit(rowId, column, old0, v, original) =>
      if KeyOf(rowId, Insert) in IndexOf(st.changes) {
        EditedInsert(st, rowId, column, v, r, Delete);
      } else {
        OtherKindStays(float, st, rowId, column, old0, v, original, r, Delete);
      }
    case AddInsert(rowId, row) => LastAppended(st.changes, RowChange(rowId, Insert, [], [], row, st.next + 1), r, Delete);
    case AddDelete(rowId, original) => LastAppended(st.changes, RowChange(rowId, Delete, [], original, [], st.next + 1), r, Delete);
  }

  function Onward(float: Float, st: State, ops: seq<Op>): State {
    if ops == [] then st else Apply(float, Onward(float, st, ops[..|ops| - 1]), ops[|ops| - 1])
  }

  /** A pending delete keeps its original row and its number, whatever is edited, inserted or deleted after it. */
  lemma {:induction false} DeleteStands(float: Float, st: State, r: string, original: Row, ops: seq<Op>)
    requires forall op :: op in ops ==> BesideDelete(op, r)
    ensures LastOf(Onward(float, DeleteRow(st, r, original), ops).changes, r, Delete)
         == Some(RowChange(r, Delete, [], original, [], st.next + 1))
  {
    hide LastOf, Apply;
    if ops == [] {
      LastAppended(st.changes, RowChange(r, Delete, [], original, [], st.next + 1), r, Delete);
    } else {
      var init, op := ops[..|ops| - 1], ops[|ops| - 1];
      assert op in ops;
      DeleteStands(float, st, r, original, init);
      DeleteAfter(float, Onward(float, DeleteRow(st, r, original), init), op, r);
    }
  }

  // ---- Undo ----

  lemma WithoutNew(changes: seq<RowChange>, k: string)
    requires forall i :: 0 <= i < |changes| ==> Key(changes[i]) != k
    ensures WithoutKey(changes, k) == changes
  {
    hide Key;
    FilterKeepsAll(changes, (c: RowChange) => Key(c) != k);
  }

  /** Undoing an insert or a delete just made gives the queue back as it was, its numbering apart. */
  lemma RowUndone(st: State, c: RowChange)
    requires LastOf(st.changes, c.rowId, c.kind).None?
    ensures UndoLast(AddRow(st, c)) == (State(st.changes, st.undo, st.next + 1), true)
  {
    hide KeyOf, IndexOf, LastOf;
    var k := Key(c);
    LastIndexed(st.changes, c.rowId, c.kind);
    IndexAt(st.changes, k);
    WithoutNew(st.changes, k);
    var keep := (x: RowChange) => Key(x) != k;
    assert (st.changes + [c])[..|st.changes|] == st.changes;
    assert WithoutKey(st.changes + [c], k) == st.changes;
    assert (st.undo + [UndoOp(true, k, "")])[..|st.undo|] == st.undo;
  }

  lemma {:induction false} LastDropped(changes: seq<RowChange>, i: nat, row: string, kind: ChangeType)
    requires i < |changes| && forall j :: 0 <= j < |changes| && j != i ==> !(changes[j].kind == changes[i].kind && changes[j].rowId == changes[i].rowId)
    ensures LastOf(changes[..i] + changes[i + 1..], row, kind)
      == if row == changes[i].rowId && kind == changes[i].kind then None else LastOf(changes, row, kind)
  {
    var n := |changes| - 1;
    var r := changes[..i] + changes[i + 1..];
    if i == n {
      assert r == changes[..n];
      NoneLast(changes[..n], changes[i].rowId, changes[i].kind);
    } else {
      assert r[|r| - 1] == changes[n] && r[..|r| - 1] == changes[..n][..i] + changes[..n][i + 1..];
      LastDropped(changes[..n], i, row, kind);
    }
  }

  lemma {:induction false} NoneLast(changes: seq<RowChange>, row: string, kind: ChangeType)
    requires forall j :: 0 <= j < |changes| ==> !(changes[j].kind == kind && changes[j].rowId == row)
    ensures LastOf(changes, row, kind) == None
  {
    if changes != [] {
      NoneLast(changes[..|changes| - 1], row, kind);
    }
  }

  /** Undoing a cell edit takes that cell back to the original value and leaves every other cell as it is. */
  lemma UndonePending(st: State, edited: string, row: string, column: string)
    requires Inv(st) && st.undo != [] && !st.undo[|st.undo| - 1].isRow && st.undo[|st.undo| - 1].key == KeyOf(edited, Update)
    ensures Pending(UndoLast(st).0, row, column)
      == if row == edited && column == st.undo[|st.undo| - 1].column then None else Pending(st, row, column)
  {
    hide KeyOf, IndexOf, LastOf, FindCell, DropCell, Rising, ChangeOk, OneUpdatePerRow;
    var op := st.undo[|st.undo| - 1];
    LastIndexed(st.changes, edited, Update);
    if op.key in IndexOf(st.changes) {
      IndexIsLast(st.changes, edited, Update);
      var i := IndexOf(st.changes)[op.key];
      var c := st.changes[i];
      assert c in st.changes;
      CellsDistinct(c, st.undo);
      DroppedCell(c.cells, op.column, column);
      if DropCell(c.cells, op.column) == [] {
        OnlyOneUpdate(st.changes, i);
        LastDropped(st.changes, i, row, Update);
        NoCells();
      } else {
        LastReplaced(st.changes, i, c.(cells := DropCell(c.cells, op.column)), row, Update);
      }
    }
  }

  lemma CellsDistinct(c: RowChange, undo: seq<UndoOp>)
    requires ChangeOk(c, undo) && c.kind == Update
    ensures DistinctColumns(c.cells)
  {
    hide KeyOf;
  }

  lemma OnlyOneUpdate(changes: seq<RowChange>, i: nat)
    requires OneUpdatePerRow(changes) && i < |changes| && changes[i].kind == Update
    ensures forall j :: 0 <= j < |changes| && j != i ==> !(changes[j].kind == changes[i].kind && changes[j].rowId == changes[i].rowId)
  {
  }

  /** One cell edit leaves every other cell as it is. */
  lemma EditedElsewhere(float: Float, st: State, e: CellEdit, old0: Value, original: Row, row: string, column: string)
    requires Inv(st) && (row != e.row || column != e.column)
    ensures Pending(UpdateCell(float, st, e.row, e.column, old0, e.value, original), row, column) == Pending(st, row, column)
  {
    hide KeyOf, LastOf, UpdateCell, ValuesEqual, RowGet, DropCell, SetCell, DistinctColumns, FindCell, Inv;
    EditedUpdate(float, st, e.row, e.column, old0, e.value, original, row);
    NoCells();
    if row == e.row {
      var c := Started(st, e.row, original);
      StartedDistinct(st, e.row, original);
      DroppedCell(c.cells, e.column, column);
      WrittenCell(c.cells, e.column, old0, e.value, column);
    }
  }

  lemma StartedDistinct(st: State, row: string, original: Row)
    requires Inv(st)
    ensures DistinctColumns(Started(st, row, original).cells)
  {
    hide KeyOf, LastOf, IndexOf, Rising, OneUpdatePerRow, ChangeOk;
    LastIndexed(st.changes, row, Update);
    if LastOf(st.changes, row, Update).Some? {
      IndexIsLast(st.changes, row, Update);
      var c := st.changes[IndexOf(st.changes)[KeyOf(row, Update)]];
      assert c in st.changes;
      CellsDistinct(c, st.undo);
    } else {
      NoCells();
    }
  }

  /**
   * An edit of a row that is not pending as an insert, taken back at once: the edited cell is pending
   * no more, every other cell as before the edit.
   */
  lemma EditUndone(float: Float, st: State, e: CellEdit, old0: Value, original: Row, row: string, column: string)
    requires Inv(st) && !ValuesEqual(float, old0, e.value) && LastOf(st.changes, e.row, Insert).None?
    ensures Pending(UndoLast(EditCell(float, st, e.row, e.column, old0, e.value, original)).0, row, column)
      == if row == e.row && column == e.column then None else Pending(st, row, column)
  {
    hide KeyOf, LastOf, UpdateCell, ValuesEqual, RowGet, IndexOf, Inv, Pending, UndoLast;
    LastIndexed(st.changes, e.row, Insert);
    var after := UpdateCell(float, st, e.row, e.column, old0, e.value, original);
    UpdateCellKeeps(float, st, e.row, e.column, old0, e.value, original);
    UpdatePushes(float, st, e, old0, original);
    UndonePending(after, e.row, row, column);
    if row != e.row || column != e.column {
      EditedElsewhere(float, st, e, old0, original, row, column);
    }
  }

  lemma UpdatePushes(float: Float, st: State, e: CellEdit, old0: Value, original: Row)
    ensures UpdateCell(float, st, e.row, e.column, old0, e.value, original).undo == st.undo + [UndoOp(false, KeyOf(e.row, Update), e.column)]
  {
    hide KeyOf, IndexOf, ValuesEqual, RowGet, DropCell, SetCell, WithoutKey;
    OpenedAt(st, e.row, original);
  }
}
