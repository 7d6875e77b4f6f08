/// The queue refines a map of pending cells: after any run of cell edits it holds
/// exactly the cells whose last value differs from the original row.
module QueuePending {
  import opened Text
  import opened Sequences
  import opened EditQueue
  import opened QueueLaws

  // ---- Looking into the queue ----

  function FindCell(cells: seq<CellChange>, column: string): (r: Option<CellChange>)
    ensures r.Some? ==> r.value in cells && r.value.column == column
    ensures r.None? ==> forall x :: x in cells ==> x.column != column
  {
    if cells == [] then None else if cells[0].column == column then Some(cells[0]) else FindCell(cells[1..], column)
  }

  lemma CellFound(cells: seq<CellChange>, x: CellChange)
    requires DistinctColumns(cells) && x in cells
    ensures FindCell(cells, x.column) == Some(x)
  {
    hide FindCell;
    var y := FindCell(cells, x.column).value;
    var i :| 0 <= i < |cells| && cells[i] == x;
    var j :| 0 <= j < |cells| && cells[j] == y;
  }

  lemma DroppedCell(cells: seq<CellChange>, column: string, other: string)
    requires DistinctColumns(cells)
    ensures FindCell(DropCell(cells, column), other) == if other == column then None else FindCell(cells, other)
  {
    hide FindCell, DropCell, DistinctColumns;
    DropCellMembers(cells, column);
    var found := FindCell(cells, other);
    if other != column && found.Some? {
      CellFound(DropCell(cells, column), found.value);
    }
  }

  lemma WrittenCell(cells: seq<CellChange>, column: string, old0: Value, v: Value, other: string)
    requires DistinctColumns(cells)
    ensures FindCell(SetCell(cells, column, old0, v), other)
      == if other != column then FindCell(cells, other)
         else Some(CellChange(column, if FindCell(cells, column).Some? then FindCell(cells, column).value.oldValue else old0, v))
  {
    hide FindCell, SetCell, DistinctColumns;
    SetCellMembers(cells, column, old0, v);
    var r := SetCell(cells, column, old0, v);
    var found := FindCell(cells, other);
    if other != column {
      if found.Some? {
        CellFound(r, found.value);
      }
    } else {
      var x := NewCell(cells, column, old0, v);
      CellFound(r, x);
    }
  }

  lemma NewCell(cells: seq<CellChange>, column: string, old0: Value, v: Value) returns (x: CellChange)
    requires DistinctColumns(cells)
    ensures x in SetCell(cells, column, old0, v)
    ensures x == CellChange(column, if FindCell(cells, column).Some? then FindCell(cells, column).value.oldValue else old0, v)
  {
    hide FindCell, SetCell;
    var found := FindCell(cells, column);
    if found.Some? {
      var i :| 0 <= i < |cells| && cells[i] == found.value;
      SetCellAt(cells, column, old0, v, i);
      x := cells[i].(newValue := v);
      assert cells[i := x][i] == x;
    } else {
      SetCellAt(cells, column, old0, v, |cells|);
      x := CellChange(column, old0, v);
    }
  }

  /** The change of a kind to a row: the last one listed. */
  function LastOf(changes: seq<RowChange>, row: string, kind: ChangeType): Option<RowChange> {
    if changes == [] then None
    else if changes[|changes| - 1].kind == kind && changes[|changes| - 1].rowId == row then Some(changes[|changes| - 1])
    else LastOf(changes[..|changes| - 1], row, kind)
  }

  lemma KeyOfRow(c: RowChange, row: string, kind: ChangeType)
    ensures Key(c) == KeyOf(row, kind) <==> c.kind == kind && c.rowId == row
  {
    if Key(c) == KeyOf(row, kind) {
      KeyOfInjective(c.rowId, c.kind, row, kind);
    }
  }

  lemma {:induction false} LastIndexed(changes: seq<RowChange>, row: string, kind: ChangeType)
    ensures KeyOf(row, kind) in IndexOf(changes) <==> LastOf(changes, row, kind).Some?
    ensures KeyOf(row, kind) in IndexOf(changes) ==>
      var i := IndexOf(changes)[KeyOf(row, kind)]; i < |changes| && LastOf(changes, row, kind) == Some(changes[i])
  {
    hide KeyOf;
    if changes != [] {
      LastIndexed(changes[..|changes| - 1], row, kind);
      KeyOfRow(changes[|changes| - 1], row, kind);
    }
  }

  lemma {:induction false} LastReplaced(changes: seq<RowChange>, i: nat, c: RowChange, row: string, kind: ChangeType)
    requires i < |changes| && changes[i].kind == c.kind && changes[i].rowId == c.rowId
    requires forall j :: i < j < |changes| ==> !(changes[j].kind == c.kind && changes[j].rowId == c.rowId)
    ensures LastOf(changes[i := c], row, kind) == if row == c.rowId && kind == c.kind then Some(c) else LastOf(changes, row, kind)
  {
    var n := |changes| - 1;
    if i < n {
      assert changes[i := c][..n] == changes[..n][i := c];
      LastReplaced(changes[..n], i, c, row, kind);
    } else {
      assert changes[i := c][..n] == changes[..n];
    }
  }

  lemma {:induction false} LastRemoved(changes: seq<RowChange>, row: string, kind: ChangeType, other: string, otherKind: ChangeType)
    ensures LastOf(WithoutKey(changes, KeyOf(row, kind)), other, otherKind)
      == if other == row && otherKind == kind then None else LastOf(changes, other, otherKind)
  {
    hide KeyOf;
    var keep := (c: RowChange) => Key(c) != KeyOf(row, kind);
    if changes != [] {
      var init, c := changes[..|changes| - 1], changes[|changes| - 1];
      LastRemoved(init, row, kind, other, otherKind);
      KeyOfRow(c, row, kind);
      assert (Filter(init, keep) + [c])[..|Filter(init, keep)|] == Filter(init, keep);
    }
  }

  lemma LastAppended(changes: seq<RowChange>, c: RowChange, row: string, kind: ChangeType)
    ensures LastOf(changes + [c], row, kind) == if c.kind == kind && c.rowId == row then Some(c) else LastOf(changes, row, kind)
  {
    assert (changes + [c])[..|changes|] == changes;
  }

  // ---- One edit ----

  function Started(st: State, row: string, original: Row): RowChange {
    if LastOf(st.changes, row, Update).Some? then LastOf(st.changes, row, Update).value
    else RowChange(row, Update, [], original, [], st.next + 1)
  }

  /** What the edited row's change becomes. */
  function Edited(float: Float, c: RowChange, column: string, old0: Value, v: Value): Option<RowChange> {
    if ValuesEqual(float, v, RowGet(c.original, column)) then
      var cells := DropCell(c.cells, column);
      if cells == [] then None else Some(c.(cells := cells))
    else Some(c.(cells := SetCell(c.cells, column, old0, v)))
  }

  lemma OpenedUpdate(st: State, row: string, original: Row, other: string)
    ensures LastOf(Opened(st, row, original).changes, other, Update)
      == if other == row then Some(Started(st, row, original)) else LastOf(st.changes, other, Update)
  {
    hide KeyOf, LastOf, IndexOf;
    LastIndexed(st.changes, row, Update);
    LastAppended(st.changes, RowChange(row, Update, [], original, [], st.next + 1), other, Update);
  }

  lemma IndexIsLast(changes: seq<RowChange>, row: string, kind: ChangeType)
    requires KeyOf(row, kind) in IndexOf(changes)
    ensures var i := IndexOf(changes)[KeyOf(row, kind)];
      && i < |changes| && LastOf(changes, row, kind) == Some(changes[i]) && changes[i].kind == kind && changes[i].rowId == row
      && forall j :: i < j < |changes| ==> !(changes[j].kind == kind && changes[j].rowId == row)
  {
    hide KeyOf, IndexOf;
    IndexAt(changes, KeyOf(row, kind));
    LastIndexed(changes, row, kind);
    var i := IndexOf(changes)[KeyOf(row, kind)];
    KeyOfRow(changes[i], row, kind);
    forall j | i < j < |changes| ensures !(changes[j].kind == kind && changes[j].rowId == row) {
      KeyOfRow(changes[j], row, kind);
    }
  }

  lemma EditedUpdate(float: Float, st: State, row: string, column: string, old0: Value, v: Value, original: Row, other: string)
    ensures LastOf(UpdateCell(float, st, row, column, old0, v, original).changes, other, Update)
      == if other == row then Edited(float, Started(st, row, original), column, old0, v) else LastOf(st.changes, other, Update)
  {
    hide KeyOf, LastOf, IndexOf, Opened, WithoutKey, ValuesEqual, RowGet, DropCell, SetCell, Started;
    OpenedAt(st, row, original);
    OpenedUpdate(st, row, original, row);
    OpenedUpdate(st, row, original, other);
    var o := Opened(st, row, original);
    IndexIsLast(o.changes, row, Update);
    var i := IndexOf(o.changes)[KeyOf(row, Update)];
    var c := o.changes[i];
    if ValuesEqual(float, v, RowGet(c.original, column)) {
      var d := c.(cells := DropCell(c.cells, column));
      LastReplaced(o.changes, i, d, other, Update);
      LastRemoved(o.changes[i := d], row, Update, other, Update);
    } else {
      LastReplaced(o.changes, i, c.(cells := SetCell(c.cells, column, old0, v)), other, Update);
    }
  }

  // ---- Runs of edits ----

  datatype CellEdit = CellEdit(row: string, column: string, value: Value)

  /** The pending change of a cell. */
  function Pending(st: State, row: string, column: string): Option<CellChange> {
    var u := LastOf(st.changes, row, Update);
    if u.None? then None else FindCell(u.value.cells, column)
  }

  /** What the cell shows: its pending value, else the original. */
  function Effective(st: State, originals: string -> Row, row: string, column: string): Value {
    var p := Pending(st, row, column);
    if p.Some? then p.value.newValue else RowGet(originals(row), column)
  }

  /** Edits in order, each passing the cell's current effective value as the old one. */
  function RunEdits(float: Float, originals: string -> Row, edits: seq<CellEdit>): State {
    if edits == [] then EMPTY else
    var st, e := RunEdits(float, originals, edits[..|edits| - 1]), edits[|edits| - 1];
    EditCell(float, st, e.row, e.column, Effective(st, originals, e.row, e.column), e.value, originals(e.row))
  }

  function LastValue(edits: seq<CellEdit>, row: string, column: string): Option<Value> {
    if edits == [] then None else
    var e := edits[|edits| - 1];
    if e.row == row && e.column == column then Some(e.value) else LastValue(edits[..|edits| - 1], row, column)
  }

  predicate OnlyUpdates(changes: seq<RowChange>) { forall i :: 0 <= i < |changes| ==> changes[i].kind == Update }

  /** A row's update keeps the row's original, and each pending cell the original value as its old one. */
  ghost predicate RowOk(st: State, originals: string -> Row, row: string) {
    var u := LastOf(st.changes, row, Update);
    u.Some? ==>
      && u.value.original == originals(row) && DistinctColumns(u.value.cells)
      && forall column :: FindCell(u.value.cells, column).Some? ==>
           FindCell(u.value.cells, column).value.oldValue == RowGet(originals(row), column)
  }

  ghost predicate EditsOk(st: State, originals: string -> Row) {
    Inv(st) && OnlyUpdates(st.changes) && forall row :: RowOk(st, originals, row)
  }

  lemma NoInserts(changes: seq<RowChange>, row: string)
    requires OnlyUpdates(changes)
    ensures KeyOf(row, Insert) !in IndexOf(changes)
  {
    hide KeyOf, IndexOf;
    IndexAt(changes, KeyOf(row, Insert));
    forall i | 0 <= i < |changes| ensures Key(changes[i]) != KeyOf(row, Insert) {
      if Key(changes[i]) == KeyOf(row, Insert) {
        KeyOfInjective(changes[i].rowId, changes[i].kind, row, Insert);
      }
    }
  }

  lemma OnlyUpdatesKept(float: Float, st: State, row: string, column: string, old0: Value, v: Value, original: Row)
    requires Inv(st) && OnlyUpdates(st.changes)
    ensures OnlyUpdates(UpdateCell(float, st, row, column, old0, v, original).changes)
  {
    hide KeyOf, IndexOf, WithoutKey, ValuesEqual, RowGet, DropCell, SetCell, Inv, Opened;
    OpenedAt(st, row, original);
    OpenedKeeps(st, row, original);
    var o := Opened(st, row, original);
    OnlyOpened(st, row, original);
    var i := IndexOf(o.changes)[KeyOf(row, Update)];
    var kept := o.changes[i := o.changes[i].(cells := DropCell(o.changes[i].cells, column))];
    ReplaceKeeps(o.changes, o.next, i, kept[i]);
    WithoutKeyKeeps(kept, o.next, KeyOf(row, Update));
    var left := WithoutKey(kept, KeyOf(row, Update));
    forall j | 0 <= j < |left| ensures left[j].kind == Update {
      assert left[j] in left && left[j] in kept;
    }
  }

  lemma OnlyOpened(st: State, row: string, original: Row)
    requires OnlyUpdates(st.changes)
    ensures OnlyUpdates(Opened(st, row, original).changes)
  {
    hide KeyOf, IndexOf;
  }

  /** One edit of a row without an insert, seen through the pending cells. */
  lemma PendingEdited(float: Float, st: State, originals: string -> Row, e: CellEdit, old0: Value, row: string, column: string)
    requires RowOk(st, originals, e.row) && (Pending(st, e.row, e.column).None? ==> old0 == RowGet(originals(e.row), e.column))
    ensures var next := UpdateCell(float, st, e.row, e.column, old0, e.value, originals(e.row));
      var base := RowGet(originals(row), column);
      Pending(next, row, column)
        == if row != e.row || column != e.column then Pending(st, row, column)
           else if ValuesEqual(float, e.value, base) then None else Some(CellChange(column, base, e.value))
  {
    hide KeyOf, LastOf, UpdateCell, ValuesEqual, RowGet, DropCell, SetCell, DistinctColumns, FindCell;
    EditedUpdate(float, st, e.row, e.column, old0, e.value, originals(e.row), row);
    var c := Started(st, e.row, originals(e.row));
    assert c.original == originals(e.row);
    NoCells();
    if row == e.row {
      DroppedCell(c.cells, e.column, column);
      WrittenCell(c.cells, e.column, old0, e.value, column);
    }
  }

  lemma NoCells()
    ensures DistinctColumns([])
    ensures forall column :: FindCell([], column) == None
  {
  }

  lemma RowOkKept(float: Float, st: State, originals: string -> Row, e: CellEdit, old0: Value, row: string)
    requires RowOk(st, originals, row) && RowOk(st, originals, e.row)
    requires Pending(st, e.row, e.column).None? ==> old0 == RowGet(originals(e.row), e.column)
    ensures RowOk(UpdateCell(float, st, e.row, e.column, old0, e.value, originals(e.row)), originals, row)
  {
    hide KeyOf, LastOf, UpdateCell, ValuesEqual, RowGet, DropCell, SetCell, DistinctColumns, FindCell;
    EditedUpdate(float, st, e.row, e.column, old0, e.value, originals(e.row), row);
    NoCells();
    if row == e.row {
      var c := Started(st, e.row, originals(e.row));
      DropCellMembers(c.cells, e.column);
      SetCellMembers(c.cells, e.column, old0, e.value);
      var u := LastOf(UpdateCell(float, st, e.row, e.column, old0, e.value, originals(e.row)).changes, row, Update);
      forall column
        ensures u.Some? && FindCell(u.value.cells, column).Some? ==>
          FindCell(u.value.cells, column).value.oldValue == RowGet(originals(row), column)
      {
        DroppedCell(c.cells, e.column, column);
        WrittenCell(c.cells, e.column, old0, e.value, column);
      }
    }
  }

  lemma EditKeepsOk(float: Float, st: State, originals: string -> Row, e: CellEdit)
    requires EditsOk(st, originals)
    ensures EditsOk(EditCell(float, st, e.row, e.column, Effective(st, originals, e.row, e.column), e.value, originals(e.row)), originals)
  {
    hide Inv, RowOk, UpdateCell, ValuesEqual, KeyOf, IndexOf, OnlyUpdates, RowGet, Pending;
    var old0 := Effective(st, originals, e.row, e.column);
    NoInserts(st.changes, e.row);
    if !ValuesEqual(float, old0, e.value) {
      UpdateCellKeeps(float, st, e.row, e.column, old0, e.value, originals(e.row));
      OnlyUpdatesKept(float, st, e.row, e.column, old0, e.value, originals(e.row));
      forall row ensures RowOk(UpdateCell(float, st, e.row, e.column, old0, e.value, originals(e.row)), originals, row) {
        RowOkKept(float, st, originals, e, old0, row);
      }
    }
  }

  lemma {:induction false} RunEditsOk(float: Float, originals: string -> Row, edits: seq<CellEdit>)
    ensures EditsOk(RunEdits(float, originals, edits), originals)
  {
    hide EditsOk, EditCell, Effective;
    if edits == [] {
      StartEdits(originals);
    } else {
      RunEditsOk(float, originals, edits[..|edits| - 1]);
      EditKeepsOk(float, RunEdits(float, originals, edits[..|edits| - 1]), originals, edits[|edits| - 1]);
    }
  }

  lemma StartEdits(originals: string -> Row)
    ensures EditsOk(EMPTY, originals)
  {
  }

  /** A cell is pending exactly when its last value is not the original one; it then shows that value. */
  predicate Faithful(float: Float, base: Value, last: Option<Value>, p: Option<CellChange>) {
    && (p.Some? <==> last.Some? && !ValuesEqual(float, last.value, base))
    && (p.Some? ==> p.value.oldValue == base && ValuesEqual(float, p.value.newValue, last.value))
  }

  /** The edit that changes nothing keeps the pending value, which equals the new one. */
  lemma SameValueFaithful(float: Float, base: Value, last: Option<Value>, p: Option<CellChange>, v: Value)
    requires Faithful(float, base, last, p) && ValuesEqual(float, if p.Some? then p.value.newValue else base, v)
    ensures Faithful(float, base, Some(v), p)
  {
    if p.Some? {
      ValuesEqualIsEquivalence(float, p.value.newValue, v, base);
      ValuesEqualIsEquivalence(float, last.value, p.value.newValue, v);
      ValuesEqualIsEquivalence(float, last.value, v, base);
      ValuesEqualIsEquivalence(float, v, p.value.newValue, v);
    } else {
      ValuesEqualIsEquivalence(float, base, v, v);
    }
  }

  lemma NewValueFaithful(float: Float, base: Value, v: Value)
    ensures Faithful(float, base, Some(v), if ValuesEqual(float, v, base) then None else Some(CellChange("", base, v)))
    ensures forall column :: Faithful(float, base, Some(v), if ValuesEqual(float, v, base) then None else Some(CellChange(column, base, v)))
  {
    ValuesEqualIsEquivalence(float, v, v, v);
    hide ValuesEqual;
  }

  /**
   * After any run of cell edits the queue holds exactly the cells whose last
   * value differs from the original row, with that value and the original as
   * the old one.
   */
  lemma {:induction false} HoldsDifferences(float: Float, originals: string -> Row, edits: seq<CellEdit>, row: string, column: string)
    ensures Faithful(float, RowGet(originals(row), column), LastValue(edits, row, column),
                     Pending(RunEdits(float, originals, edits), row, column))
  {
    hide EditsOk, UpdateCell, ValuesEqual, KeyOf, IndexOf, Pending, RowGet, Faithful, RowOk, Inv, OnlyUpdates;
    if edits == [] {
      NothingPending(float, RowGet(originals(row), column), row, column);
    } else {
      var init, e := edits[..|edits| - 1], edits[|edits| - 1];
      HoldsDifferences(float, originals, init, row, column);
      RunEditsOk(float, originals, init);
      var st := RunEdits(float, originals, init);
      EditsOkParts(st, originals, e.row);
      NoInserts(st.changes, e.row);
      var old0 := Effective(st, originals, e.row, e.column);
      var base := RowGet(originals(row), column);
      if ValuesEqual(float, old0, e.value) {
        if e.row == row && e.column == column {
          SameValueFaithful(float, base, LastValue(init, row, column), Pending(st, row, column), e.value);
        }
      } else {
        PendingEdited(float, st, originals, e, old0, row, column);
        NewValueFaithful(float, base, e.value);
      }
    }
  }

  lemma NothingPending(float: Float, base: Value, row: string, column: string)
    ensures Pending(EMPTY, row, column) == None && Faithful(float, base, None, None)
  {
  }

  lemma EditsOkParts(st: State, originals: string -> Row, row: string)
    requires EditsOk(st, originals)
    ensures OnlyUpdates(st.changes) && RowOk(st, originals, row) && Inv(st)
  {
    hide RowOk, OnlyUpdates, Inv;
  }
}
