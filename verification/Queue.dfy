/// The queue of pending edits (go/pkg/changes/changes.go): cell edits, inserts and
/// deletes in user order, with an index, collapsing edits and an undo stack.
module EditQueue {
  import opened Text
  import opened Sequences

  // ---- Values ----

  /** What a value is as JSON; an array or object counts as its text. */
  datatype Value = Null | Bool(b: bool) | Number(literal: string) | Str(s: string) | Composite(json: string)

  /** Number literals go through a float conversion, given as a parameter: None when it is out of range. */
  type Float = string -> Option<real>

  function TextOf(v: Value): string
    requires v.Str? || v.Composite?
  {
    if v.Str? then v.s else v.json
  }

  predicate IsText(v: Value) { v.Str? || v.Composite? }

  predicate ValuesEqual(float: Float, a: Value, b: Value) {
    if a.Number? && b.Number? then
      var x, y := float(a.literal), float(b.literal);
      if x.Some? && y.Some? then x.value == y.value else a.literal == b.literal
    else if IsText(a) && IsText(b) then TextOf(a) == TextOf(b)
    else a == b && (a.Null? || a.Bool?)
  }

  /** Equality of values is an equivalence, whatever the conversion. */
  lemma ValuesEqualIsEquivalence(float: Float, a: Value, b: Value, c: Value)
    ensures ValuesEqual(float, a, a)
    ensures ValuesEqual(float, a, b) <==> ValuesEqual(float, b, a)
    ensures ValuesEqual(float, a, b) && ValuesEqual(float, b, c) ==> ValuesEqual(float, a, c)
  {
  }

  /**
   * Which values are the same: null and null, a truth value and itself, texts letter by letter (an array or object
   * by its text, so also a string of that text), numbers by value when both convert and by literal otherwise.
   */
  lemma EqualExactly(float: Float, a: Value, b: Value)
    ensures a.Null? ==> (ValuesEqual(float, a, b) <==> b == Null)
    ensures a.Bool? ==> (ValuesEqual(float, a, b) <==> b == Bool(a.b))
    ensures a.Str? ==> (ValuesEqual(float, a, b) <==> b == Str(a.s) || b == Composite(a.s))
    ensures a.Composite? ==> (ValuesEqual(float, a, b) <==> b == Str(a.json) || b == Composite(a.json))
    ensures a.Number? && b.Number? ==>
      (ValuesEqual(float, a, b) <==> b.literal == a.literal || (float(a.literal).Some? && float(a.literal) == float(b.literal)))
    ensures a.Number? && ValuesEqual(float, a, b) ==> b.Number?
  {
  }

  // ---- Rows and changes ----

  datatype Cell = Cell(column: string, value: Value)

  type Row = seq<Cell>

  function RowGet(row: Row, column: string): Value {
    if row == [] then Null else if row[0].column == column then row[0].value else RowGet(row[1..], column)
  }

  function RowSet(row: Row, column: string, v: Value): (r: Row) {
    if row == [] then [Cell(column, v)]
    else if row[0].column == column then [Cell(column, v)] + row[1..]
    else [row[0]] + RowSet(row[1..], column, v)
  }

  datatype ChangeType = Update | Insert | Delete

  datatype CellChange = CellChange(column: string, oldValue: Value, newValue: Value)

  datatype RowChange = RowChange(rowId: string, kind: ChangeType, cells: seq<CellChange>, original: Row, newRow: Row, sequence: nat)

  datatype UndoOp = UndoOp(isRow: bool, key: string, column: string)

  function KindName(t: ChangeType): string {
    match t case Update => "update" case Insert => "insert" case Delete => "delete"
  }

  function KeyOf(rowId: string, t: ChangeType): string { rowId + "\0" + KindName(t) }

  lemma KeyOfInjective(a: string, s: ChangeType, b: string, t: ChangeType)
    requires KeyOf(a, s) == KeyOf(b, t)
    ensures a == b && s == t
  {
    var x, y := KeyOf(a, s), KeyOf(b, t);
    assert |KindName(s)| == 6 && |KindName(t)| == 6;
    assert x[..|a|] == a && y[..|b|] == b;
    assert x[|a| + 1..] == KindName(s) && y[|b| + 1..] == KindName(t);
    assert KindName(s)[0] == KindName(t)[0];
  }

  function Key(c: RowChange): string { KeyOf(c.rowId, c.kind) }

  // ---- The index ----

  /** For every key the last change under it. */
  function IndexOf(changes: seq<RowChange>): map<string, nat> {
    if changes == [] then map[] else IndexOf(changes[..|changes| - 1])[Key(changes[|changes| - 1]) := |changes| - 1]
  }

  lemma {:induction false} IndexAt(changes: seq<RowChange>, k: string)
    ensures k in IndexOf(changes) <==> exists i :: 0 <= i < |changes| && Key(changes[i]) == k
    ensures k in IndexOf(changes) ==>
      var i := IndexOf(changes)[k];
      i < |changes| && Key(changes[i]) == k && forall j :: i < j < |changes| ==> Key(changes[j]) != k
  {
    hide Key;
    if changes != [] {
      var init, n := changes[..|changes| - 1], |changes| - 1;
      IndexAt(init, k);
      assert forall i :: 0 <= i < n ==> init[i] == changes[i];
      if i :| 0 <= i < |changes| && Key(changes[i]) == k {
        assert i < n ==> Key(init[i]) == k;
      }
    }
  }

  // ---- The state and the operations on it ----

  datatype State = State(changes: seq<RowChange>, undo: seq<UndoOp>, next: nat)

  const EMPTY := State([], [], 0)

  function WithoutKey(changes: seq<RowChange>, k: string): seq<RowChange> {
    Filter(changes, (c: RowChange) => Key(c) != k)
  }

  function DropCell(cells: seq<CellChange>, column: string): seq<CellChange> {
    Filter(cells, (c: CellChange) => c.column != column)
  }

  /** The first change of the column takes the new value; a new column is appended. */
  function SetCell(cells: seq<CellChange>, column: string, old0: Value, v: Value): seq<CellChange> {
    if cells == [] then [CellChange(column, old0, v)]
    else if cells[0].column == column then [cells[0].(newValue := v)] + cells[1..]
    else [cells[0]] + SetCell(cells[1..], column, old0, v)
  }

  /** The row's update change exists, with its original row. */
  function Opened(st: State, rowId: string, original: Row): State {
    if KeyOf(rowId, Update) in IndexOf(st.changes) then st
    else State(st.changes + [RowChange(rowId, Update, [], original, [], st.next + 1)], st.undo, st.next + 1)
  }

  lemma OpenedAt(st: State, rowId: string, original: Row)
    ensures var o := Opened(st, rowId, original); var k := KeyOf(rowId, Update);
      k in IndexOf(o.changes) && IndexOf(o.changes)[k] < |o.changes| && Key(o.changes[IndexOf(o.changes)[k]]) == k
  {
    hide KeyOf;
    IndexAt(st.changes, KeyOf(rowId, Update));
    if KeyOf(rowId, Update) !in IndexOf(st.changes) {
      var c := RowChange(rowId, Update, [], original, [], st.next + 1);
      assert (st.changes + [c])[..|st.changes|] == st.changes;
    }
  }

  function UpdateCell(float: Float, st: State, rowId: string, column: string, old0: Value, v: Value, original: Row): State {
    var o, k := Opened(st, rowId, original), KeyOf(rowId, Update);
    OpenedAt(st, rowId, original);
    var i := IndexOf(o.changes)[k];
    var c := o.changes[i];
    var undo := o.undo + [UndoOp(false, k, column)];
    if ValuesEqual(float, v, RowGet(c.original, column)) then
      var cells := DropCell(c.cells, column);
      var kept := o.changes[i := c.(cells := cells)];
      State(if cells == [] then WithoutKey(kept, k) else kept, undo, o.next)
    else State(o.changes[i := c.(cells := SetCell(c.cells, column, old0, v))], undo, o.next)
  }

  function EditInsert(st: State, rowId: string, column: string, v: Value): State
    requires KeyOf(rowId, Insert) in IndexOf(st.changes)
  {
    IndexAt(st.changes, KeyOf(rowId, Insert));
    var i := IndexOf(st.changes)[KeyOf(rowId, Insert)];
    var c := st.changes[i];
    State(st.changes[i := c.(newRow := RowSet(c.newRow, column, v))], st.undo + [UndoOp(true, KeyOf(rowId, Insert), "")], st.next)
  }

  /** AddCellChange. */
  function EditCell(float: Float, st: State, rowId: string, column: string, old0: Value, v: Value, original: Row): State {
    if ValuesEqual(float, old0, v) then st
    else if KeyOf(rowId, Insert) in IndexOf(st.changes) then EditInsert(st, rowId, column, v)
    else UpdateCell(float, st, rowId, column, old0, v, original)
  }

  function AddRow(st: State, c: RowChange): State {
    State(st.changes + [c], st.undo + [UndoOp(true, Key(c), "")], st.next + 1)
  }

  /** AddInsert. */
  function InsertRow(st: State, rowId: string, row: Row): State {
    AddRow(st, RowChange(rowId, Insert, [], [], row, st.next + 1))
  }

  /** AddDelete. */
  function DeleteRow(st: State, rowId: string, original: Row): State {
    AddRow(st, RowChange(rowId, Delete, [], original, [], st.next + 1))
  }

  /** Undo: the new state, and whether anything was undone. */
  function UndoLast(st: State): (State, bool) {
    if st.undo == [] then (st, false) else
    var op := st.undo[|st.undo| - 1];
    var undo := st.undo[..|st.undo| - 1];
    if op.isRow then
      var left := WithoutKey(st.changes, op.key);
      (State(left, undo, st.next), |left| < |st.changes|)
    else if op.key !in IndexOf(st.changes) then (State(st.changes, undo, st.next), false)
    else
      IndexAt(st.changes, op.key);
      var i := IndexOf(st.changes)[op.key];
      var c := st.changes[i];
      if c.kind != Update then (State(st.changes, undo, st.next), false) else
      var cells := DropCell(c.cells, op.column);
      (State(if cells == [] then st.changes[..i] + st.changes[i + 1..] else st.changes[i := c.(cells := cells)], undo, st.next), true)
  }

  function Cleared(st: State): State { State([], [], st.next) }

  // ---- The object ----

  predicate BySequence(a: RowChange, b: RowChange) { a.sequence <= b.sequence }

  class Queue {
    const float: Float
    var changes: seq<RowChange>
    var index: map<string, nat>
    var undoStack: seq<UndoOp>
    var sequence: nat

    ghost predicate Valid()
      reads this
    {
      index == IndexOf(changes)
    }

    ghost function Abs(): State
      reads this
    {
      State(changes, undoStack, sequence)
    }

    constructor (float: Float)
      ensures Valid() && Abs() == EMPTY && this.float == float
    {
      this.float := float;
      changes := [];
      index := map[];
      undoStack := [];
      sequence := 0;
    }

    /** In operation order: every change once, sequence numbers never falling. */
    method All() returns (out: seq<RowChange>)
      ensures multiset(out) == multiset(changes)
      ensures forall i, j :: 0 <= i < j < |out| ==> out[i].sequence <= out[j].sequence
    {
      SortSorted(BySequence, changes);
      out := SortBy(BySequence, changes);
    }

    /** The row's update change, appended when there is none. */
    method OpenRow(rowId: string, originalRow: Row)
      requires Valid()
      modifies this`changes, this`index, this`sequence
      ensures Valid() && Abs() == Opened(old(Abs()), rowId, originalRow)
    {
      hide KeyOf;
      var key := KeyOf(rowId, Update);
      if key !in index {
        sequence := sequence + 1;
        var c := RowChange(rowId, Update, [], originalRow, [], sequence);
        Appended(changes, c);
        changes := changes + [c];
        index := index[key := |changes| - 1];
      }
    }

    /** A cell of an update row: collapsed when the value is the original again, merged or appended otherwise. */
    method ChangeCell(rowId: string, column: string, oldValue: Value, newValue: Value, originalRow: Row)
      requires Valid()
      modifies this
      ensures Valid() && Abs() == UpdateCell(float, old(Abs()), rowId, column, oldValue, newValue, originalRow)
    {
      hide KeyOf, RowGet, DropCell, SetCell, ValuesEqual, Opened, IndexOf, WithoutKey;
      var key := KeyOf(rowId, Update);
      OpenedAt(Abs(), rowId, originalRow);
      OpenRow(rowId, originalRow);
      var i := index[key];
      var c := changes[i];
      if ValuesEqual(float, newValue, RowGet(c.original, column)) {
        var cells := RetainExceptColumn(c.cells, column);
        SameKeys(changes, i, c.(cells := cells));
        changes := changes[i := c.(cells := cells)];
        undoStack := undoStack + [UndoOp(false, key, column)];
        if cells == [] {
          RemoveByKey(key);
        }
      } else {
        var cells := MergeCell(c.cells, column, oldValue, newValue);
        SameKeys(changes, i, c.(cells := cells));
        changes := changes[i := c.(cells := cells)];
        undoStack := undoStack + [UndoOp(false, key, column)];
      }
    }

    method AddCellChange(rowId: string, column: string, oldValue: Value, newValue: Value, originalRow: Row)
      requires Valid()
      modifies this
      ensures Valid() && Abs() == EditCell(float, old(Abs()), rowId, column, oldValue, newValue, originalRow)
    {
      hide KeyOf, RowSet, ValuesEqual, IndexOf, UpdateCell;
      if ValuesEqual(float, oldValue, newValue) {
        return;
      }
      var insertKey := KeyOf(rowId, Insert);
      if insertKey in index {
        IndexAt(changes, insertKey);
        var i := index[insertKey];
        var c := changes[i].(newRow := RowSet(changes[i].newRow, column, newValue));
        SameKeys(changes, i, c);
        changes := changes[i := c];
        undoStack := undoStack + [UndoOp(true, insertKey, "")];
        return;
      }
      ChangeCell(rowId, column, oldValue, newValue, originalRow);
    }

    method AddInsert(rowId: string, row: Row)
      requires Valid()
      modifies this
      ensures Valid() && Abs() == InsertRow(old(Abs()), rowId, row)
    {
      hide KeyOf;
      sequence := sequence + 1;
      var c := RowChange(rowId, Insert, [], [], row, sequence);
      Appended(changes, c);
      changes := changes + [c];
      index := index[KeyOf(rowId, Insert) := |changes| - 1];
      undoStack := undoStack + [UndoOp(true, KeyOf(rowId, Insert), "")];
    }

    method AddDelete(rowId: string, originalRow: Row)
      requires Valid()
      modifies this
      ensures Valid() && Abs() == DeleteRow(old(Abs()), rowId, originalRow)
    {
      hide KeyOf;
      sequence := sequence + 1;
      var c := RowChange(rowId, Delete, [], originalRow, [], sequence);
      Appended(changes, c);
      changes := changes + [c];
      index := index[KeyOf(rowId, Delete) := |changes| - 1];
      undoStack := undoStack + [UndoOp(true, KeyOf(rowId, Delete), "")];
    }

    /** Drops every change under the key and rebuilds the index. */
    method RemoveByKey(key: string)
      modifies this`changes, this`index
      ensures Valid() && changes == WithoutKey(old(changes), key)
    {
      var before := changes;
      var out: seq<RowChange> := [];
      ghost var keep := (c: RowChange) => Key(c) != key;
      for i := 0 to |before|
        invariant changes == before
        invariant out == Filter(before[..i], keep)
      {
        assert before[..i + 1][..i] == before[..i];
        if Key(before[i]) != key {
          out := out + [before[i]];
        }
      }
      assert before[..|before|] == before;
      changes := out;
      Reindex();
    }

    method Reindex()
      modifies this`index
      ensures Valid()
    {
      index := map[];
      for i := 0 to |changes|
        invariant index == IndexOf(changes[..i])
      {
        assert changes[..i + 1][..i] == changes[..i];
        index := index[Key(changes[i]) := i];
      }
      assert changes[..|changes|] == changes;
    }

    method Undo() returns (done: bool)
      requires Valid()
      modifies this
      ensures Valid() && (Abs(), done) == UndoLast(old(Abs()))
    {
      hide KeyOf, Filter;
      if |undoStack| == 0 {
        return false;
      }
      var op := undoStack[|undoStack| - 1];
      undoStack := undoStack[..|undoStack| - 1];
      if op.isRow {
        var before := |changes|;
        RemoveByKey(op.key);
        return |changes| < before;
      }
      if op.key !in index {
        return false;
      }
      IndexAt(changes, op.key);
      var i := index[op.key];
      if changes[i].kind != Update {
        return false;
      }
      var cells := RetainExceptColumn(changes[i].cells, op.column);
      PutCells(i, cells);
      return true;
    }

    /** The i-th change left with these cells, or removed when there are none. */
    method PutCells(i: nat, cells: seq<CellChange>)
      requires Valid() && i < |changes|
      modifies this`changes, this`index
      ensures Valid()
      ensures changes == old(if cells == [] then changes[..i] + changes[i + 1..] else changes[i := changes[i].(cells := cells)])
    {
      if cells == [] {
        changes := changes[..i] + changes[i + 1..];
        Reindex();
      } else {
        SameKeys(changes, i, changes[i].(cells := cells));
        changes := changes[i := changes[i].(cells := cells)];
      }
    }

    method Clear()
      modifies this
      ensures Valid() && Abs() == Cleared(old(Abs()))
    {
      changes := [];
      index := map[];
      undoStack := [];
    }
  }

  lemma Appended(changes: seq<RowChange>, c: RowChange)
    ensures IndexOf(changes + [c]) == IndexOf(changes)[Key(c) := |changes|]
  {
    hide Key;
    assert (changes + [c])[..|changes|] == changes;
  }

  /** Replacing a change by one under the same key leaves the index as it is. */
  lemma {:induction false} SameKeys(changes: seq<RowChange>, i: nat, c: RowChange)
    requires i < |changes| && Key(c) == Key(changes[i])
    ensures IndexOf(changes[i := c]) == IndexOf(changes)
  {
    hide Key;
    var n := |changes| - 1;
    var r := changes[i := c];
    if i < n {
      SameKeys(changes[..n], i, c);
      assert r[..n] == changes[..n][i := c];
    } else {
      assert r[..n] == changes[..n];
    }
  }

  method RetainExceptColumn(cells: seq<CellChange>, column: string) returns (out: seq<CellChange>)
    ensures out == DropCell(cells, column)
  {
    out := [];
    ghost var keep := (c: CellChange) => c.column != column;
    for i := 0 to |cells|
      invariant out == Filter(cells[..i], keep)
    {
      assert cells[..i + 1][..i] == cells[..i];
      if cells[i].column != column {
        out := out + [cells[i]];
      }
    }
    assert cells[..|cells|] == cells;
  }

  lemma {:induction false} SetCellAt(cells: seq<CellChange>, column: string, old0: Value, v: Value, i: nat)
    requires i <= |cells| && (forall j :: 0 <= j < i ==> cells[j].column != column) && (i < |cells| ==> cells[i].column == column)
    ensures SetCell(cells, column, old0, v)
         == if i == |cells| then cells + [CellChange(column, old0, v)] else cells[i := cells[i].(newValue := v)]
  {
    if i > 0 {
      SetCellAt(cells[1..], column, old0, v, i - 1);
      assert cells == [cells[0]] + cells[1..];
    }
  }

  method MergeCell(cells: seq<CellChange>, column: string, oldValue: Value, newValue: Value) returns (out: seq<CellChange>)
    ensures out == SetCell(cells, column, oldValue, newValue)
  {
    hide SetCell;
    for i := 0 to |cells|
      invariant forall j :: 0 <= j < i ==> cells[j].column != column
    {
      if cells[i].column == column {
        SetCellAt(cells, column, oldValue, newValue, i);
        out := cells[i := cells[i].(newValue := newValue)];
        return;
      }
    }
    SetCellAt(cells, column, oldValue, newValue, |cells|);
    out := cells + [CellChange(column, oldValue, newValue)];
  }
}
