/// What every run of queue operations keeps, what undoing everything leaves, and
/// the map of pending cells the queue refines.
module QueueLaws {
  import opened Text
  import opened Sequences
  import opened EditQueue

  // ---- The invariant ----

  /** Sequence numbers rise strictly and stay at or below the counter. */
  predicate Rising(changes: seq<RowChange>, next: nat) {
    && (forall i :: 0 <= i < |changes| ==> changes[i].sequence <= next)
    && forall i, j :: 0 <= i < j < |changes| ==> changes[i].sequence < changes[j].sequence
  }

  predicate OneUpdatePerRow(changes: seq<RowChange>) {
    forall i, j :: 0 <= i < j < |changes| && changes[i].kind == Update && changes[j].kind == Update ==> changes[i].rowId != changes[j].rowId
  }

  predicate DistinctColumns(cells: seq<CellChange>) {
    forall i, j :: 0 <= i < j < |cells| ==> cells[i].column != cells[j].column
  }

  /** An update changes some cell, none twice; and the undo stack can take the change back. */
  predicate ChangeOk(c: RowChange, undo: seq<UndoOp>) {
    if c.kind == Update then
      c.cells != [] && DistinctColumns(c.cells) && forall x :: x in c.cells ==> UndoOp(false, Key(c), x.column) in undo
    else UndoOp(true, Key(c), "") in undo
  }

  predicate Inv(st: State) {
    Rising(st.changes, st.next) && OneUpdatePerRow(st.changes) && forall c :: c in st.changes ==> ChangeOk(c, st.undo)
  }

  lemma MoreUndo(c: RowChange, undo: seq<UndoOp>, op: UndoOp)
    requires ChangeOk(c, undo)
    ensures ChangeOk(c, undo + [op])
  {
    hide Key;
  }

  /** Popping an operation about another key leaves a change as undoable as before. */
  lemma LessUndo(c: RowChange, undo: seq<UndoOp>)
    requires undo != [] && ChangeOk(c, undo) && (undo[|undo| - 1].key != Key(c) || undo[|undo| - 1].isRow != (c.kind != Update))
    ensures ChangeOk(c, undo[..|undo| - 1])
  {
    hide Key;
    var init, op := undo[..|undo| - 1], undo[|undo| - 1];
    assert undo == init + [op];
    assert forall x :: x in undo <==> x in init || x == op;
  }

  lemma SubsequenceKeeps(changes: seq<RowChange>, next: nat, keep: RowChange -> bool)
    requires Rising(changes, next) && OneUpdatePerRow(changes)
    ensures Rising(Filter(changes, keep), next) && OneUpdatePerRow(Filter(changes, keep))
    ensures forall c :: c in Filter(changes, keep) <==> c in changes && keep(c)
  {
    hide Filter;
    var r := Filter(changes, keep);
    FilterMember(changes, keep);
    forall a | 0 <= a < |r| ensures r[a].sequence <= next {
      assert r[a] in r;
      assert r[a] in changes;
    }
    forall a, b | 0 <= a < b < |r|
      ensures r[a].sequence < r[b].sequence && (r[a].kind == Update && r[b].kind == Update ==> r[a].rowId != r[b].rowId)
    {
      var i, j := FilterBefore(changes, keep, a, b);
    }
  }

  lemma WithoutKeyKeeps(changes: seq<RowChange>, next: nat, k: string)
    requires Rising(changes, next) && OneUpdatePerRow(changes)
    ensures Rising(WithoutKey(changes, k), next) && OneUpdatePerRow(WithoutKey(changes, k))
    ensures forall c :: c in WithoutKey(changes, k) <==> c in changes && Key(c) != k
  {
    hide Key, Rising, OneUpdatePerRow;
    SubsequenceKeeps(changes, next, (c: RowChange) => Key(c) != k);
  }

  lemma AppendKeeps(changes: seq<RowChange>, next: nat, c: RowChange)
    requires Rising(changes, next) && OneUpdatePerRow(changes) && c.sequence == next + 1
    requires c.kind == Update ==> Key(c) !in IndexOf(changes)
    ensures Rising(changes + [c], next + 1) && OneUpdatePerRow(changes + [c])
  {
    IndexAt(changes, Key(c));
    hide IndexOf;
  }

  lemma ReplaceKeeps(changes: seq<RowChange>, next: nat, i: nat, c: RowChange)
    requires Rising(changes, next) && OneUpdatePerRow(changes) && i < |changes|
    requires c.sequence == changes[i].sequence && c.kind == changes[i].kind && c.rowId == changes[i].rowId
    ensures Rising(changes[i := c], next) && OneUpdatePerRow(changes[i := c])
    ensures forall x :: x in changes[i := c] ==> x == c || (x in changes && exists j :: 0 <= j < |changes| && j != i && changes[j] == x)
  {
    var r := changes[i := c];
    forall x | x in r ensures x == c || (x in changes && exists j :: 0 <= j < |changes| && j != i && changes[j] == x) {
      var j :| 0 <= j < |r| && r[j] == x;
      assert j != i ==> changes[j] == x;
    }
  }

  // ---- Inserts and deletes ----

  lemma AddRowKeeps(st: State, c: RowChange)
    requires Inv(st) && c.kind != Update && c.sequence == st.next + 1
    ensures Inv(AddRow(st, c))
  {
    hide Key, Rising, OneUpdatePerRow, IndexOf;
    AppendKeeps(st.changes, st.next, c);
    var op := UndoOp(true, Key(c), "");
    forall x | x in st.changes + [c] ensures ChangeOk(x, st.undo + [op]) {
      if x in st.changes {
        MoreUndo(x, st.undo, op);
      }
    }
  }

  // ---- Cell edits ----

  lemma InsertEditKeeps(st: State, rowId: string, column: string, v: Value)
    requires Inv(st) && KeyOf(rowId, Insert) in IndexOf(st.changes)
    ensures Inv(EditInsert(st, rowId, column, v))
  {
    var k := KeyOf(rowId, Insert);
    IndexAt(st.changes, k);
    var i := IndexOf(st.changes)[k];
    var c := st.changes[i].(newRow := RowSet(st.changes[i].newRow, column, v));
    KeyOfInjective(rowId, Insert, st.changes[i].rowId, st.changes[i].kind);
    hide KeyOf, Rising, OneUpdatePerRow, IndexOf, RowSet;
    ReplaceKeeps(st.changes, st.next, i, c);
    var op := UndoOp(true, k, "");
    forall x | x in st.changes[i := c] ensures ChangeOk(x, st.undo + [op]) {
      if x != c {
        MoreUndo(x, st.undo, op);
      }
    }
  }

  lemma {:induction false} SetCellMembers(cells: seq<CellChange>, column: string, old0: Value, v: Value)
    requires DistinctColumns(cells)
    ensures var r := SetCell(cells, column, old0, v);
      && r != [] && DistinctColumns(r)
      && (forall x :: x in r ==> x.column == column || x in cells)
      && (forall x :: x in cells && x.column != column ==> x in r)
  {
    if i :| 0 <= i < |cells| && cells[i].column == column {
      SetCellAt(cells, column, old0, v, i);
      var r := cells[i := cells[i].(newValue := v)];
      assert forall j :: 0 <= j < |r| && j != i ==> r[j] == cells[j];
      forall x | x in cells && x.column != column ensures x in r {
        var j :| 0 <= j < |cells| && cells[j] == x;
        assert r[j] == x;
      }
    } else {
      SetCellAt(cells, column, old0, v, |cells|);
    }
  }

  lemma DropCellMembers(cells: seq<CellChange>, column: string)
    requires DistinctColumns(cells)
    ensures DistinctColumns(DropCell(cells, column))
    ensures forall x :: x in DropCell(cells, column) <==> x in cells && x.column != column
  {
    var keep := (c: CellChange) => c.column != column;
    FilterMember(cells, keep);
    var r := DropCell(cells, column);
    forall a, b | 0 <= a < b < |r| ensures r[a].column != r[b].column {
      var i, j := FilterBefore(cells, keep, a, b);
    }
  }

  /** Between opening a row and recording its cell, the new row may still be without cells. */
  predicate Opening(st: State, i: nat) {
    && Rising(st.changes, st.next) && OneUpdatePerRow(st.changes) && i < |st.changes|
    && st.changes[i].kind == Update && DistinctColumns(st.changes[i].cells)
    && (forall x :: x in st.changes[i].cells ==> UndoOp(false, Key(st.changes[i]), x.column) in st.undo)
    && forall j :: 0 <= j < |st.changes| && j != i ==> ChangeOk(st.changes[j], st.undo)
  }

  lemma FoundIsUpdate(st: State, rowId: string)
    requires Inv(st) && KeyOf(rowId, Update) in IndexOf(st.changes)
    ensures var i := IndexOf(st.changes)[KeyOf(rowId, Update)]; Opening(st, i) && Key(st.changes[i]) == KeyOf(rowId, Update)
  {
    var k := KeyOf(rowId, Update);
    IndexAt(st.changes, k);
    var i := IndexOf(st.changes)[k];
    KeyOfInjective(rowId, Update, st.changes[i].rowId, st.changes[i].kind);
    hide KeyOf, Rising, OneUpdatePerRow, IndexOf, DistinctColumns;
    assert forall j :: 0 <= j < |st.changes| ==> st.changes[j] in st.changes;
  }

  lemma NewIsOpening(st: State, c: RowChange)
    requires Inv(st) && c.kind == Update && c.cells == [] && c.sequence == st.next + 1 && Key(c) !in IndexOf(st.changes)
    ensures Opening(State(st.changes + [c], st.undo, st.next + 1), |st.changes|)
  {
    hide KeyOf, Rising, OneUpdatePerRow, IndexOf;
    AppendKeeps(st.changes, st.next, c);
    assert forall j :: 0 <= j < |st.changes| ==> (st.changes + [c])[j] == st.changes[j] && st.changes[j] in st.changes;
  }

  lemma OpenedKeeps(st: State, rowId: string, original: Row)
    requires Inv(st)
    ensures var o, k := Opened(st, rowId, original), KeyOf(rowId, Update);
      k in IndexOf(o.changes) && Opening(o, IndexOf(o.changes)[k]) && Key(o.changes[IndexOf(o.changes)[k]]) == k
  {
    hide KeyOf, Inv, IndexOf, Opening;
    if KeyOf(rowId, Update) in IndexOf(st.changes) {
      FoundIsUpdate(st, rowId);
    } else {
      var c := RowChange(rowId, Update, [], original, [], st.next + 1);
      NewIsOpening(st, c);
      Appended(st.changes, c);
    }
  }

  lemma UpdateCellKeeps(float: Float, st: State, rowId: string, column: string, old0: Value, v: Value, original: Row)
    requires Inv(st)
    ensures Inv(UpdateCell(float, st, rowId, column, old0, v, original))
  {
    hide KeyOf, Rising, OneUpdatePerRow, IndexOf, Opened, ValuesEqual, RowGet, DropCell, SetCell, WithoutKey, Inv, Opening;
    var k := KeyOf(rowId, Update);
    OpenedKeeps(st, rowId, original);
    OpenedAt(st, rowId, original);
    var o := Opened(st, rowId, original);
    var i := IndexOf(o.changes)[k];
    if ValuesEqual(float, v, RowGet(o.changes[i].original, column)) {
      CollapseKeeps(o, i, column);
    } else {
      RecordKeeps(o, i, column, old0, v);
    }
  }

  lemma RecordKeeps(o: State, i: nat, column: string, old0: Value, v: Value)
    requires Opening(o, i)
    ensures var c := o.changes[i];
      Inv(State(o.changes[i := c.(cells := SetCell(c.cells, column, old0, v))], o.undo + [UndoOp(false, Key(c), column)], o.next))
  {
    hide KeyOf, Rising, OneUpdatePerRow, SetCell, DistinctColumns;
    var c := o.changes[i];
    var d := c.(cells := SetCell(c.cells, column, old0, v));
    var op := UndoOp(false, Key(c), column);
    SetCellMembers(c.cells, column, old0, v);
    ReplaceKeeps(o.changes, o.next, i, d);
    assert Key(d) == Key(c);
    forall x | x in o.changes[i := d] ensures ChangeOk(x, o.undo + [op]) {
      if x != d {
        MoreUndo(x, o.undo, op);
      }
    }
  }

  lemma CollapseKeeps(o: State, i: nat, column: string)
    requires Opening(o, i)
    ensures var c := o.changes[i]; var cells := DropCell(c.cells, column); var kept := o.changes[i := c.(cells := cells)];
      Inv(State(if cells == [] then WithoutKey(kept, Key(c)) else kept, o.undo + [UndoOp(false, Key(c), column)], o.next))
  {
    hide KeyOf, Rising, OneUpdatePerRow, DropCell, DistinctColumns, WithoutKey;
    var c := o.changes[i];
    var cells := DropCell(c.cells, column);
    var d := c.(cells := cells);
    var kept := o.changes[i := d];
    var op := UndoOp(false, Key(c), column);
    DropCellMembers(c.cells, column);
    ReplaceKeeps(o.changes, o.next, i, d);
    assert Key(d) == Key(c);
    forall x | x in kept && (x != d || cells != []) ensures ChangeOk(x, o.undo + [op]) {
      if x != d {
        MoreUndo(x, o.undo, op);
      }
    }
    WithoutKeyKeeps(kept, o.next, Key(c));
  }

  lemma EditCellKeeps(float: Float, st: State, rowId: string, column: string, old0: Value, v: Value, original: Row)
    requires Inv(st)
    ensures Inv(EditCell(float, st, rowId, column, old0, v, original))
  {
    hide Inv, ValuesEqual, IndexOf, UpdateCell, EditInsert, KeyOf;
    if KeyOf(rowId, Insert) in IndexOf(st.changes) {
      InsertEditKeeps(st, rowId, column, v);
    } else {
      UpdateCellKeeps(float, st, rowId, column, old0, v, original);
    }
  }

  // ---- Undo ----

  lemma UndoRowKeeps(st: State)
    requires Inv(st) && st.undo != [] && st.undo[|st.undo| - 1].isRow
    ensures Inv(UndoLast(st).0)
  {
    hide KeyOf, Rising, OneUpdatePerRow, ChangeOk, WithoutKey;
    var op := st.undo[|st.undo| - 1];
    WithoutKeyKeeps(st.changes, st.next, op.key);
    forall x | x in WithoutKey(st.changes, op.key) ensures ChangeOk(x, st.undo[..|st.undo| - 1]) {
      LessUndo(x, st.undo);
    }
  }

  /** No other change carries the key of an update. */
  lemma OnlyUpdate(changes: seq<RowChange>, i: nat, j: nat)
    requires OneUpdatePerRow(changes) && i < |changes| && j < |changes| && i != j && changes[i].kind == Update
    ensures Key(changes[j]) != Key(changes[i])
  {
    if Key(changes[j]) == Key(changes[i]) {
      KeyOfInjective(changes[j].rowId, changes[j].kind, changes[i].rowId, changes[i].kind);
    }
  }

  /** Taking back a cell edit that finds no update leaves the changes as they are. */
  lemma UndoNothingKeeps(st: State)
    requires Inv(st) && st.undo != [] && !st.undo[|st.undo| - 1].isRow
    requires forall x :: x in st.changes && x.kind == Update ==> Key(x) != st.undo[|st.undo| - 1].key
    ensures Inv(State(st.changes, st.undo[..|st.undo| - 1], st.next))
  {
    hide KeyOf, Rising, OneUpdatePerRow, ChangeOk;
    forall x | x in st.changes ensures ChangeOk(x, st.undo[..|st.undo| - 1]) {
      LessUndo(x, st.undo);
    }
  }

  lemma KeyedHere(st: State, x: RowChange)
    requires x in st.changes
    ensures Key(x) in IndexOf(st.changes)
  {
    hide KeyOf, IndexOf;
    IndexAt(st.changes, Key(x));
    var j :| 0 <= j < |st.changes| && st.changes[j] == x;
  }

  lemma UndoCellKeeps(st: State)
    requires Inv(st) && st.undo != [] && !st.undo[|st.undo| - 1].isRow
    ensures Inv(UndoLast(st).0)
  {
    hide KeyOf, Inv, IndexOf, DropCell;
    var op := st.undo[|st.undo| - 1];
    IndexAt(st.changes, op.key);
    if op.key in IndexOf(st.changes) {
      var i := IndexOf(st.changes)[op.key];
      if st.changes[i].kind != Update {
        forall x | x in st.changes && x.kind == Update ensures Key(x) != op.key {
          NotUpdateKey(x, st.changes[i]);
        }
        UndoNothingKeeps(st);
      } else {
        UndoUpdateKeeps(st, i);
      }
    } else {
      forall x | x in st.changes && x.kind == Update ensures Key(x) != op.key {
        KeyedHere(st, x);
      }
      UndoNothingKeeps(st);
    }
  }

  lemma NotUpdateKey(x: RowChange, c: RowChange)
    requires c.kind != Update
    ensures x.kind == Update ==> Key(x) != Key(c)
  {
    if Key(x) == Key(c) {
      KeyOfInjective(x.rowId, x.kind, c.rowId, c.kind);
    }
  }

  /** The update without the cell taken back, if any cell is left. */
  lemma DroppedCellOk(c: RowChange, undo: seq<UndoOp>, column: string)
    requires c.kind == Update && ChangeOk(c, undo + [UndoOp(false, Key(c), column)])
    ensures var d := c.(cells := DropCell(c.cells, column)); Key(d) == Key(c) && (d.cells != [] ==> ChangeOk(d, undo))
  {
    hide KeyOf, DropCell, DistinctColumns;
    DropCellMembers(c.cells, column);
    var d := c.(cells := DropCell(c.cells, column));
    forall x | x in d.cells ensures UndoOp(false, Key(d), x.column) in undo {
      assert UndoOp(false, Key(c), x.column) in undo + [UndoOp(false, Key(c), column)];
    }
  }

  /** Every change but update i stands without the last undo entry. */
  lemma OthersStand(st: State, i: nat)
    requires Inv(st) && st.undo != [] && i < |st.changes| && st.changes[i].kind == Update
    requires !st.undo[|st.undo| - 1].isRow && st.undo[|st.undo| - 1].key == Key(st.changes[i])
    ensures forall j :: 0 <= j < |st.changes| && j != i ==> ChangeOk(st.changes[j], st.undo[..|st.undo| - 1])
  {
    hide KeyOf, Rising, OneUpdatePerRow, ChangeOk;
    forall j | 0 <= j < |st.changes| && j != i ensures ChangeOk(st.changes[j], st.undo[..|st.undo| - 1]) {
      assert st.changes[j] in st.changes;
      OnlyUpdate(st.changes, i, j);
      LessUndo(st.changes[j], st.undo);
    }
  }

  lemma UndoRemoved(changes: seq<RowChange>, undo: seq<UndoOp>, next: nat, i: nat)
    requires Rising(changes, next) && OneUpdatePerRow(changes) && i < |changes|
    requires forall j :: 0 <= j < |changes| && j != i ==> ChangeOk(changes[j], undo)
    ensures Inv(State(changes[..i] + changes[i + 1..], undo, next))
  {
    hide KeyOf, Rising, OneUpdatePerRow, ChangeOk;
    RemoveAtKeeps(changes, next, i);
  }

  lemma UndoReplaced(changes: seq<RowChange>, undo: seq<UndoOp>, next: nat, i: nat, d: RowChange)
    requires Rising(changes, next) && OneUpdatePerRow(changes) && i < |changes|
    requires forall j :: 0 <= j < |changes| && j != i ==> ChangeOk(changes[j], undo)
    requires ChangeOk(d, undo) && d.rowId == changes[i].rowId && d.kind == changes[i].kind && d.sequence == changes[i].sequence
    ensures Inv(State(changes[i := d], undo, next))
  {
    hide KeyOf, Rising, OneUpdatePerRow, ChangeOk;
    ReplaceKeeps(changes, next, i, d);
    forall x | x in changes[i := d] ensures ChangeOk(x, undo) {
      var j :| 0 <= j < |changes| && changes[i := d][j] == x;
    }
  }

  lemma UndoUpdateKeeps(st: State, i: nat)
    requires Inv(st) && st.undo != [] && i < |st.changes| && st.changes[i].kind == Update
    requires var op := st.undo[|st.undo| - 1]; !op.isRow && op.key == Key(st.changes[i])
    ensures var op, undo, c := st.undo[|st.undo| - 1], st.undo[..|st.undo| - 1], st.changes[i];
      var cells := DropCell(c.cells, op.column);
      Inv(State(if cells == [] then st.changes[..i] + st.changes[i + 1..] else st.changes[i := c.(cells := cells)], undo, st.next))
  {
    hide KeyOf, DropCell, Rising, OneUpdatePerRow, ChangeOk;
    var op, undo, c := st.undo[|st.undo| - 1], st.undo[..|st.undo| - 1], st.changes[i];
    assert c in st.changes && st.undo == undo + [op] && op == UndoOp(false, Key(c), op.column);
    OthersStand(st, i);
    DroppedCellOk(c, undo, op.column);
    if DropCell(c.cells, op.column) == [] {
      UndoRemoved(st.changes, undo, st.next, i);
    } else {
      UndoReplaced(st.changes, undo, st.next, i, c.(cells := DropCell(c.cells, op.column)));
    }
  }

  lemma RemoveAtKeeps(changes: seq<RowChange>, next: nat, i: nat)
    requires Rising(changes, next) && OneUpdatePerRow(changes) && i < |changes|
    ensures var r := changes[..i] + changes[i + 1..];
      Rising(r, next) && OneUpdatePerRow(r) && forall x :: x in r ==> exists j :: 0 <= j < |changes| && j != i && changes[j] == x
  {
    var r := changes[..i] + changes[i + 1..];
    assert forall j :: 0 <= j < |r| ==> r[j] == changes[if j < i then j else j + 1];
    forall x | x in r ensures exists j :: 0 <= j < |changes| && j != i && changes[j] == x {
      var j :| 0 <= j < |r| && r[j] == x;
      assert changes[if j < i then j else j + 1] == x;
    }
  }

  lemma UndoKeeps(st: State)
    requires Inv(st)
    ensures Inv(UndoLast(st).0)
  {
    hide Inv, IndexOf, WithoutKey, DropCell;
    if st.undo != [] {
      if st.undo[|st.undo| - 1].isRow {
        UndoRowKeeps(st);
      } else {
        UndoCellKeeps(st);
      }
    }
  }

  // ---- Every run ----

  datatype Op = Edit(rowId: string, column: string, oldValue: Value, newValue: Value, original: Row)
              | AddInsert(rowId: string, row: Row) | AddDelete(rowId: string, original: Row) | Undo | Clear

  function Apply(float: Float, st: State, op: Op): State {
    match op
    case Edit(rowId, column, oldValue, newValue, original) => EditCell(float, st, rowId, column, oldValue, newValue, original)
    case AddInsert(rowId, row) => InsertRow(st, rowId, row)
    case AddDelete(rowId, original) => DeleteRow(st, rowId, original)
    case Undo => UndoLast(st).0
    case Clear => Cleared(st)
  }

  function RunOps(float: Float, ops: seq<Op>): State {
    if ops == [] then EMPTY else Apply(float, RunOps(float, ops[..|ops| - 1]), ops[|ops| - 1])
  }

  /** The invariant holds after every run of operations. */
  lemma {:induction false} RunKeeps(float: Float, ops: seq<Op>)
    ensures Inv(RunOps(float, ops))
  {
    hide Inv, EditCell, UndoLast, AddRow;
    if ops == [] {
      StartOk();
    } else {
      var st, op := RunOps(float, ops[..|ops| - 1]), ops[|ops| - 1];
      RunKeeps(float, ops[..|ops| - 1]);
      match op
      case Edit(rowId, column, oldValue, newValue, original) => EditCellKeeps(float, st, rowId, column, oldValue, newValue, original);
      case AddInsert(rowId, row) => AddRowKeeps(st, RowChange(rowId, Insert, [], [], row, st.next + 1));
      case AddDelete(rowId, original) => AddRowKeeps(st, RowChange(rowId, Delete, [], original, [], st.next + 1));
      case Undo => UndoKeeps(st);
      case Clear => ClearedOk(st);
    }
  }

  lemma StartOk()
    ensures Inv(EMPTY)
  {
  }

  lemma ClearedOk(st: State)
    ensures Inv(Cleared(st))
  {
  }

  /** A change that was there before, its cells and rows apart. */
  predicate WasThere(before: seq<RowChange>, c: RowChange) {
    exists i :: 0 <= i < |before| && before[i].rowId == c.rowId && before[i].kind == c.kind && before[i].sequence == c.sequence
  }

  /** The numbering never falls, and a change is there from before or has a number never given out. */
  predicate NumbersOnce(st: State, next: State) {
    st.next <= next.next && forall c :: c in next.changes ==> WasThere(st.changes, c) || st.next < c.sequence <= next.next
  }

  lemma KeptNumbers(st: State, changes: seq<RowChange>, undo: seq<UndoOp>)
    requires forall c :: c in changes ==> c in st.changes
    ensures NumbersOnce(st, State(changes, undo, st.next))
  {
    forall c | c in changes ensures WasThere(st.changes, c) {
      var i :| 0 <= i < |st.changes| && st.changes[i] == c;
    }
  }

  lemma ReplacedNumbers(st: State, o: State, i: nat, c: RowChange, undo: seq<UndoOp>)
    requires NumbersOnce(st, o) && i < |o.changes|
    requires c.rowId == o.changes[i].rowId && c.kind == o.changes[i].kind && c.sequence == o.changes[i].sequence
    ensures NumbersOnce(st, State(o.changes[i := c], undo, o.next))
  {
    assert o.changes[i] in o.changes;
    forall x | x in o.changes[i := c] ensures WasThere(st.changes, x) || st.next < x.sequence <= o.next {
      var j :| 0 <= j < |o.changes| && o.changes[i := c][j] == x;
      assert j != i ==> o.changes[j] == x && o.changes[j] in o.changes;
    }
  }

  lemma FewerNumbers(st: State, o: State, changes: seq<RowChange>, undo: seq<UndoOp>)
    requires NumbersOnce(st, o) && forall c :: c in changes ==> c in o.changes
    ensures NumbersOnce(st, State(changes, undo, o.next))
  {
  }

  lemma SameNumbers(st: State)
    ensures NumbersOnce(st, st)
  {
    KeptNumbers(st, st.changes, st.undo);
  }

  lemma NewNumber(st: State, c: RowChange, undo: seq<UndoOp>)
    requires c.sequence == st.next + 1
    ensures NumbersOnce(st, State(st.changes + [c], undo, st.next + 1))
  {
    SameNumbers(st);
  }

  lemma UpdateNumbers(float: Float, st: State, rowId: string, column: string, old0: Value, v: Value, original: Row)
    ensures NumbersOnce(st, UpdateCell(float, st, rowId, column, old0, v, original))
  {
    hide KeyOf, IndexOf, ValuesEqual, RowGet, DropCell, SetCell, NumbersOnce, WithoutKey;
    OpenedAt(st, rowId, original);
    SameNumbers(st);
    NewNumber(st, RowChange(rowId, Update, [], original, [], st.next + 1), st.undo);
    var o, k := Opened(st, rowId, original), KeyOf(rowId, Update);
    var i := IndexOf(o.changes)[k];
    var c, undo := o.changes[i], o.undo + [UndoOp(false, k, column)];
    var cells := DropCell(c.cells, column);
    ReplacedNumbers(st, o, i, c.(cells := cells), undo);
    ReplacedNumbers(st, o, i, c.(cells := SetCell(c.cells, column, old0, v)), undo);
    var kept := o.changes[i := c.(cells := cells)];
    WithoutMembers(kept, k);
    FewerNumbers(st, State(kept, undo, o.next), WithoutKey(kept, k), undo);
  }

  lemma WithoutMembers(changes: seq<RowChange>, k: string)
    ensures forall c :: c in WithoutKey(changes, k) ==> c in changes
  {
    hide Key;
    FilterMember(changes, (c: RowChange) => Key(c) != k);
  }

  lemma UndoNumbers(st: State)
    ensures NumbersOnce(st, UndoLast(st).0)
  {
    hide KeyOf, IndexOf, DropCell, NumbersOnce, WithoutKey;
    SameNumbers(st);
    if st.undo != [] {
      var op, undo := st.undo[|st.undo| - 1], st.undo[..|st.undo| - 1];
      WithoutMembers(st.changes, op.key);
      KeptNumbers(st, WithoutKey(st.changes, op.key), undo);
      KeptNumbers(st, st.changes, undo);
      IndexAt(st.changes, op.key);
      if op.key in IndexOf(st.changes) {
        var i := IndexOf(st.changes)[op.key];
        var c := st.changes[i];
        ReplacedNumbers(st, st, i, c.(cells := DropCell(c.cells, op.column)), undo);
        KeptNumbers(st, st.changes[..i] + st.changes[i + 1..], undo);
      }
    }
  }

  lemma {:induction false} WithoutShorter(changes: seq<RowChange>, k: string)
    ensures |WithoutKey(changes, k)| <= |changes|
    ensures |WithoutKey(changes, k)| < |changes| <==> exists c :: c in changes && Key(c) == k
  {
    hide Key;
    if changes != [] {
      var init, last := changes[..|changes| - 1], changes[|changes| - 1];
      WithoutShorter(init, k);
      assert forall c :: c in changes <==> c in init || c == last;
    }
  }

  predicate TakenBack(op: UndoOp, c: RowChange) { Key(c) == op.key && (op.isRow || c.kind == Update) }

  /** Undo reports success exactly when it takes something back: an insert or delete under the last key, or an update. */
  lemma UndoReports(st: State)
    ensures UndoLast(st).1 <==> st.undo != [] && exists c :: c in st.changes && TakenBack(st.undo[|st.undo| - 1], c)
  {
    hide KeyOf, IndexOf, DropCell, WithoutKey;
    if st.undo != [] {
      var op := st.undo[|st.undo| - 1];
      WithoutShorter(st.changes, op.key);
      IndexAt(st.changes, op.key);
      forall c | c in st.changes && Key(c) == op.key && !op.isRow ensures op.key in IndexOf(st.changes) && st.changes[IndexOf(st.changes)[op.key]].kind == c.kind {
        KeyedHere(st, c);
        var d := st.changes[IndexOf(st.changes)[op.key]];
        KeyOfInjective(c.rowId, c.kind, d.rowId, d.kind);
      }
    }
  }

  /** No operation gives out a number twice, clearing the queue included: what is new has a number above all before. */
  lemma NumbersAreFresh(float: Float, st: State, op: Op)
    ensures NumbersOnce(st, Apply(float, st, op))
  {
    hide KeyOf, IndexOf, ValuesEqual, RowSet, NumbersOnce, UpdateCell, UndoLast;
    SameNumbers(st);
    match op
    case Edit(rowId, column, oldValue, newValue, original) =>
      UpdateNumbers(float, st, rowId, column, oldValue, newValue, original);
      IndexAt(st.changes, KeyOf(rowId, Insert));
      if KeyOf(rowId, Insert) in IndexOf(st.changes) {
        var i := IndexOf(st.changes)[KeyOf(rowId, Insert)];
        var c := st.changes[i];
        ReplacedNumbers(st, st, i, c.(newRow := RowSet(c.newRow, column, newValue)), st.undo + [UndoOp(true, KeyOf(rowId, Insert), "")]);
      }
    case AddInsert(rowId, row) =>
      var c := RowChange(rowId, Insert, [], [], row, st.next + 1);
      NewNumber(st, c, st.undo + [UndoOp(true, Key(c), "")]);
    case AddDelete(rowId, original) =>
      var c := RowChange(rowId, Delete, [], original, [], st.next + 1);
      NewNumber(st, c, st.undo + [UndoOp(true, Key(c), "")]);
    case Undo => UndoNumbers(st);
    case Clear => KeptNumbers(st, [], []);
  }

  lemma SameLast(changes: seq<RowChange>, out: seq<RowChange>)
    requires forall i, j :: 0 <= i < j < |changes| ==> changes[i].sequence < changes[j].sequence
    requires forall i, j :: 0 <= i < j < |out| ==> out[i].sequence <= out[j].sequence
    requires multiset(out) == multiset(changes) && changes != [] && out != []
    ensures out[|out| - 1] == changes[|changes| - 1]
  {
    var c, o := changes[|changes| - 1], out[|out| - 1];
    assert c in multiset(changes) && o in multiset(out);
    var i :| 0 <= i < |out| && out[i] == c;
    var j :| 0 <= j < |changes| && changes[j] == o;
    assert c.sequence <= o.sequence && (j == |changes| - 1 || o.sequence < c.sequence);
  }

  lemma WithoutLast(s: seq<RowChange>)
    requires s != []
    ensures multiset(s[..|s| - 1]) == multiset(s) - multiset{s[|s| - 1]}
  {
    assert s == s[..|s| - 1] + [s[|s| - 1]];
  }

  lemma SameSize(s: seq<RowChange>, t: seq<RowChange>)
    requires multiset(s) == multiset(t)
    ensures |s| == |t|
  {
    assert |s| == |multiset(s)| && |t| == |multiset(t)|;
  }

  lemma Joined(s: seq<RowChange>, t: seq<RowChange>)
    requires s != [] && t != [] && s[..|s| - 1] == t[..|t| - 1] && s[|s| - 1] == t[|t| - 1]
    ensures s == t
  {
    assert s == s[..|s| - 1] + [s[|s| - 1]] && t == t[..|t| - 1] + [t[|t| - 1]];
  }

  /** A list whose sequence numbers rise is the only ascending order of its changes. */
  lemma {:induction false} OnlyOrder(changes: seq<RowChange>, out: seq<RowChange>)
    requires forall i, j :: 0 <= i < j < |changes| ==> changes[i].sequence < changes[j].sequence
    requires forall i, j :: 0 <= i < j < |out| ==> out[i].sequence <= out[j].sequence
    requires multiset(out) == multiset(changes)
    ensures out == changes
    decreases |changes|
  {
    SameSize(out, changes);
    if changes != [] {
      SameLast(changes, out);
      WithoutLast(changes);
      WithoutLast(out);
      OnlyOrder(changes[..|changes| - 1], out[..|out| - 1]);
      Joined(out, changes);
    }
  }

  /** After every run, All can only list the changes as they stand. */
  lemma AllIsInOrder(float: Float, ops: seq<Op>, out: seq<RowChange>)
    requires multiset(out) == multiset(RunOps(float, ops).changes)
    requires forall i, j :: 0 <= i < j < |out| ==> out[i].sequence <= out[j].sequence
    ensures out == RunOps(float, ops).changes
  {
    hide RunOps;
    RunKeeps(float, ops);
    OnlyOrder(RunOps(float, ops).changes, out);
  }

  function UndoAll(st: State): State
    decreases |st.undo|
  {
    if st.undo == [] then st else UndoAll(UndoLast(st).0)
  }

  lemma NeedsUndo(c: RowChange)
    ensures !ChangeOk(c, [])
  {
    hide Key;
    assert c.cells != [] ==> c.cells[0] in c.cells;
  }

  lemma {:induction false} UndoAllEmpties(st: State)
    requires Inv(st)
    ensures UndoAll(st).changes == []
    decreases |st.undo|
  {
    hide UndoLast, ChangeOk;
    if st.undo == [] {
      forall c ensures c !in st.changes { NeedsUndo(c); }
      HasMember(st.changes);
    } else {
      UndoPops(st);
      UndoKeeps(st);
      UndoAllEmpties(UndoLast(st).0);
    }
  }

  lemma UndoPops(st: State)
    requires st.undo != []
    ensures UndoLast(st).0.undo == st.undo[..|st.undo| - 1]
  {
    hide IndexOf, WithoutKey, DropCell;
  }

  /** Undoing until nothing is left to undo empties the queue, after every run. */
  lemma RunUndone(float: Float, ops: seq<Op>)
    ensures UndoAll(RunOps(float, ops)).changes == []
  {
    hide UndoAll, RunOps, Inv;
    RunKeeps(float, ops);
    UndoAllEmpties(RunOps(float, ops));
  }
}
