/// What a plan's ids, ticks, flags and order say about the two snapshots: an id
/// is in the plan exactly when one side has something the other lacks, and an
/// entry is destructive exactly when it takes something of the source away.
module PlanMeaning {
  import opened Text
  import opened Sequences
  import opened Normalize
  import opened TypeNames
  import opened Snapshots
  import opened Plan
  import opened PlanOrder
  import opened Mirror
  import opened Script
  import opened WellFormed
  import opened PlanIds
  import opened Shape
  import opened Agreement
  import opened TableRuns
  import opened Rollback
  import opened PlainDrops

  // ---- What one table has and the other lacks, by lower-cased object ----

  predicate LacksColumn(have: TableSnapshot, lack: TableSnapshot, obj: string) {
    obj in ColumnMap(have) && obj !in ColumnMap(lack)
  }

  /** Primary keys match by their columns, other indexes by name, columns and uniqueness. */
  predicate SameForm(i: IndexInfo, j: IndexInfo) {
    && i.primary == j.primary && IndexSig(i) == IndexSig(j)
    && (!i.primary ==> Lower(i.name) == Lower(j.name) && i.unique == j.unique)
  }

  predicate HasIndex(t: TableSnapshot, i: IndexInfo) { exists j :: j in t.indexes && SameForm(i, j) }

  predicate LacksIndex(have: TableSnapshot, lack: TableSnapshot, obj: string) {
    exists i :: i in have.indexes && Lower(i.name) == obj && !HasIndex(lack, i)
  }

  predicate HasForeignKey(t: TableSnapshot, f: ForeignKeyInfo) {
    exists g :: g in t.foreignKeys && FkKey(g) == FkKey(f) && SameForeignKey(f, g)
  }

  predicate LacksForeignKey(have: TableSnapshot, lack: TableSnapshot, obj: string) {
    exists f :: f in have.foreignKeys && Lower(FkObject(f)) == obj && !HasForeignKey(lack, f)
  }

  /** The normalised type or the nullability differs. */
  predicate Reshaped(a: ColumnInfo, b: ColumnInfo) {
    NormalizeType(Sqlite, a.dataType) != NormalizeType(Sqlite, b.dataType) || a.nullable != b.nullable
  }

  predicate DefaultsDiffer(a: ColumnInfo, b: ColumnInfo) { NormalizeDefault(a.defaultValue) != NormalizeDefault(b.defaultValue) }

  predicate ColumnDiffers(s: TableSnapshot, t: TableSnapshot, opts: Options, obj: string) {
    obj in ColumnMap(s) && obj in ColumnMap(t) &&
    var a, b := ColumnMap(s)[obj], ColumnMap(t)[obj];
    Reshaped(a, b) || (!opts.ignoreDefaults && DefaultsDiffer(a, b))
  }

  /** What the plan has to say of a table on both sides. */
  predicate TableCalls(s: TableSnapshot, t: TableSnapshot, opts: Options, op: Op, obj: string) {
    match op
    case DropColumn => LacksColumn(s, t, obj)
    case AddColumn => LacksColumn(t, s, obj)
    case AlterColumn => ColumnDiffers(s, t, opts, obj)
    case DropIndex => LacksIndex(s, t, obj)
    case AddIndex => LacksIndex(t, s, obj)
    case DropForeignKey => LacksForeignKey(s, t, obj)
    case AddForeignKey => LacksForeignKey(t, s, obj)
    case _ => false
  }

  ghost predicate InTablePlan(s: TableSnapshot, t: TableSnapshot, opts: Options, op: Op, obj: string) {
    exists e :: e in DiffTable(Sqlite, s, t, opts) && e.op == op && Lower(e.obj) == obj
  }

  // ---- Columns ----

  lemma ColumnCalls(s: TableSnapshot, t: TableSnapshot, opts: Options, e: Entry)
    requires WfColumns(s) && WfColumns(t) && e in DiffColumns(Sqlite, t.name, s, t, opts)
    ensures TableCalls(s, t, opts, e.op, Lower(e.obj))
  {
    hide ColumnMap, Lower, NormalizeType, NormalizeDefault, WfColumns, DiffColumns;
    var c := Lower(e.obj);
    ColumnEntry(Sqlite, t.name, s, t, opts, e);
    if c in ColumnMap(s) && c in ColumnMap(t) {
      NoAutoIncrement(s, c);
      NoAutoIncrement(t, c);
    }
  }

  lemma NoAutoIncrement(t: TableSnapshot, c: string)
    requires WfColumns(t) && c in ColumnMap(t)
    ensures !ColumnMap(t)[c].isAutoIncrement
  {
    ColumnMapKeyed(t, c);
    hide ColumnMap, Lower;
  }

  lemma ColumnCalled(s: TableSnapshot, t: TableSnapshot, opts: Options, op: Op, obj: string) returns (e: Entry)
    requires Family(op) == 1 && TableCalls(s, t, opts, op, obj)
    ensures e in DiffColumns(Sqlite, t.name, s, t, opts) && e.op == op && Lower(e.obj) == obj
  {
    hide ColumnMap, Lower, NormalizeType, NormalizeDefault, DiffColumns;
    if obj in ColumnMap(s) {
      ColumnMapKeyed(s, obj);
    }
    if obj in ColumnMap(t) {
      ColumnMapKeyed(t, obj);
    }
    if op == AlterColumn {
      e := Mk(AlterColumn, t.name, ColumnMap(t)[obj].name, opts).(flags := ColumnFlags(Sqlite, ColumnMap(s)[obj], ColumnMap(t)[obj], opts));
    } else {
      e := Mk(op, t.name, if op == AddColumn then ColumnMap(t)[obj].name else ColumnMap(s)[obj].name, opts);
    }
    ColumnEntry(Sqlite, t.name, s, t, opts, e);
  }

  // ---- Indexes ----

  lemma IndexNamed(t: TableSnapshot, i: IndexInfo)
    requires WfIndexes(t) && i in t.indexes
    ensures IndexObject(i) == i.name && IndexKey(i) == Lower(i.name) && WfIndex(t, i)
  {
    hide IndexSig, Lower, ColumnMap;
  }

  lemma OnlyPrimary(t: TableSnapshot, i: IndexInfo)
    requires WfIndexes(t) && i in t.indexes && i.primary
    ensures FirstPrimary(t.indexes) == Some(i)
  {
    hide WfIndex, IndexKey;
  }

  lemma SecondaryFound(t: TableSnapshot, i: IndexInfo)
    requires WfIndexes(t) && i in t.indexes && !i.primary
    ensures Lower(i.name) in SecondaryMap(t) && SecondaryMap(t)[Lower(i.name)] == i
  {
    hide WfIndexes, SecondaryMap, IndexKey;
    IndexNamed(t, i);
    IndexFound(t, i);
  }

  lemma PrimaryHeld(t: TableSnapshot, i: IndexInfo)
    requires WfIndexes(t) && i.primary
    ensures HasIndex(t, i) <==> FirstPrimary(t.indexes).Some? && IndexSig(FirstPrimary(t.indexes).value) == IndexSig(i)
  {
    hide IndexSig, Lower, WfIndexes, FirstPrimary;
    if HasIndex(t, i) {
      var j :| j in t.indexes && SameForm(i, j);
      OnlyPrimary(t, j);
    }
    if FirstPrimary(t.indexes).Some? {
      var p := FirstPrimary(t.indexes).value;
      assert IndexSig(p) == IndexSig(i) ==> SameForm(i, p);
    }
  }

  lemma SecondaryHeld(t: TableSnapshot, i: IndexInfo)
    requires WfIndexes(t) && !i.primary
    ensures HasIndex(t, i) <==> Lower(i.name) in SecondaryMap(t) && SameIndex(i, SecondaryMap(t)[Lower(i.name)])
  {
    hide IndexSig, Lower, WfIndexes, SecondaryMap;
    if HasIndex(t, i) {
      var j :| j in t.indexes && SameForm(i, j);
      SecondaryFound(t, j);
    }
    if Lower(i.name) in SecondaryMap(t) {
      var j := SecondaryMap(t)[Lower(i.name)];
      SecondaryMapKeyed(t, Lower(i.name));
      IndexNamed(t, j);
      assert SameIndex(i, j) ==> SameForm(i, j);
    }
  }

  function Having(s: TableSnapshot, t: TableSnapshot, drop: bool): TableSnapshot { if drop then s else t }

  /** An index entry is about an index of one side that the other lacks. */
  lemma IndexCalls(s: TableSnapshot, t: TableSnapshot, opts: Options, e: Entry) returns (i: IndexInfo)
    requires WfIndexes(s) && WfIndexes(t) && e in DiffIndexes(t.name, s, t, opts)
    ensures Family(e.op) == 2 && i in Having(s, t, e.op == DropIndex).indexes && !HasIndex(Having(t, s, e.op == DropIndex), i)
    ensures e.obj == IndexObject(i) == i.name
    ensures TableCalls(s, t, opts, e.op, Lower(e.obj))
  {
    hide DiffSecondary, IndexSig, IndexObject, SecondaryMap, Lower, HasIndex, FirstPrimary, WfIndexes, IndexKey;
    var sp, tp := FirstPrimary(s.indexes), FirstPrimary(t.indexes);
    if e in PrimaryEntries(t.name, sp, tp, opts) {
      if e.op == DropIndex {
        i := sp.value;
        IndexNamed(s, i);
        PrimaryHeld(t, i);
      } else {
        i := tp.value;
        IndexNamed(t, i);
        PrimaryHeld(s, i);
      }
    } else {
      var k := Lower(e.obj);
      SecondaryEntry(t.name, s, t, opts, e);
      if e.op == DropIndex {
        SecondaryMapKeyed(s, k);
        i := SecondaryMap(s)[k];
        IndexNamed(s, i);
        SecondaryHeld(t, i);
      } else {
        SecondaryMapKeyed(t, k);
        i := SecondaryMap(t)[k];
        IndexNamed(t, i);
        SecondaryHeld(s, i);
      }
    }
  }

  lemma IndexCalled(s: TableSnapshot, t: TableSnapshot, opts: Options, op: Op, i: IndexInfo)
    requires WfIndexes(s) && WfIndexes(t) && Family(op) == 2
    requires i in Having(s, t, op == DropIndex).indexes && !HasIndex(Having(t, s, op == DropIndex), i)
    ensures Mk(op, t.name, IndexObject(i), opts) in DiffIndexes(t.name, s, t, opts) && IndexObject(i) == i.name
  {
    hide DiffSecondary, IndexSig, IndexObject, SecondaryMap, Lower, HasIndex, FirstPrimary, WfIndexes, IndexKey;
    var have, lack := Having(s, t, op == DropIndex), Having(t, s, op == DropIndex);
    IndexNamed(have, i);
    var e := Mk(op, t.name, IndexObject(i), opts);
    if i.primary {
      OnlyPrimary(have, i);
      PrimaryHeld(lack, i);
      assert e in PrimaryEntries(t.name, FirstPrimary(s.indexes), FirstPrimary(t.indexes), opts);
    } else {
      SecondaryFound(have, i);
      SecondaryHeld(lack, i);
      SecondaryEntry(t.name, s, t, opts, e);
    }
  }

  lemma IndexObjCalled(s: TableSnapshot, t: TableSnapshot, opts: Options, op: Op, obj: string) returns (e: Entry)
    requires WfIndexes(s) && WfIndexes(t) && Family(op) == 2 && TableCalls(s, t, opts, op, obj)
    ensures e in DiffIndexes(t.name, s, t, opts) && e.op == op && Lower(e.obj) == obj
  {
    hide DiffIndexes, IndexObject, Lower, HasIndex, WfIndexes;
    var i :| i in Having(s, t, op == DropIndex).indexes && Lower(i.name) == obj && !HasIndex(Having(t, s, op == DropIndex), i);
    IndexCalled(s, t, opts, op, i);
    e := Mk(op, t.name, IndexObject(i), opts);
  }

  // ---- Foreign keys ----

  lemma {:induction false} JoinFree(xs: seq<string>, c: char)
    requires c != ',' && forall i :: 0 <= i < |xs| ==> Free(xs[i], c)
    ensures Free(Join(xs, ","), c)
  {
    if |xs| > 1 {
      JoinFree(xs[1..], c);
    }
  }

  lemma JoinLowerFree(xs: seq<string>, c: char)
    requires c != ',' && LowerChar(c) == c && !('a' <= c <= 'z') && forall i :: 0 <= i < |xs| ==> Free(xs[i], c)
    ensures Free(JoinLower(xs), c)
  {
    forall i | 0 <= i < |xs| ensures Free(Lower(xs[i]), c) {
      assert forall j :: 0 <= j < |xs[i]| ==> LowerChar(xs[i][j]) == xs[i][j] || 'a' <= LowerChar(xs[i][j]) <= 'z';
    }
    JoinFree(LowerAll(xs), c);
  }

  predicate Unnamed(f: ForeignKeyInfo) { Trim(f.name) == "" }

  /** The arrow and the parenthesis of the key stand in no name of the foreign key. */
  predicate ArrowFree(f: ForeignKeyInfo) {
    NamesOkAll(f.columns) && NamesOkAll(f.referencedColumns) && Free(f.referencedTable, '(') && forall i :: 0 <= i < |f.columns| ==> Free(f.columns[i], '>')
  }

  lemma UnnamedKey(f: ForeignKeyInfo)
    requires Unnamed(f) && ArrowFree(f)
    ensures var a, x := "c:" + JoinLower(f.columns) + "-", Lower(f.referencedTable) + "(" + (JoinLower(f.referencedColumns) + ")");
      FkKey(f) == a + ">" + x && Free(a, '>') && Free(Lower(f.referencedTable), '(')
  {
    hide JoinLower, Lower;
    JoinLowerFree(f.columns, '>');
    JoinLowerFree([f.referencedTable], '(');
    assert JoinLower([f.referencedTable]) == Lower(f.referencedTable) by { OneJoined(f.referencedTable); }
    var c, t, r := "c:" + JoinLower(f.columns), Lower(f.referencedTable), JoinLower(f.referencedColumns);
    assert c + "->" + t + "(" + r + ")" == (c + "-") + ">" + (t + "(" + (r + ")"));
  }

  lemma OneJoined(n: string)
    ensures JoinLower([n]) == Lower(n)
  {
  }

  /** Foreign keys match by name, unnamed ones by their columns, the referenced table and its columns, all ignoring case. */
  lemma ForeignKeysMatch(f: ForeignKeyInfo, g: ForeignKeyInfo)
    requires ArrowFree(f) && ArrowFree(g)
    ensures FkKey(f) == FkKey(g) <==>
      if Unnamed(f) || Unnamed(g) then
        && Unnamed(f) && Unnamed(g) && LowerAll(f.columns) == LowerAll(g.columns)
        && Lower(f.referencedTable) == Lower(g.referencedTable) && LowerAll(f.referencedColumns) == LowerAll(g.referencedColumns)
      else Lower(f.name) == Lower(g.name)
  {
    hide JoinLower, Lower, NameOk, Trim;
    if Unnamed(f) && Unnamed(g) {
      UnnamedKey(f);
      UnnamedKey(g);
      if FkKey(f) == FkKey(g) {
        UnnamedSame(f, g);
      } else {
        JoinLowerCongruent(f.columns, g.columns);
        JoinLowerCongruent(f.referencedColumns, g.referencedColumns);
      }
    } else if !Unnamed(f) && !Unnamed(g) {
      assert FkKey(f)[2..] == Lower(f.name) && FkKey(g)[2..] == Lower(g.name);
    } else {
      assert FkKey(f)[0] != FkKey(g)[0];
    }
  }

  lemma JoinLowerCongruent(xs: seq<string>, ys: seq<string>)
    ensures LowerAll(xs) == LowerAll(ys) ==> JoinLower(xs) == JoinLower(ys)
  {
  }

  lemma UnnamedSame(f: ForeignKeyInfo, g: ForeignKeyInfo)
    requires ArrowFree(f) && ArrowFree(g) && Unnamed(f) && Unnamed(g) && FkKey(f) == FkKey(g)
    ensures LowerAll(f.columns) == LowerAll(g.columns) && Lower(f.referencedTable) == Lower(g.referencedTable)
    ensures LowerAll(f.referencedColumns) == LowerAll(g.referencedColumns)
  {
    hide JoinLower, Lower, NameOk, Trim, FkKey;
    UnnamedKey(f);
    UnnamedKey(g);
    var a, b := "c:" + JoinLower(f.columns) + "-", "c:" + JoinLower(g.columns) + "-";
    var t, u := Lower(f.referencedTable), Lower(g.referencedTable);
    var r, q := JoinLower(f.referencedColumns), JoinLower(g.referencedColumns);
    assert [('>')] == ">" && ['('] == "(";
    FirstOccurrence(a, b, t + "(" + (r + ")"), u + "(" + (q + ")"), '>');
    FirstOccurrence(t, u, r + ")", q + ")", '(');
    assert a[2..|a| - 1] == JoinLower(f.columns) && b[2..|b| - 1] == JoinLower(g.columns);
    assert (r + ")")[..|r|] == r && (q + ")")[..|q|] == q;
    JoinLowerInjective(f.columns, g.columns);
    JoinLowerInjective(f.referencedColumns, g.referencedColumns);
  }

  lemma BlankSchema(f: ForeignKeyInfo)
    ensures ReferencedTable(f) == if Trim(f.referencedSchema) == "" then Lower(f.referencedTable)
                                  else Lower(f.referencedSchema) + "/" + Lower(f.referencedTable)
  {
    hide Lower, Trim;
  }

  /** No slash in the names of the referenced table and its schema. */
  predicate SlashFree(f: ForeignKeyInfo) { Free(Lower(f.referencedTable), '/') && Free(Lower(f.referencedSchema), '/') }

  lemma SameReference(f: ForeignKeyInfo, g: ForeignKeyInfo)
    requires SlashFree(f) && SlashFree(g)
    ensures ReferencedTable(f) == ReferencedTable(g) <==>
      && Lower(f.referencedTable) == Lower(g.referencedTable)
      && (Trim(f.referencedSchema) == "" <==> Trim(g.referencedSchema) == "")
      && (Trim(f.referencedSchema) != "" ==> Lower(f.referencedSchema) == Lower(g.referencedSchema))
  {
    hide Lower, Trim, ReferencedTable;
    BlankSchema(f);
    BlankSchema(g);
    var a, b, x, y := Lower(f.referencedSchema), Lower(g.referencedSchema), Lower(f.referencedTable), Lower(g.referencedTable);
    if Trim(f.referencedSchema) != "" && Trim(g.referencedSchema) != "" && a + "/" + x == b + "/" + y {
      assert ['/'] == "/";
      FirstOccurrence(a, b, x, y, '/');
    }
    if Trim(f.referencedSchema) != "" {
      assert (a + "/" + x)[|a|] == '/';
    }
    if Trim(g.referencedSchema) != "" {
      assert (b + "/" + y)[|b|] == '/';
    }
  }

  /**
   * Two foreign keys are the same exactly when their columns, the referenced table with its schema, its columns and both
   * actions agree, names ignoring case.
   */
  lemma SameForeignKeyExactly(f: ForeignKeyInfo, g: ForeignKeyInfo)
    requires NamesOkAll(f.columns) && NamesOkAll(f.referencedColumns) && NamesOkAll(g.columns) && NamesOkAll(g.referencedColumns)
    requires SlashFree(f) && SlashFree(g)
    ensures SameForeignKey(f, g) <==>
      && LowerAll(f.columns) == LowerAll(g.columns) && LowerAll(f.referencedColumns) == LowerAll(g.referencedColumns)
      && Lower(f.referencedTable) == Lower(g.referencedTable)
      && (Trim(f.referencedSchema) == "" <==> Trim(g.referencedSchema) == "")
      && (Trim(f.referencedSchema) != "" ==> Lower(f.referencedSchema) == Lower(g.referencedSchema))
      && f.onDelete == g.onDelete && f.onUpdate == g.onUpdate
  {
    hide JoinLower, Lower, NameOk, Trim, ReferencedTable, SlashFree, LowerAll;
    SameReference(f, g);
    JoinLowerCongruent(f.columns, g.columns);
    JoinLowerCongruent(f.referencedColumns, g.referencedColumns);
    if SameForeignKey(f, g) {
      JoinLowerInjective(f.columns, g.columns);
      JoinLowerInjective(f.referencedColumns, g.referencedColumns);
    }
  }

  lemma ForeignKeyHeld(t: TableSnapshot, f: ForeignKeyInfo)
    requires WfForeignKeys(t)
    ensures HasForeignKey(t, f) <==> FkKey(f) in FkMap(t) && SameForeignKey(f, FkMap(t)[FkKey(f)])
  {
    hide FkMap, FkKey, SameForeignKey, WfForeignKeys;
    if HasForeignKey(t, f) {
      var g :| g in t.foreignKeys && FkKey(g) == FkKey(f) && SameForeignKey(f, g);
      FkFound(t, g);
    }
    if FkKey(f) in FkMap(t) {
      FkMapKeyed(t, FkKey(f));
    }
  }

  lemma SameForeignKeySymmetric(f: ForeignKeyInfo, g: ForeignKeyInfo)
    ensures SameForeignKey(f, g) == SameForeignKey(g, f)
  {
    hide JoinLower, ReferencedTable;
  }

  lemma ForeignKeyCalls(s: TableSnapshot, t: TableSnapshot, opts: Options, e: Entry)
    requires WfForeignKeys(s) && WfForeignKeys(t) && e in DiffForeignKeys(t.name, s, t, opts)
    ensures TableCalls(s, t, opts, e.op, Lower(e.obj))
  {
    hide FkMap, FkKey, SameForeignKey, WfForeignKeys, HasForeignKey, Lower, FkObject, DiffForeignKeys;
    ForeignKeyEntry(t.name, s, t, opts, e);
    var k :| FkChange(t.name, s, t, opts, e, k);
    if e.op == DropForeignKey {
      FkMapKeyed(s, k);
      ForeignKeyHeld(t, FkMap(s)[k]);
    } else {
      FkMapKeyed(t, k);
      ForeignKeyHeld(s, FkMap(t)[k]);
      if k in FkMap(s) {
        SameForeignKeySymmetric(FkMap(s)[k], FkMap(t)[k]);
      }
    }
    if e.op == DropForeignKey && k in FkMap(t) {
      SameForeignKeySymmetric(FkMap(s)[k], FkMap(t)[k]);
    }
  }

  lemma ForeignKeyCalled(s: TableSnapshot, t: TableSnapshot, opts: Options, op: Op, obj: string) returns (e: Entry)
    requires WfForeignKeys(s) && WfForeignKeys(t) && Family(op) == 3 && TableCalls(s, t, opts, op, obj)
    ensures e in DiffForeignKeys(t.name, s, t, opts) && e.op == op && Lower(e.obj) == obj
  {
    hide FkMap, FkKey, SameForeignKey, WfForeignKeys, HasForeignKey, Lower, FkObject, DiffForeignKeys;
    var have, lack := if op == DropForeignKey then s else t, if op == DropForeignKey then t else s;
    var f :| f in have.foreignKeys && Lower(FkObject(f)) == obj && !HasForeignKey(lack, f);
    var k := FkKey(f);
    e := Mk(op, t.name, FkObject(f), opts);
    FkFound(have, f);
    ForeignKeyHeld(lack, f);
    if k in FkMap(lack) {
      SameForeignKeySymmetric(f, FkMap(lack)[k]);
    }
    assert FkChange(t.name, s, t, opts, e, k);
    ForeignKeyEntry(t.name, s, t, opts, e);
  }

  // ---- One table on both sides ----

  lemma TableTagsExactly(s: TableSnapshot, t: TableSnapshot, opts: Options, op: Op, obj: string)
    requires WfTable(s) && WfTable(t)
    ensures InTablePlan(s, t, opts, op, obj) <==> TableCalls(s, t, opts, op, obj)
  {
    hide DiffTable, DiffColumns, DiffIndexes, DiffForeignKeys, TableCalls, Lower, WfColumns, WfIndexes, WfForeignKeys, IsAutoIndex;
    forall e | e in DiffTable(Sqlite, s, t, opts) ensures TableCalls(s, t, opts, e.op, Lower(e.obj)) {
      InTable(s, t, opts, e);
      if e in DiffColumns(Sqlite, t.name, s, t, opts) {
        ColumnCalls(s, t, opts, e);
      } else if e in DiffIndexes(t.name, s, t, opts) {
        var i := IndexCalls(s, t, opts, e);
      } else {
        ForeignKeyCalls(s, t, opts, e);
      }
    }
    if TableCalls(s, t, opts, op, obj) {
      TableOps(s, t, opts, op, obj);
      var e: Entry;
      if Family(op) == 1 {
        e := ColumnCalled(s, t, opts, op, obj);
      } else if Family(op) == 2 {
        e := IndexObjCalled(s, t, opts, op, obj);
      } else {
        e := ForeignKeyCalled(s, t, opts, op, obj);
      }
      InTable(s, t, opts, e);
    }
  }

  // ---- The whole plan, by tag ----

  predicate MapCalls(sm: map<string, TableSnapshot>, tm: map<string, TableSnapshot>, opts: Options, tag: Tag) {
    var k := tag.table;
    match tag.op
    case DropTable => k in sm && k !in tm && tag.obj == ""
    case CreateTable => k in tm && k !in sm && tag.obj == ""
    case _ => k in sm && k in tm && TableCalls(sm[k], tm[k], opts, tag.op, tag.obj)
  }

  /** What the plan has to say under a tag. */
  predicate Calls(source: Snapshot, target: Snapshot, opts: Options, tag: Tag) {
    MapCalls(TableMap(source), TableMap(target), opts, tag)
  }

  ghost predicate WfTables(m: map<string, TableSnapshot>) { forall k :: k in m ==> WfTable(m[k]) && Lower(m[k].name) == k }

  lemma TablesAreWf(s: Snapshot)
    requires WfSnapshot(s)
    ensures WfTables(TableMap(s))
  {
    hide TableMap, WfSnapshot, WfTable, Lower;
    forall k | k in TableMap(s) ensures WfTable(TableMap(s)[k]) && Lower(TableMap(s)[k].name) == k {
      TablesWf(s, k);
    }
  }

  lemma PlanFrom(source: Snapshot, target: Snapshot, opts: Options, e: Entry)
    requires WfSnapshot(source) && WfSnapshot(target)
    ensures e in PlanOf(source, target, opts) <==> FromPlan(Sqlite, TableMap(source), TableMap(target), opts, e)
  {
    hide FromPlan, TableMap, Diff;
    PlanIs(source, target, opts);
    PlanEntries(source, target, opts, e);
  }

  lemma MapEntryCalls(sm: map<string, TableSnapshot>, tm: map<string, TableSnapshot>, opts: Options, e: Entry)
    requires WfTables(sm) && WfTables(tm) && FromPlan(Sqlite, sm, tm, opts, e)
    ensures MapCalls(sm, tm, opts, TagOf(e))
  {
    hide DiffTable, TableCalls, WfTable, Lower;
    LowerNothing();
    var k := Lower(e.table);
    if k in sm && k in tm {
      TableTagsExactly(sm[k], tm[k], opts, e.op, Lower(e.obj));
      TableOps(sm[k], tm[k], opts, e.op, Lower(e.obj));
    }
  }

  lemma EntryCalls(source: Snapshot, target: Snapshot, opts: Options, e: Entry)
    requires WfSnapshot(source) && WfSnapshot(target) && e in PlanOf(source, target, opts)
    ensures Calls(source, target, opts, TagOf(e))
  {
    hide TableMap, WfSnapshot, WfTables, MapCalls, FromPlan, PlanOf, TagOf;
    PlanFrom(source, target, opts, e);
    TablesAreWf(source);
    TablesAreWf(target);
    MapEntryCalls(TableMap(source), TableMap(target), opts, e);
  }

  lemma LowerNothing()
    ensures Lower("") == ""
  {
  }

  lemma TableOps(s: TableSnapshot, t: TableSnapshot, opts: Options, op: Op, obj: string)
    ensures TableCalls(s, t, opts, op, obj) ==> Family(op) in {1, 2, 3}
  {
  }

  lemma MapCalledEntry(sm: map<string, TableSnapshot>, tm: map<string, TableSnapshot>, opts: Options, tag: Tag) returns (e: Entry)
    requires WfTables(sm) && WfTables(tm) && MapCalls(sm, tm, opts, tag)
    ensures FromPlan(Sqlite, sm, tm, opts, e) && TagOf(e) == tag
  {
    hide DiffTable, TableCalls, WfTable, Lower;
    LowerNothing();
    var k := tag.table;
    match tag.op
    case DropTable => e := Mk(DropTable, sm[k].name, "", opts);
    case CreateTable => e := Mk(CreateTable, tm[k].name, "", opts);
    case _ =>
      TableTagsExactly(sm[k], tm[k], opts, tag.op, tag.obj);
      e :| e in DiffTable(Sqlite, sm[k], tm[k], opts) && e.op == tag.op && Lower(e.obj) == tag.obj;
      TableEntries(Sqlite, sm[k], tm[k], opts);
      assert OfTable(tm[k].name)(e);
  }

  lemma CalledEntry(source: Snapshot, target: Snapshot, opts: Options, tag: Tag) returns (e: Entry)
    requires WfSnapshot(source) && WfSnapshot(target) && Calls(source, target, opts, tag)
    ensures e in PlanOf(source, target, opts) && TagOf(e) == tag
  {
    hide TableMap, WfSnapshot, WfTables, MapCalls, FromPlan, PlanOf, TagOf;
    TablesAreWf(source);
    TablesAreWf(target);
    e := MapCalledEntry(TableMap(source), TableMap(target), opts, tag);
    PlanFrom(source, target, opts, e);
  }

  /** A table key holds no slash: an id has one reading. */
  lemma CallsFree(source: Snapshot, target: Snapshot, opts: Options, tag: Tag)
    requires WfSnapshot(source) && WfSnapshot(target) && Calls(source, target, opts, tag)
    ensures Free(tag.table, '/')
  {
    hide TableMap, TableCalls, WfSnapshot;
    assert tag.table in TableMap(source) || tag.table in TableMap(target);
    if tag.table in TableMap(source) {
      KeyFree(source, tag.table);
    } else {
      KeyFree(target, tag.table);
    }
  }

  // ---- By id ----

  predicate Named(id: string, k: string, obj: string, op: string) { id == k + "/" + obj + "/" + op }

  ghost predicate TableLost(have: Snapshot, lack: Snapshot, id: string, op: string) {
    exists k :: k in TableMap(have) && k !in TableMap(lack) && Named(id, k, "", op)
  }

  predicate Shared(a: Snapshot, b: Snapshot, k: string) { k in TableMap(a) && k in TableMap(b) }

  ghost predicate ColumnLost(have: Snapshot, lack: Snapshot, id: string, op: string) {
    exists k, c :: Shared(have, lack, k) && c in ColumnMap(TableMap(have)[k]) && c !in ColumnMap(TableMap(lack)[k]) && Named(id, k, c, op)
  }

  ghost predicate IndexLost(have: Snapshot, lack: Snapshot, id: string, op: string) {
    exists k, i :: Shared(have, lack, k) && i in TableMap(have)[k].indexes && !HasIndex(TableMap(lack)[k], i)
                   && Named(id, k, Lower(i.name), op)
  }

  ghost predicate ForeignKeyLost(have: Snapshot, lack: Snapshot, id: string, op: string) {
    exists k, f :: Shared(have, lack, k) && f in TableMap(have)[k].foreignKeys && !HasForeignKey(TableMap(lack)[k], f)
                   && Named(id, k, Lower(FkObject(f)), op)
  }

  /** The id is that of something the source has and the target lacks. */
  ghost predicate TakesAway(source: Snapshot, target: Snapshot, id: string) {
    || TableLost(source, target, id, "drop_table")
    || ColumnLost(source, target, id, "drop_column")
    || IndexLost(source, target, id, "drop_index")
    || ForeignKeyLost(source, target, id, "drop_foreign_key")
  }

  /** The id is that of something the target has and the source lacks. */
  ghost predicate BringsIn(source: Snapshot, target: Snapshot, id: string) {
    || TableLost(target, source, id, "create_table")
    || ColumnLost(target, source, id, "add_column")
    || IndexLost(target, source, id, "add_index")
    || ForeignKeyLost(target, source, id, "add_foreign_key")
  }

  /** The id is that of a column of both sides that differs. */
  ghost predicate Alters(source: Snapshot, target: Snapshot, opts: Options, id: string) {
    exists k, c :: Shared(source, target, k) && ColumnDiffers(TableMap(source)[k], TableMap(target)[k], opts, c)
                   && Named(id, k, c, "alter_column")
  }

  predicate Drops(op: Op) { op in {DropTable, DropColumn, DropIndex, DropForeignKey} }

  predicate Adds(op: Op) { op in {CreateTable, AddColumn, AddIndex, AddForeignKey} }

  /** A called tag's id says what the tag is about. */
  lemma TagSays(source: Snapshot, target: Snapshot, opts: Options, tag: Tag)
    requires Calls(source, target, opts, tag)
    ensures Drops(tag.op) ==> TakesAway(source, target, IdOf(tag))
    ensures Adds(tag.op) ==> BringsIn(source, target, IdOf(tag))
    ensures tag.op == AlterColumn ==> Alters(source, target, opts, IdOf(tag))
  {
    hide TableMap, ColumnMap, HasIndex, HasForeignKey, ColumnDiffers, Lower, FkObject;
    var id, k, obj := IdOf(tag), tag.table, tag.obj;
    assert Named(id, k, obj, OpName(tag.op));
  }

  lemma DropTagOf(source: Snapshot, target: Snapshot, opts: Options, id: string) returns (tag: Tag)
    requires TakesAway(source, target, id)
    ensures Calls(source, target, opts, tag) && Drops(tag.op) && IdOf(tag) == id
  {
    hide TableMap, ColumnMap, HasIndex, HasForeignKey, ColumnDiffers, Lower, FkObject;
    if TableLost(source, target, id, "drop_table") {
      var k :| k in TableMap(source) && k !in TableMap(target) && Named(id, k, "", "drop_table");
      tag := Tag(k, "", DropTable);
    } else if ColumnLost(source, target, id, "drop_column") {
      var k, c :| Shared(source, target, k) && c in ColumnMap(TableMap(source)[k]) && c !in ColumnMap(TableMap(target)[k]) && Named(id, k, c, "drop_column");
      tag := Tag(k, c, DropColumn);
    } else if IndexLost(source, target, id, "drop_index") {
      var k, i :| Shared(source, target, k) && i in TableMap(source)[k].indexes && !HasIndex(TableMap(target)[k], i) && Named(id, k, Lower(i.name), "drop_index");
      tag := Tag(k, Lower(i.name), DropIndex);
    } else {
      var k, f :| Shared(source, target, k) && f in TableMap(source)[k].foreignKeys && !HasForeignKey(TableMap(target)[k], f)
                  && Named(id, k, Lower(FkObject(f)), "drop_foreign_key");
      tag := Tag(k, Lower(FkObject(f)), DropForeignKey);
    }
  }

  lemma AddTagOf(source: Snapshot, target: Snapshot, opts: Options, id: string) returns (tag: Tag)
    requires BringsIn(source, target, id)
    ensures Calls(source, target, opts, tag) && Adds(tag.op) && IdOf(tag) == id
  {
    hide TableMap, ColumnMap, HasIndex, HasForeignKey, ColumnDiffers, Lower, FkObject;
    if TableLost(target, source, id, "create_table") {
      var k :| k in TableMap(target) && k !in TableMap(source) && Named(id, k, "", "create_table");
      tag := Tag(k, "", CreateTable);
    } else if ColumnLost(target, source, id, "add_column") {
      var k, c :| Shared(target, source, k) && c in ColumnMap(TableMap(target)[k]) && c !in ColumnMap(TableMap(source)[k]) && Named(id, k, c, "add_column");
      tag := Tag(k, c, AddColumn);
    } else if IndexLost(target, source, id, "add_index") {
      var k, i :| Shared(target, source, k) && i in TableMap(target)[k].indexes && !HasIndex(TableMap(source)[k], i) && Named(id, k, Lower(i.name), "add_index");
      tag := Tag(k, Lower(i.name), AddIndex);
    } else {
      var k, f :| Shared(target, source, k) && f in TableMap(target)[k].foreignKeys && !HasForeignKey(TableMap(source)[k], f)
                  && Named(id, k, Lower(FkObject(f)), "add_foreign_key");
      tag := Tag(k, Lower(FkObject(f)), AddForeignKey);
    }
  }

  lemma AlterTagOf(source: Snapshot, target: Snapshot, opts: Options, id: string) returns (tag: Tag)
    requires Alters(source, target, opts, id)
    ensures Calls(source, target, opts, tag) && tag.op == AlterColumn && IdOf(tag) == id
  {
    hide TableMap, ColumnMap, HasIndex, HasForeignKey, ColumnDiffers, Lower, FkObject;
    var k, c :| Shared(source, target, k) && ColumnDiffers(TableMap(source)[k], TableMap(target)[k], opts, c) && Named(id, k, c, "alter_column");
    tag := Tag(k, c, AlterColumn);
  }

  lemma CalledId(source: Snapshot, target: Snapshot, opts: Options, tag: Tag)
    requires WfSnapshot(source) && WfSnapshot(target) && Calls(source, target, opts, tag)
    ensures IdOf(tag) in Ids(PlanOf(source, target, opts))
  {
    hide *;
    var e := CalledEntry(source, target, opts, tag);
    IdIsTag(e);
    MapMember(Id, PlanOf(source, target, opts), Id(e));
    IdsIs(PlanOf(source, target, opts));
  }

  /** An id is in the plan exactly when one side has something the other lacks, or a shared column differs. */
  lemma PlanExactly(source: Snapshot, target: Snapshot, opts: Options, id: string)
    requires WfSnapshot(source) && WfSnapshot(target)
    ensures id in Ids(PlanOf(source, target, opts))
      <==> TakesAway(source, target, id) || BringsIn(source, target, id) || Alters(source, target, opts, id)
  {
    hide *;
    var plan := PlanOf(source, target, opts);
    if id in Ids(plan) {
      IdsIs(plan);
      MapMember(Id, plan, id);
      var e :| e in plan && Id(e) == id;
      EntryCalls(source, target, opts, e);
      IdIsTag(e);
      TagSays(source, target, opts, TagOf(e));
      EveryOp(TagOf(e).op);
    }
    if TakesAway(source, target, id) {
      var tag := DropTagOf(source, target, opts, id);
      CalledId(source, target, opts, tag);
    }
    if BringsIn(source, target, id) {
      var tag := AddTagOf(source, target, opts, id);
      CalledId(source, target, opts, tag);
    }
    if Alters(source, target, opts, id) {
      var tag := AlterTagOf(source, target, opts, id);
      CalledId(source, target, opts, tag);
    }
  }

  lemma EveryOp(op: Op)
    ensures Drops(op) || Adds(op) || op == AlterColumn
  {
  }

  /** An entry's id reads as a called tag in one way only. */
  lemma OneReading(source: Snapshot, target: Snapshot, opts: Options, e: Entry, tag: Tag)
    requires WfSnapshot(source) && WfSnapshot(target) && e in PlanOf(source, target, opts)
    requires Calls(source, target, opts, tag) && IdOf(tag) == Id(e)
    ensures TagOf(e) == tag
  {
    hide *;
    EntryCalls(source, target, opts, e);
    CallsFree(source, target, opts, TagOf(e));
    CallsFree(source, target, opts, tag);
    IdIsTag(e);
    IdInjective(TagOf(e), tag);
  }

  lemma EntryTicks(source: Snapshot, target: Snapshot, opts: Options, e: Entry)
    requires WfSnapshot(source) && WfSnapshot(target) && e in PlanOf(source, target, opts)
    ensures e.destructive <==> Drops(e.op)
    ensures e.selected <==> !e.destructive || opts.selectDestructive
  {
    hide PlanOf, TableMap, DiffTable, WfSnapshot, Lower;
    PlanFrom(source, target, opts, e);
    var k := Lower(e.table);
    if k in TableMap(source) && k in TableMap(target) {
      TableTicks(TableMap(source)[k], TableMap(target)[k], opts, e);
    }
  }

  predicate Ticked(opts: Options, e: Entry) {
    (e.destructive <==> Drops(e.op)) && (e.selected <==> !e.destructive || opts.selectDestructive)
  }

  lemma TableTicks(s: TableSnapshot, t: TableSnapshot, opts: Options, e: Entry)
    requires e in DiffTable(Sqlite, s, t, opts)
    ensures Ticked(opts, e)
  {
    hide DiffTable, DiffColumns, DiffSecondary, DiffForeignKeys, ColumnMap, SecondaryMap, FkMap, ColumnFlags, FirstPrimary, IndexSig, IndexObject, FkObject, Lower, SameForeignKey;
    InTable(s, t, opts, e);
    if e in DiffColumns(Sqlite, t.name, s, t, opts) {
      ColumnEntry(Sqlite, t.name, s, t, opts, e);
    } else if e in DiffSecondary(t.name, s, t, opts) {
      SecondaryEntry(t.name, s, t, opts, e);
    } else if e in DiffForeignKeys(t.name, s, t, opts) {
      ForeignKeyEntry(t.name, s, t, opts, e);
    }
  }

  /**
   * An entry is destructive exactly when it takes something of the source away, and
   * ticked exactly when it is not destructive or the caller asked for destructive entries.
   */
  lemma TicksExactly(source: Snapshot, target: Snapshot, opts: Options, e: Entry)
    requires WfSnapshot(source) && WfSnapshot(target) && e in PlanOf(source, target, opts)
    ensures e.destructive <==> TakesAway(source, target, Id(e))
    ensures e.selected <==> !TakesAway(source, target, Id(e)) || opts.selectDestructive
  {
    hide *;
    EntryTicks(source, target, opts, e);
    EntryCalls(source, target, opts, e);
    TagSays(source, target, opts, TagOf(e));
    IdIsTag(e);
    OpOfTag(e);
    if TakesAway(source, target, Id(e)) {
      var tag := DropTagOf(source, target, opts, Id(e));
      OneReading(source, target, opts, e, tag);
    }
  }

  lemma OpOfTag(e: Entry)
    ensures TagOf(e).op == e.op
  {
    hide Lower;
  }

  // ---- Names and flags ----

  /** Tables are spelled as the target has them, or as the source when the target has none; columns likewise. */
  ghost predicate Spelled(sm: map<string, TableSnapshot>, tm: map<string, TableSnapshot>, e: Entry) {
    var k, c := Lower(e.table), Lower(e.obj);
    && (k in tm ==> e.table == tm[k].name)
    && (k in sm && k !in tm ==> e.table == sm[k].name)
    && (e.op in {CreateTable, DropTable} ==> e.obj == "")
    && (e.op in {AddColumn, AlterColumn} ==> k in tm && c in ColumnMap(tm[k]) && e.obj == ColumnMap(tm[k])[c].name)
    && (e.op == DropColumn ==> k in sm && c in ColumnMap(sm[k]) && e.obj == ColumnMap(sm[k])[c].name)
  }

  /** The flags of an entry are those of an altered column: what differs, and nothing else. */
  ghost predicate Flagged(sm: map<string, TableSnapshot>, tm: map<string, TableSnapshot>, opts: Options, e: Entry) {
    var k, c := Lower(e.table), Lower(e.obj);
    if e.op != AlterColumn then e.flags == [] else
    k in sm && k in tm && c in ColumnMap(sm[k]) && c in ColumnMap(tm[k]) &&
    var a, b := ColumnMap(sm[k])[c], ColumnMap(tm[k])[c];
    && (TypeFlag in e.flags <==> NormalizeType(Sqlite, a.dataType) != NormalizeType(Sqlite, b.dataType))
    && (NullabilityFlag in e.flags <==> a.nullable != b.nullable)
    && (DefaultFlag in e.flags <==> !opts.ignoreDefaults && DefaultsDiffer(a, b))
    && AutoIncrementFlag !in e.flags
  }

  lemma ColumnReads(s: TableSnapshot, t: TableSnapshot, opts: Options, e: Entry)
    requires WfColumns(s) && WfColumns(t) && e in DiffColumns(Sqlite, t.name, s, t, opts) && Lower(s.name) == Lower(t.name)
    ensures Spelled(map[Lower(s.name) := s], map[Lower(t.name) := t], e) && Flagged(map[Lower(s.name) := s], map[Lower(t.name) := t], opts, e)
  {
    hide ColumnMap, Lower, NormalizeType, NormalizeDefault, WfColumns, DiffColumns, LiteralDefault;
    var c := Lower(e.obj);
    ColumnEntry(Sqlite, t.name, s, t, opts, e);
    if c in ColumnMap(s) && c in ColumnMap(t) {
      NoAutoIncrement(s, c);
      NoAutoIncrement(t, c);
      if e.op == AlterColumn {
        FlagsAre(Sqlite, ColumnMap(s)[c], ColumnMap(t)[c], opts);
      }
    }
  }

  /** For every kind of database the flags of an altered column say what differs, and nothing else. */
  lemma FlagsAre(kind: DatabaseKind, a: ColumnInfo, b: ColumnInfo, opts: Options)
    ensures var flags := ColumnFlags(kind, a, b, opts);
      && (TypeFlag in flags <==> NormalizeType(kind, a.dataType) != NormalizeType(kind, b.dataType))
      && (NullabilityFlag in flags <==> a.nullable != b.nullable)
      && (DefaultFlag in flags <==> !opts.ignoreDefaults && DefaultsDiffer(a, b))
      && (AutoIncrementFlag in flags <==> a.isAutoIncrement != b.isAutoIncrement)
  {
    hide NormalizeType, NormalizeDefault;
  }

  lemma OtherReads(s: TableSnapshot, t: TableSnapshot, opts: Options, e: Entry)
    requires e in DiffIndexes(t.name, s, t, opts) || e in DiffForeignKeys(t.name, s, t, opts)
    ensures Family(e.op) in {2, 3} && e.flags == []
  {
    hide DiffSecondary, DiffForeignKeys, SecondaryMap, FkMap, FirstPrimary, IndexSig, IndexObject, FkObject, Lower, SameForeignKey;
    if e in DiffSecondary(t.name, s, t, opts) {
      SecondaryEntry(t.name, s, t, opts, e);
    } else if e in DiffForeignKeys(t.name, s, t, opts) {
      ForeignKeyEntry(t.name, s, t, opts, e);
    }
  }

  lemma TableReads(sm: map<string, TableSnapshot>, tm: map<string, TableSnapshot>, opts: Options, e: Entry)
    requires WfTables(sm) && WfTables(tm) && FromPlan(Sqlite, sm, tm, opts, e)
    ensures Spelled(sm, tm, e) && Flagged(sm, tm, opts, e)
  {
    hide DiffTable, DiffColumns, DiffIndexes, DiffForeignKeys, Lower, WfColumns, WfIndexes, WfForeignKeys, IsAutoIndex, NameOk, ColumnMap, NormalizeType, NormalizeDefault;
    var k := Lower(e.table);
    if k in sm && k in tm {
      TableEntries(Sqlite, sm[k], tm[k], opts);
      assert OfTable(tm[k].name)(e);
      InTable(sm[k], tm[k], opts, e);
      if e in DiffColumns(Sqlite, tm[k].name, sm[k], tm[k], opts) {
        ColumnReads(sm[k], tm[k], opts, e);
      } else {
        OtherReads(sm[k], tm[k], opts, e);
      }
    }
  }

  /** Every entry is spelled as the snapshots spell it and flags exactly what differs. */
  lemma EntryReads(source: Snapshot, target: Snapshot, opts: Options, e: Entry)
    requires WfSnapshot(source) && WfSnapshot(target) && e in PlanOf(source, target, opts)
    ensures Spelled(TableMap(source), TableMap(target), e) && Flagged(TableMap(source), TableMap(target), opts, e)
  {
    hide *;
    PlanFrom(source, target, opts, e);
    TablesAreWf(source);
    TablesAreWf(target);
    TableReads(TableMap(source), TableMap(target), opts, e);
  }

  // ---- Order ----

  /** The ops in the order a plan runs them. */
  const RUN_ORDER := [DropForeignKey, DropIndex, DropColumn, DropTable, CreateTable, AddColumn, AlterColumn, AddIndex, AddForeignKey]

  lemma RunOrderPhases(a: nat, b: nat)
    requires a < b < |RUN_ORDER|
    ensures Phase(RUN_ORDER[a]) < Phase(RUN_ORDER[b])
  {
  }

  /** Along a plan the ops never step back in that order. */
  lemma OpsAscend(source: Snapshot, target: Snapshot, opts: Options, i: nat, j: nat, a: nat, b: nat)
    requires WfSnapshot(source) && WfSnapshot(target)
    requires i < j < |PlanOf(source, target, opts)| && a < |RUN_ORDER| && b < |RUN_ORDER|
    requires PlanOf(source, target, opts)[i].op == RUN_ORDER[a] && PlanOf(source, target, opts)[j].op == RUN_ORDER[b]
    ensures a <= b
  {
    PlanIs(source, target, opts);
    DiffIsWholePlan(source, target, opts);
    hide PlanOf, Diff, Phase, WfSnapshot, DistinctTags, FromPlan;
    if b < a {
      RunOrderPhases(b, a);
    }
  }

  predicate NulFree(e: Entry) { Free(Lower(e.table), '\0') && Free(Lower(e.obj), '\0') }

  /** Within one op, creates apart, entries come by table and then by object, each once. */
  lemma SameOpAscends(source: Snapshot, target: Snapshot, opts: Options, i: nat, j: nat)
    requires WfSnapshot(source) && WfSnapshot(target)
    requires i < j < |PlanOf(source, target, opts)|
    requires var a, b := PlanOf(source, target, opts)[i], PlanOf(source, target, opts)[j];
      a.op == b.op != CreateTable && NulFree(a) && NulFree(b)
    ensures var a, b := PlanOf(source, target, opts)[i], PlanOf(source, target, opts)[j];
      && Leq(Lower(a.table), Lower(b.table))
      && (Lower(a.table) == Lower(b.table) ==> Leq(Lower(a.obj), Lower(b.obj)) && Lower(a.obj) != Lower(b.obj))
  {
    var plan := PlanOf(source, target, opts);
    PlanIs(source, target, opts);
    DiffIsWholePlan(source, target, opts);
    hide PlanOf, Diff, WfSnapshot, FromPlan, PhasesAscend, Lower, Leq, Free, BeforeInPlan;
    PlanSorted(source, target, opts, i, j);
    SamePhaseOrder(plan[i], plan[j]);
    assert Map(TagOf, plan)[i] != Map(TagOf, plan)[j];
    if Lower(plan[i].table) == Lower(plan[j].table) {
      SameTableOrder(plan[i], plan[j]);
    }
  }

  lemma SameTableOrder(a: Entry, b: Entry)
    requires BeforeInPlan(a, b) && a.op == b.op && Lower(a.table) == Lower(b.table)
    requires Free(Lower(a.obj), '\0') && Free(Lower(b.obj), '\0')
    ensures Leq(Lower(a.obj), Lower(b.obj))
  {
    hide Leq, Lower, OpName, Free, Pad3;
    var p := Pad3(Phase(a.op)) + "\0" + Lower(a.table) + "\0";
    assert SortKey(a) == p + (Lower(a.obj) + "\0" + Id(a)) && SortKey(b) == p + (Lower(b.obj) + "\0" + Id(b));
    SameStart(p, Lower(a.obj) + "\0" + Id(a), Lower(b.obj) + "\0" + Id(b));
    LeqBeforeNul(Lower(a.obj), Lower(b.obj), Id(a), Id(b));
  }
}
