/// Every interleaving of the completion cache's users (go/internal/tui/app_schema.go:57-200):
/// warm-ups that query a connection between locked sections, connection swaps and lookups.
module CompletionRuns {
  import opened Text
  import opened CompletionCache

  /** What a connection once answered to a query made outside the lock. */
  datatype Answer = Listed(be: Conn, catalog: Catalog) | Described(be: Conn, table: string, cols: seq<string>, meta: seq<Column>)

  /** Where a warm-up stands between its locked sections. */
  datatype Stage =
    | Listing
    | Committing(catalog: Catalog)
    | Next
    | Fetching(table: string)
    | Storing(table: string, cols: seq<string>, meta: seq<Column>)

  /** asked and epoch are only remembered: the tables it was called with, and which binding it was part of. */
  datatype Warmer = Warmer(be: Conn, stage: Stage, todo: seq<string>, asked: seq<string>, epoch: nat)

  datatype System = System(cache: Cache, be: Option<Conn>, frame: Option<Frame>, warmers: seq<Warmer>, answers: set<Answer>, epoch: nat)

  datatype Event =
    | Swap(be: Option<Conn>)
    | Show(frame: Option<Frame>)
    | Ask
    | Start(conn: Conn, tables: seq<string>)
    | ListAnswer(i: nat, catalog: Catalog)
    | CommitList(i: nat)
    | Probe(i: nat)
    | ColumnAnswer(i: nat, cols: seq<string>, meta: seq<Column>)
    | CommitColumns(i: nat)

  const START := System(EMPTY, None, None, [], {}, 0)

  /** A warm-up that read `conn` binds the cache to it, even if another one is current by now. */
  function Started(s: System, conn: Conn, tables: seq<string>): System {
    var c := Rebound(s.cache, conn);
    var e := if s.cache.backend == Some(conn) then s.epoch else s.epoch + 1;
    s.(cache := c, epoch := e, warmers := s.warmers + [Warmer(conn, if c.listed then Next else Listing, tables, tables, e)])
  }

  function Move(s: System, i: nat, w: Warmer): System
    requires i < |s.warmers|
  {
    s.(warmers := s.warmers[i := w])
  }

  function WarmerStep(s: System, e: Event, i: nat): System
    requires i < |s.warmers|
  {
    var w := s.warmers[i];
    match (e, w.stage)
    case (ListAnswer(_, catalog), Listing) =>
      Move(s, i, w.(stage := Committing(catalog))).(answers := s.answers + {Listed(w.be, catalog)})
    case (CommitList(_), Committing(catalog)) =>
      Move(s, i, w.(stage := Next)).(cache := WithList(s.cache, w.be, NamesOf(catalog)))
    case (Probe(_), Next) =>
      if w.todo == [] then s
      else if Probed(s.cache, w.be, w.todo[0]).None? then Move(s, i, w.(todo := w.todo[1..]))
      else Move(s, i, w.(stage := Fetching(w.todo[0]), todo := w.todo[1..]))
    case (ColumnAnswer(_, cols, meta), Fetching(t)) =>
      Move(s, i, w.(stage := Storing(t, cols, meta))).(answers := s.answers + {Described(w.be, t, cols, meta)})
    case (CommitColumns(_), Storing(t, cols, meta)) =>
      Move(s, i, w.(stage := Next)).(cache := WithColumns(s.cache, w.be, t, cols, meta))
    case _ => s
  }

  function Step(s: System, e: Event): System {
    match e
    case Swap(be) => s.(be := be)
    case Show(frame) => s.(frame := frame)
    case Ask => s.(cache := Completed(s.cache, s.be, s.frame).0)
    case Start(conn, tables) => Started(s, conn, tables)
    case _ => if e.i < |s.warmers| then WarmerStep(s, e, e.i) else s
  }

  function Run(s: System, events: seq<Event>): System {
    if events == [] then s else Step(Run(s, events[..|events| - 1]), events[|events| - 1])
  }

  // ---- What every step keeps ----

  ghost predicate ListedBy(answers: set<Answer>, be: Conn, t: string, n: string) {
    exists c: Catalog :: Listed(be, c) in answers && t in NamesOf(c) && NamesOf(c)[t] == n
  }

  /** What is listed is one whole listing, or nothing yet. */
  ghost predicate OneListing(c: Cache, be: Conn, answers: set<Answer>) {
    if c.listed then exists catalog: Catalog :: Listed(be, catalog) in answers && c.ns == NamesOf(catalog) else c.ns == map[]
  }

  /** Everything the cache holds was answered by the connection it is bound to. */
  ghost predicate Honest(c: Cache, answers: set<Answer>) {
    && c.fetched == c.meta.Keys && c.ns.Keys <= c.cols.Keys
    && (forall t :: t in c.meta ==> t in c.cols)
    && (forall t :: t in c.cols && t !in c.meta ==> c.cols[t] == [] && t in c.ns)
    && match c.backend
       case None => c.ns == map[] && c.meta == map[]
       case Some(be) =>
         && OneListing(c, be, answers)
         && (forall t :: t in c.ns ==> ListedBy(answers, be, t, c.ns[t]))
         && (forall t :: t in c.meta ==> Described(be, t, c.cols[t], c.meta[t]) in answers)
  }

  /** A warm-up carries only what its own connection answered. */
  ghost predicate Carries(w: Warmer, answers: set<Answer>) {
    && (w.stage.Committing? ==> Listed(w.be, w.stage.catalog) in answers)
    && (w.stage.Storing? ==> Described(w.be, w.stage.table, w.stage.cols, w.stage.meta) in answers)
  }

  predicate Pending(w: Warmer, t: string) {
    t in w.todo || (w.stage.Fetching? && w.stage.table == t) || (w.stage.Storing? && w.stage.table == t)
  }

  /** While its binding lasts, a warm-up past the listing has left every table it dealt with fetched or unknown. */
  ghost predicate Advances(w: Warmer, c: Cache, epoch: nat) {
    && w.epoch <= epoch
    && (w.epoch == epoch ==>
          && c.backend == Some(w.be)
          && (w.stage.Listing? || w.stage.Committing? ||
              (c.listed && forall t :: t in w.asked && !Pending(w, t) && t in c.ns ==> t in c.fetched))
          && (w.stage.Listing? || w.stage.Committing? ==> forall t :: t in w.asked ==> t in w.todo))
  }

  ghost predicate Inv(s: System) {
    && Honest(s.cache, s.answers) && MemoRight(s.cache)
    && (forall w :: w in s.warmers ==> Carries(w, s.answers) && Advances(w, s.cache, s.epoch))
  }

  lemma StepKeeps(s: System, e: Event)
    requires Inv(s)
    ensures Inv(Step(s, e))
  {
    match e
    case Swap(_) =>
    case Show(_) =>
    case Ask =>
    case Start(conn, tables) =>
    case _ =>
      if e.i < |s.warmers| {
        WarmerKeeps(s, e, e.i);
      }
  }

  lemma MoreAnswers(c: Cache, answers: set<Answer>, more: set<Answer>)
    requires Honest(c, answers) && answers <= more
    ensures Honest(c, more)
  {
    if c.backend.Some? {
      forall t | t in c.ns ensures ListedBy(more, c.backend.value, t, c.ns[t]) {
        assert ListedBy(answers, c.backend.value, t, c.ns[t]);
      }
    }
  }

  lemma ListMemo(c: Cache, be: Conn, names: map<string, string>)
    requires MemoRight(c)
    ensures MemoRight(WithList(c, be, names))
  {
  }

  lemma ListingIs(c: Cache, be: Conn, names: map<string, string>)
    requires c.backend == Some(be) && !c.listed && c.ns == map[]
    ensures var d := WithList(c, be, names);
      && d.backend == c.backend && d.listed && d.fetched == c.fetched && d.meta == c.meta && d.ns == names
      && names.Keys <= d.cols.Keys
      && (forall t :: t in d.cols <==> t in c.cols || t in names)
      && (forall t :: t in d.cols ==> d.cols[t] == if t in c.cols then c.cols[t] else [])
  {
  }

  lemma ListKeeps(c: Cache, answers: set<Answer>, be: Conn, catalog: Catalog)
    requires Honest(c, answers) && MemoRight(c) && Listed(be, catalog) in answers
    ensures var d := WithList(c, be, NamesOf(catalog)); Honest(d, answers) && MemoRight(d)
  {
    hide NamesOf, MemoRight, WithList;
    ListMemo(c, be, NamesOf(catalog));
    if c.backend == Some(be) && !c.listed {
      ListingIs(c, be, NamesOf(catalog));
      ListedNames(answers, be, catalog);
    } else {
      ListedAlready(c, be, NamesOf(catalog));
    }
  }

  lemma ListedNames(answers: set<Answer>, be: Conn, catalog: Catalog)
    requires Listed(be, catalog) in answers
    ensures forall t :: t in NamesOf(catalog) ==> ListedBy(answers, be, t, NamesOf(catalog)[t])
  {
    hide NamesOf;
  }

  lemma ListedAlready(c: Cache, be: Conn, names: map<string, string>)
    requires c.backend != Some(be) || c.listed
    ensures WithList(c, be, names) == c
  {
  }

  lemma ColumnsKeep(c: Cache, answers: set<Answer>, be: Conn, t: string, cols: seq<string>, meta: seq<Column>)
    requires Honest(c, answers) && MemoRight(c) && Described(be, t, cols, meta) in answers
    ensures var d := WithColumns(c, be, t, cols, meta); Honest(d, answers) && MemoRight(d)
  {
    var d := WithColumns(c, be, t, cols, meta);
    if c.backend == Some(be) {
      forall u | u in d.ns ensures ListedBy(answers, be, u, d.ns[u]) {
        assert ListedBy(answers, be, u, c.ns[u]);
      }
    }
  }

  /** How the cache may change under a warm-up's feet while its binding lasts. */
  ghost predicate Grows(c: Cache, d: Cache) {
    && c.backend == d.backend && c.fetched <= d.fetched && (c.listed ==> d.listed && d.ns == c.ns)
  }

  lemma GrowsAdvances(w: Warmer, c: Cache, d: Cache, epoch: nat)
    requires Advances(w, c, epoch) && Grows(c, d)
    ensures Advances(w, d, epoch)
  {
  }

  lemma OthersKeep(s: System, i: nat, v: Warmer, c: Cache, answers: set<Answer>)
    requires Inv(s) && i < |s.warmers| && Grows(s.cache, c) && s.answers <= answers
    requires Honest(c, answers) && MemoRight(c) && Carries(v, answers) && Advances(v, c, s.epoch)
    ensures Inv(Move(s, i, v).(cache := c, answers := answers))
  {
    var r := Move(s, i, v).(cache := c, answers := answers);
    forall k | 0 <= k < |r.warmers| ensures Carries(r.warmers[k], answers) && Advances(r.warmers[k], c, s.epoch) {
      if k != i {
        assert s.warmers[k] in s.warmers;
        GrowsAdvances(s.warmers[k], s.cache, c, s.epoch);
      }
    }
  }

  lemma WarmerKeeps(s: System, e: Event, i: nat)
    requires Inv(s) && i < |s.warmers|
    ensures Inv(WarmerStep(s, e, i))
  {
    hide Honest, MemoRight, WithList, WithColumns, Probed, NamesOf;
    var w := s.warmers[i];
    assert w in s.warmers;
    match (e, w.stage)
    case (ListAnswer(_, catalog), Listing) =>
      var answers := s.answers + {Listed(w.be, catalog)};
      MoreAnswers(s.cache, s.answers, answers);
      OthersKeep(s, i, w.(stage := Committing(catalog)), s.cache, answers);
    case (CommitList(_), Committing(catalog)) =>
      var c := WithList(s.cache, w.be, NamesOf(catalog));
      ListKeeps(s.cache, s.answers, w.be, catalog);
      ListAdvances(w, s.cache, s.epoch, NamesOf(catalog));
      OthersKeep(s, i, w.(stage := Next), c, s.answers);
    case (Probe(_), Next) =>
      if w.todo != [] {
        ProbeAdvances(w, s.cache, s.epoch);
        var v := if Probed(s.cache, w.be, w.todo[0]).None? then w.(todo := w.todo[1..])
                 else w.(stage := Fetching(w.todo[0]), todo := w.todo[1..]);
        OthersKeep(s, i, v, s.cache, s.answers);
      }
    case (ColumnAnswer(_, cols, meta), Fetching(t)) =>
      var answers := s.answers + {Described(w.be, t, cols, meta)};
      MoreAnswers(s.cache, s.answers, answers);
      OthersKeep(s, i, w.(stage := Storing(t, cols, meta)), s.cache, answers);
    case (CommitColumns(_), Storing(t, cols, meta)) =>
      var c := WithColumns(s.cache, w.be, t, cols, meta);
      ColumnsKeep(s.cache, s.answers, w.be, t, cols, meta);
      ColumnsAdvance(w, s.cache, s.epoch);
      OthersKeep(s, i, w.(stage := Next), c, s.answers);
    case _ =>
  }

  lemma ListAdvances(w: Warmer, c: Cache, epoch: nat, names: map<string, string>)
    requires Advances(w, c, epoch) && w.stage.Committing?
    ensures var d := WithList(c, w.be, names); Grows(c, d) && Advances(w.(stage := Next), d, epoch)
  {
  }

  lemma ProbeAdvances(w: Warmer, c: Cache, epoch: nat)
    requires Advances(w, c, epoch) && w.stage.Next? && w.todo != []
    ensures Probed(c, w.be, w.todo[0]).None? ==> Advances(w.(todo := w.todo[1..]), c, epoch)
    ensures Probed(c, w.be, w.todo[0]).Some? ==> Advances(w.(stage := Fetching(w.todo[0]), todo := w.todo[1..]), c, epoch)
  {
    assert forall t :: t in w.todo ==> t == w.todo[0] || t in w.todo[1..];
  }

  lemma ColumnsAdvance(w: Warmer, c: Cache, epoch: nat)
    requires Advances(w, c, epoch) && w.stage.Storing?
    ensures var d := WithColumns(c, w.be, w.stage.table, w.stage.cols, w.stage.meta);
      Grows(c, d) && Advances(w.(stage := Next), d, epoch)
  {
  }

  lemma {:induction false} RunKeeps(events: seq<Event>)
    ensures Inv(Run(START, events))
  {
    if events != [] {
      RunKeeps(events[..|events| - 1]);
      StepKeeps(Run(START, events[..|events| - 1]), events[|events| - 1]);
    }
  }

  // ---- What that means for its users ----

  /** At any moment of any run, a lookup gives the rebuild's answer, and only tables its own connection answered for. */
  lemma LookupIsRebuild(events: seq<Event>)
    ensures var s := Run(START, events);
      var schema := Completed(s.cache, s.be, s.frame).1;
      && schema == Assemble(s.cache, s.be, s.frame)
      && (forall t :: t in schema.tables ==>
            && s.be.Some?
            && ((exists m: seq<Column> :: Described(s.be.value, t, schema.tables[t], m) in s.answers)
                || (schema.tables[t] == [] && exists n: string :: ListedBy(s.answers, s.be.value, t, n))))
  {
    RunKeeps(events);
    var s := Run(START, events);
    CompletedIsRebuild(s.cache, s.be, s.frame);
    var schema := Assemble(s.cache, s.be, s.frame);
    forall t | t in schema.tables && t !in s.cache.meta ensures ListedBy(s.answers, s.be.value, t, s.cache.ns[t]) {
    }
  }

  /**
   * What a lookup's answer holds at any moment of any run: the frame's columns, the engine in use, and of a cache bound
   * to the connection in use every table listed or fetched, the fetched ones with columns the connection answered,
   * the others with none yet; once listed, that is every table of one catalog of the connection.
   */
  lemma LookupHoldsAll(events: seq<Event>)
    ensures var s := Run(START, events);
      var schema, bound := Completed(s.cache, s.be, s.frame).1, s.be.Some? && s.cache.backend == s.be;
      && schema.current == (if s.frame.Some? then s.frame.value.columns else [])
      && schema.engine == (if s.be.Some? then s.be.value.kind else "")
      && (forall t :: t in schema.tables <==> bound && (t in s.cache.ns || t in s.cache.fetched))
      && (forall t :: t in schema.tables && t !in s.cache.fetched ==> schema.tables[t] == [])
      && (bound ==> forall t :: t in s.cache.fetched ==>
            exists m: seq<Column> :: Described(s.be.value, t, schema.tables[t], m) in s.answers)
      && (bound && s.cache.listed ==> exists c: Catalog ::
            Listed(s.be.value, c) in s.answers && forall t :: t in NamesOf(c) ==> t in schema.tables)
  {
    RunKeeps(events);
    var s := Run(START, events);
    CompletedIsRebuild(s.cache, s.be, s.frame);
    var schema := Assemble(s.cache, s.be, s.frame);
    hide NamesOf, Run, MemoRight;
    if s.be.Some? && s.cache.backend == s.be {
      forall t | t in s.cache.fetched ensures exists m: seq<Column> :: Described(s.be.value, t, schema.tables[t], m) in s.answers {
        assert Described(s.be.value, t, schema.tables[t], s.cache.meta[t]) in s.answers;
      }
    }
  }

  /** Metadata shown for a table was answered, with its columns, by the connection in use. */
  lemma MetaIsItsOwn(events: seq<Event>, t: string)
    ensures var s := Run(START, events);
      s.be.Some? && s.cache.backend == s.be && t in s.cache.meta ==>
        t in s.cache.cols && Described(s.be.value, t, s.cache.cols[t], s.cache.meta[t]) in s.answers
  {
    RunKeeps(events);
  }

  /** A finished warm-up whose binding still stands has left the listing done and each table it was asked for fetched or unlisted. */
  lemma WarmUpWarms(events: seq<Event>, w: Warmer)
    ensures var s := Run(START, events);
      w in s.warmers && w.stage.Next? && w.todo == [] && w.epoch == s.epoch ==>
        && s.cache.backend == Some(w.be) && s.cache.listed
        && forall t :: t in w.asked ==> t in s.cache.fetched || t !in s.cache.ns
  {
    RunKeeps(events);
  }
}
