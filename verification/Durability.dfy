/** What is on disk and when: the flush invariant, transactions, ids over whole runs, clearAll. */
module Durability {
  import opened Values
  import opened Seqs
  import opened Tables
  import opened StoreSpec
  import opened Machines

  // ---- Dirty means a timer is pending; clean means nothing would be lost ----

  /** A rollback clears the dirty flag without saving; the next save makes up for it. */
  predicate StaleNext(stale: bool, m: Machine, e: Event) {
    e.Do? && !SavesLast(m, e.a) && (stale || (e.a.Rollback? && e.a.tx in m.open))
  }

  predicate Stale(m: Machine, es: seq<Event>) {
    es != [] && StaleNext(Stale(m, es[..|es| - 1]), Run(m, es[..|es| - 1]), es[|es| - 1])
  }

  ghost predicate Synced(m: Machine) {
    SameUpToOrder(Durable(m), Memory(m))
  }

  lemma {:induction false} HandleSynced(m: Machine, body: Data -> Effects)
    requires Inv(m) && (!m.s.dirty ==> Synced(m))
    requires !Finish(m, Handle(body)).s.dirty
    ensures Synced(Finish(m, Handle(body)))
  {
    ActionFacts(m, Handle(body));
    HandleFacts(m, body);
    if !SavesLast(m, Handle(body)) {
      ReadyFacts(m);
      MutateAllFacts(Ready(m).s, body(Memory(m)).ops);
    }
  }

  lemma {:induction false} FinishSynced(m: Machine, a: Action)
    requires Inv(m) && (!m.s.dirty ==> Synced(m))
    requires a.Rollback? ==> a.tx !in m.open
    ensures !Finish(m, a).s.dirty ==> Synced(Finish(m, a))
  {
    ActionFacts(m, a);
    ReadyFacts(m);
    if a.Handle? && !Finish(m, a).s.dirty { HandleSynced(m, a.body); }
  }

  /** In every run: a dirty store has exactly one flush timer pending, and a clean store agrees with its
      file up to row order unless a rollback has happened since the last save. */
  lemma {:induction false} FlushInvariant(m: Machine, es: seq<Event>)
    requires Inv(m) && m.s.cache.None?
    ensures
      var r := Run(m, es);
      && (r.s.dirty ==> r.s.handle.Some? && r.s.pending == {r.s.handle.value})
      && (!r.s.dirty && !Stale(m, es) ==> Synced(r))
      && (r.s.pending == {} && !Stale(m, es) ==> Synced(r))
  {
    RunInv(m, es);
    if es != [] {
      var init, e := es[..|es| - 1], es[|es| - 1];
      var before := Run(m, init);
      FlushInvariant(m, init);
      RunInv(m, init);
      ActionFacts(before, e.a);
      if e.CrashIn? {
        CrashFacts(before, e.a, e.k);
      } else if !SavesLast(before, e.a) && !Stale(m, es) {
        FinishSynced(before, e.a);
      }
    }
  }

  // ---- Transactions ----

  predicate Ends(e: Event, tx: nat) {
    e.CrashIn? || (e.a.Commit? && e.a.tx == tx) || (e.a.Rollback? && e.a.tx == tx)
  }

  lemma {:induction false} SnapshotStays(m: Machine, tx: nat, body: seq<Event>)
    requires Inv(m) && tx in m.open
    requires forall i :: 0 <= i < |body| ==> !Ends(body[i], tx)
    ensures tx in Run(m, body).open && Run(m, body).open[tx] == m.open[tx]
  {
    if body != [] {
      var init, e := body[..|body| - 1], body[|body| - 1];
      SnapshotStays(m, tx, init);
      RunInv(m, init);
      assert !Ends(e, tx);
      ReadyFacts(Run(m, init));
      if e.a.Handle? { HandleFacts(Run(m, init), e.a.body); }
    }
  }

  /** Whether the event replaces the data file. */
  predicate Saves(m: Machine, e: Event) {
    SavesLast(m, e.a) && (e.CrashIn? ==> e.k >= Steps(e.a))
  }

  /** The memory that the last saving event of a run leaves, or what was on disk if none saves. */
  function LastSaved(m: Machine, es: seq<Event>): Data {
    if es == [] then Durable(m)
    else
      var before, e := Run(m, es[..|es| - 1]), es[|es| - 1];
      if Saves(before, e) then Memory(Finish(before, e.a)) else LastSaved(m, es[..|es| - 1])
  }

  lemma {:induction false} DurableIsLastSaved(m: Machine, es: seq<Event>)
    requires Inv(m)
    ensures Durable(Run(m, es)) == LastSaved(m, es)
  {
    if es != [] {
      var init, e := es[..|es| - 1], es[|es| - 1];
      DurableIsLastSaved(m, init);
      RunInv(m, init);
      ActionFacts(Run(m, init), e.a);
      if e.CrashIn? { CrashFacts(Run(m, init), e.a, e.k); }
    }
  }

  predicate NothingSaved(m: Machine, es: seq<Event>) {
    es == [] || (NothingSaved(m, es[..|es| - 1]) && !Saves(Run(m, es[..|es| - 1]), es[|es| - 1]))
  }

  lemma {:induction false} NothingSavedKeeps(m: Machine, es: seq<Event>)
    requires NothingSaved(m, es)
    ensures LastSaved(m, es) == Durable(m)
  {
    if es != [] { NothingSavedKeeps(m, es[..|es| - 1]); }
  }

  /** A failed transaction restores every table and every id counter to the value at its start, whatever ran
      inside it. On disk stays what the last save inside it wrote; with no save, what was there before. */
  lemma {:induction false} RollbackRestores(m: Machine, tx: nat, body: seq<Event>)
    requires Inv(m) && tx !in m.open
    requires forall i :: 0 <= i < |body| ==> !Ends(body[i], tx)
    ensures
      var start := Finish(m, Begin(tx));
      var after := Finish(Run(start, body), Rollback(tx));
      && after.s.cache == Some(Memory(m)) && !after.s.dirty
      && Durable(after) == LastSaved(start, body)
      && (NothingSaved(start, body) ==> Durable(after) == Durable(m))
  {
    var start := Finish(m, Begin(tx));
    ReadyFacts(m);
    ActionFacts(m, Begin(tx));
    SnapshotStays(start, tx, body);
    DurableIsLastSaved(start, body);
    if NothingSaved(start, body) { NothingSavedKeeps(start, body); }
  }

  /** A successful transaction leaves no flush pending, and the disk equal to the memory if anything was
      unsaved. */
  lemma {:induction false} CommitSaves(m: Machine, tx: nat)
    requires Inv(m) && tx in m.open
    ensures
      var after := Finish(m, Commit(tx));
      && !after.s.dirty && after.s.pending == {} && Memory(after) == Memory(m)
      && Durable(after) == if m.s.dirty then Memory(m) else Durable(m)
  {
    ActionFacts(m, Commit(tx));
  }

  /** Events that give the store no reason to save: timers, other commits, reads that sort in place. */
  ghost predicate ReadOnly(e: Event) {
    e.Do? && (e.a.Timer? || e.a.Commit? || e.a.Begin?
              || (e.a.Handle? && forall d, i :: 0 <= i < |e.a.body(d).ops| ==> e.a.body(d).ops[i].SortInPlace?))
  }

  lemma {:induction false} SortsStayClean(s: Store, ops: seq<Mutation>)
    requires s.cache.Some? && TimersOk(s) && !s.dirty
    requires forall i :: 0 <= i < |ops| ==> ops[i].SortInPlace?
    ensures !MutateAll(s, ops).dirty
  {
    if ops != [] {
      SortsStayClean(s, ops[..|ops| - 1]);
      MutateAllFacts(s, ops[..|ops| - 1]);
      MutateFacts(MutateAll(s, ops[..|ops| - 1]), ops[|ops| - 1]);
    }
  }

  lemma {:induction false} ReadOnlyKeepsFile(m: Machine, es: seq<Event>)
    requires Inv(m) && m.s.cache.Some? && !m.s.dirty
    requires forall i :: 0 <= i < |es| ==> ReadOnly(es[i])
    ensures var r := Run(m, es); r.s.file == m.s.file && !r.s.dirty && r.s.cache.Some?
    ensures SameUpToOrder(Memory(m), Memory(Run(m, es)))
  {
    if es != [] {
      var init, e := es[..|es| - 1], es[|es| - 1];
      var before := Run(m, init);
      ReadOnlyKeepsFile(m, init);
      RunInv(m, init);
      assert ReadOnly(e);
      ReadyFacts(before);
      if e.a.Handle? {
        var ops := e.a.body(Memory(before)).ops;
        SortsStayClean(before.s, ops);
        MutateAllFacts(before.s, ops);
        HandleFacts(before, e.a.body);
      }
    }
  }

  /** Rollback and durability. After a rolled-back transaction, whatever ran inside it, and however many
      timers, commits and reads follow, disk and memory agree exactly when what the last save inside it
      wrote, or else what was on disk before it, agrees with the memory at its start. So unsaved changes from
      before it stay off the disk until something else is written, and what a timer, a flush or another
      commit saved inside it stays on the disk. */
  lemma {:induction false} RollbackDurableIff(m: Machine, tx: nat, body: seq<Event>, later: seq<Event>)
    requires Inv(m) && tx !in m.open
    requires forall i :: 0 <= i < |body| ==> !Ends(body[i], tx)
    requires forall i :: 0 <= i < |later| ==> ReadOnly(later[i])
    ensures
      var start := Finish(m, Begin(tx));
      var after := Finish(Run(start, body), Rollback(tx));
      Synced(Run(after, later)) <==> SameUpToOrder(LastSaved(start, body), Memory(m))
  {
    var start := Finish(m, Begin(tx));
    var inside := Run(start, body);
    var after := Finish(inside, Rollback(tx));
    RollbackRestores(m, tx, body);
    ActionFacts(m, Begin(tx));
    RunInv(start, body);
    ActionFacts(inside, Rollback(tx));
    ReadOnlyKeepsFile(after, later);
  }

  function InsertBody(t: Table, row: Row, now: string): Body {
    d => Effects([Insert(t, row, now)], false)
  }

  lemma {:induction false} UnsavedStaysOff(m: Machine, tx: nat, later: seq<Event>)
    requires Inv(m) && tx !in m.open && !Synced(m)
    requires forall i :: 0 <= i < |later| ==> ReadOnly(later[i])
    ensures !Synced(Run(Finish(Finish(m, Begin(tx)), Rollback(tx)), later))
  {
    var start := Finish(m, Begin(tx));
    RollbackDurableIff(m, tx, [], later);
    ActionFacts(m, Begin(tx));
    assert Run(start, []) == start && LastSaved(start, []) == Durable(m);
  }

  /** A server started without a file, one insert, and a transaction that fails before the timer: the insert stays
      off the disk, whatever timers and reads follow. */
  lemma {:induction false} UnsavedInsertStaysOff(t: Table, row: Row, now: string, tx: nat, later: seq<Event>)
    requires forall i :: 0 <= i < |later| ==> ReadOnly(later[i])
    ensures
      var m := Finish(Machine(Boot(Absent), None, false, map[]), Handle(InsertBody(t, row, now)));
      !Synced(Run(Finish(Finish(m, Begin(tx)), Rollback(tx)), later))
  {
    var m0 := Machine(Boot(Absent), None, false, map[]);
    BootInv(Absent, None);
    OneInsertUnsaved(m0, t, row, now);
    CountersApart(Finish(m0, Handle(InsertBody(t, row, now))), t);
    UnsavedStaysOff(Finish(m0, Handle(InsertBody(t, row, now))), tx, later);
  }

  lemma {:induction false} CountersApart(m: Machine, t: Table)
    requires Durable(m) == EMPTY_DATA && Memory(m).nextIds == EMPTY_DATA.nextIds[t := 2]
    ensures !Synced(m)
  {
    assert t in Memory(m).nextIds && t !in EMPTY_DATA.nextIds;
  }

  lemma {:induction false} OneInsertUnsaved(m0: Machine, t: Table, row: Row, now: string)
    requires m0 == Machine(Boot(Absent), None, false, map[]) && Inv(m0)
    ensures
      var m := Finish(m0, Handle(InsertBody(t, row, now)));
      Inv(m) && m.open == map[] && Durable(m) == EMPTY_DATA && Memory(m).nextIds == EMPTY_DATA.nextIds[t := 2]
  {
    var op := Insert(t, row, now);
    HandleFacts(m0, InsertBody(t, row, now));
    ActionFacts(m0, Handle(InsertBody(t, row, now)));
    ApplyOne(EMPTY_DATA, op);
    EmptyComplete();
    assert !SavesLast(m0, Handle(InsertBody(t, row, now)));
    assert Memory(m0) == EMPTY_DATA;
  }

  /** A timer that fires inside a transaction writes the uncommitted state, and the rollback leaves it there
      unless something saves in between. */
  lemma {:induction false} TimerInsideTransaction(m: Machine, tx: nat, body: seq<Event>, id: nat, rest: seq<Event>)
    requires Inv(m) && tx !in m.open
    requires forall i :: 0 <= i < |body| ==> !Ends(body[i], tx)
    requires forall i :: 0 <= i < |rest| ==> !Ends(rest[i], tx)
    requires
      var inside := Run(Finish(m, Begin(tx)), body);
      inside.s.dirty && id in inside.s.pending && NothingSaved(Finish(inside, Timer(id)), rest)
    ensures
      var inside := Run(Finish(m, Begin(tx)), body);
      var after := Finish(Run(Finish(inside, Timer(id)), rest), Rollback(tx));
      Memory(after) == Memory(m) && Durable(after) == Memory(inside)
  {
    var start := Finish(m, Begin(tx));
    var inside := Run(start, body);
    var fired := Finish(inside, Timer(id));
    ReadyFacts(m);
    ActionFacts(m, Begin(tx));
    SnapshotStays(start, tx, body);
    RunInv(start, body);
    ActionFacts(inside, Timer(id));
    SnapshotStays(fired, tx, rest);
    DurableIsLastSaved(fired, rest);
    NothingSavedKeeps(fired, rest);
  }

  // ---- Ids over whole runs ----

  ghost predicate SafeHandler(a: Action) {
    a.Handle? ==> forall d, i :: 0 <= i < |a.body(d).ops| ==> IdSafe(a.body(d).ops[i])
  }

  lemma {:induction false} EmptyOk()
    ensures DataOk(EMPTY_DATA)
  {
    EmptyComplete();
  }

  /** Distinct positive ids below the counter, in every table, in memory, on disk and in every snapshot,
      after every run of handlers that do not overwrite ids, with timers, transactions and crashes. */
  lemma {:induction false} IdsOverRuns(m: Machine, es: seq<Event>)
    requires Inv(m) && Everywhere(d => DataOk(d), m)
    requires forall i :: 0 <= i < |es| ==> SafeHandler(es[i].a)
    requires (Unaliased(m) && WholeFile(m.s.file)) || forall i :: 0 <= i < |es| ==> !es[i].a.ClearAll?
    ensures Everywhere(d => DataOk(d), Run(m, es))
  {
    var P := d => DataOk(d);
    EmptyOk();
    forall i | 0 <= i < |es| ensures Keeps(P, es[i].a) {
      var a := es[i].a;
      assert SafeHandler(a);
      if a.Handle? {
        forall d | Complete(d) && P(d) ensures P(ApplyAll(d, a.body(d).ops)) {
          ApplyKeepsIds(d, a.body(d).ops);
        }
      }
    }
    assert Everywhere(P, m);
    InvariantOverRuns(P, m, es);
  }

  // ---- clearAll and the shared default tables ----

  predicate NoMeta(f: File) {
    f.Image? && f.nextIds.None?
  }

  /** What is shared with DEFAULT_DATA is equal on both sides. Tables are shared only while `_meta` is. */
  predicate SharedAlike(s: Store) {
    && s.cache.Some?
    && (if s.metaAliased then s.defaults.nextIds == s.cache.value.nextIds else s.aliased == {})
    && forall t :: t in s.aliased ==> Rows(s.defaults, t) == Rows(s.cache.value, t)
  }

  /** DEFAULT_DATA in a process that was started on `f`. */
  ghost predicate DefaultsHeld(s: Store, f: File) {
    && (s.cache.None? ==> s == Boot(f))
    && (if NoMeta(f) then DataOk(s.defaults) && (s.cache.Some? ==> SharedAlike(s))
        else s.defaults.nextIds == map[] && !s.metaAliased)
    && (f.Image? ==> forall t :: t in f.tables ==> Rows(s.defaults, t) == [] && t !in s.aliased)
  }

  lemma {:induction false} BootHeld(f: File)
    ensures DefaultsHeld(Boot(f), f)
  {
    EmptyOk();
  }

  lemma {:induction false} LoadHeld(s: Store, f: File)
    requires DefaultsHeld(s, f)
    ensures DefaultsHeld(Load(s), f)
  {
  }

  lemma {:induction false} IdsOkLater(rows: seq<Row>, next: int, later: int)
    requires IdsOk(rows, next) && next <= later
    ensures IdsOk(rows, later)
  {
    forall i | 0 <= i < |rows| ensures ValidId(rows[i], later) { assert ValidId(rows[i], next); }
  }

  lemma {:induction false} MutateShares(s: Store, m: Mutation)
    requires s.cache.Some?
    ensures
      var s' := Mutate(s, m);
      && s'.cache == Some(ApplyData(s.cache.value, m)) && s'.metaAliased == s.metaAliased
      && s'.aliased == (if m.RemoveWhere? then s.aliased - {m.t} else s.aliased)
      && s'.defaults.nextIds == (if s.metaAliased then NewIds(s.cache.value, m) else s.defaults.nextIds)
  {
  }

  lemma {:induction false} MutateDefaultTables(s: Store, m: Mutation)
    requires s.cache.Some?
    ensures
      var s' := Mutate(s, m);
      s'.defaults.tables
      == if m.t in s.aliased && !m.RemoveWhere? then s.defaults.tables[m.t := NewRows(s.cache.value, m)]
         else s.defaults.tables
  {
  }

  /** What an operation does to DEFAULT_DATA. */
  lemma {:induction false} MutateDefaults(s: Store, m: Mutation, u: Table)
    requires s.cache.Some?
    ensures
      var s' := Mutate(s, m);
      && s'.cache == Some(ApplyData(s.cache.value, m)) && s'.metaAliased == s.metaAliased
      && s'.aliased == (if m.RemoveWhere? then s.aliased - {m.t} else s.aliased)
      && s'.defaults.nextIds == (if s.metaAliased then NewIds(s.cache.value, m) else s.defaults.nextIds)
      && Rows(s'.defaults, u)
         == (if u == m.t && u in s.aliased && !m.RemoveWhere? then NewRows(s.cache.value, m) else Rows(s.defaults, u))
      && (Complete(s.defaults) ==> Complete(s'.defaults))
  {
    MutateShares(s, m);
    MutateDefaultTables(s, m);
  }

  lemma {:induction false} CounterMoves(d: Data, e: Data, m: Mutation, u: Table)
    requires e.nextIds == NewIds(d, m) && Counter(d, u) >= 1
    ensures Counter(e, u) == if u == m.t && (m.Insert? || m.Bump?) then Counter(d, u) + 1 else Counter(d, u)
  {
  }

  lemma {:induction false} MutateTableHeld(s: Store, m: Mutation, u: Table)
    requires s.cache.Some? && SharedAlike(s) && IdsOk(Rows(s.defaults, u), Counter(s.defaults, u)) && IdSafe(m)
    ensures IdsOk(Rows(Mutate(s, m).defaults, u), Counter(Mutate(s, m).defaults, u))
  {
    var d, e := s.cache.value, Mutate(s, m).defaults;
    MutateDefaults(s, m, u);
    if s.metaAliased {
      CounterMoves(d, e, m, u);
      if u == m.t && u in s.aliased {
        MutationKeepsTableIds(d, m);
        IdsOkLater(NewRows(d, m), if m.Insert? then Counter(d, u) + 1 else Counter(d, u), Counter(e, u));
      }
      IdsOkLater(Rows(s.defaults, u), Counter(s.defaults, u), Counter(e, u));
    }
  }

  lemma {:induction false} MutateAlike(s: Store, m: Mutation)
    requires s.cache.Some? && SharedAlike(s)
    ensures SharedAlike(Mutate(s, m))
  {
    var s' := Mutate(s, m);
    MutateDefaults(s, m, m.t);
    forall t | t in s'.aliased ensures Rows(s'.defaults, t) == Rows(s'.cache.value, t) {
      MutateDefaults(s, m, t);
      ApplyRows(s.cache.value, m, t);
    }
  }

  lemma {:induction false} MutateHeld(s: Store, m: Mutation, f: File)
    requires DefaultsHeld(s, f) && s.cache.Some? && IdSafe(m) && Complete(s.defaults)
    ensures DefaultsHeld(Mutate(s, m), f) && Complete(Mutate(s, m).defaults)
  {
    forall u: Table ensures Rows(Mutate(s, m).defaults, u) == Rows(s.defaults, u) || u in s.aliased {
      MutateDefaults(s, m, u);
    }
    MutateDefaults(s, m, m.t);
    if NoMeta(f) {
      MutateAlike(s, m);
      forall u: Table ensures IdsOk(Rows(Mutate(s, m).defaults, u), Counter(Mutate(s, m).defaults, u)) {
        assert IdsOk(Rows(s.defaults, u), Counter(s.defaults, u));
        MutateTableHeld(s, m, u);
      }
    }
  }

  lemma {:induction false} MutateAllHeld(s: Store, ops: seq<Mutation>, f: File)
    requires DefaultsHeld(s, f) && s.cache.Some? && Complete(s.defaults)
    requires forall i :: 0 <= i < |ops| ==> IdSafe(ops[i])
    ensures DefaultsHeld(MutateAll(s, ops), f) && Complete(MutateAll(s, ops).defaults)
  {
    if ops != [] {
      MutateAllHeld(s, ops[..|ops| - 1], f);
      MutateHeld(MutateAll(s, ops[..|ops| - 1]), ops[|ops| - 1], f);
    }
  }

  lemma {:induction false} HandleHeld(m: Machine, body: Data -> Effects, f: File)
    requires Inv(m) && DefaultsHeld(m.s, f) && SafeHandler(Handle(body))
    ensures DefaultsHeld(Finish(m, Handle(body)).s, f)
  {
    ReadyFacts(m);
    HandleFacts(m, body);
    LoadHeld(m.s, f);
    MutateAllHeld(Load(m.s), body(Memory(m)).ops, f);
  }

  lemma {:induction false} ActionHeld(m: Machine, a: Action, f: File)
    requires Inv(m) && DefaultsHeld(m.s, f) && SafeHandler(a)
    ensures DefaultsHeld(Finish(m, a).s, f)
  {
    if a.Handle? {
      HandleHeld(m, a.body, f);
    } else {
      ActionFacts(m, a);
      ReadyFacts(m);
      LoadHeld(m.s, f);
    }
  }

  lemma {:induction false} RunHeld(f: File, es: seq<Event>)
    requires forall i :: 0 <= i < |es| ==> es[i].Do? && SafeHandler(es[i].a)
    ensures DefaultsHeld(Run(Machine(Boot(f), None, false, map[]), es).s, f)
  {
    var m := Machine(Boot(f), None, false, map[]);
    BootInv(f, None);
    if es == [] {
      BootHeld(f);
    } else {
      RunHeld(f, es[..|es| - 1]);
      RunInv(m, es[..|es| - 1]);
      ActionHeld(Run(m, es[..|es| - 1]), es[|es| - 1].a, f);
    }
  }

  /** clearAll resets the counters but copies the default tables as they stand. In a process started on any
      file, after any run of handlers that leave ids alone, timers, transactions and earlier clears, it leaves
      right ids exactly when the file had no `_meta`, so that the counters are shared too, or every default
      table that the file lacked is still empty. */
  lemma {:induction false} ClearAllIdsIff(f: File, es: seq<Event>)
    requires forall i :: 0 <= i < |es| ==> es[i].Do? && SafeHandler(es[i].a)
    ensures
      var m := Run(Machine(Boot(f), None, false, map[]), es);
      DataOk(Memory(Finish(m, ClearAll)))
      <==> NoMeta(f) || forall t: Table :: (f.Image? ==> t !in f.tables) ==> Rows(m.s.defaults, t) == []
  {
    var m := Run(Machine(Boot(f), None, false, map[]), es);
    BootInv(f, None);
    RunInv(Machine(Boot(f), None, false, map[]), es);
    RunHeld(f, es);
    if DataOk(m.s.defaults) && !NoMeta(f) {
      forall t: Table ensures Rows(m.s.defaults, t) == [] {
        assert IdsOk(Rows(m.s.defaults, t), 1);
        assert Rows(m.s.defaults, t) != [] ==> ValidId(Rows(m.s.defaults, t)[0], 1);
      }
    }
  }

  lemma {:induction false} InsertIntoShared(s: Store, t: Table, row: Row, now: string)
    requires s.cache.Some? && t in s.aliased && !s.metaAliased
    ensures
      var s' := Mutate(s, Insert(t, row, now));
      && Rows(s'.defaults, t) == Rows(s.cache.value, t) + [NewRow(row, Counter(s.cache.value, t), now)]
      && s'.defaults.nextIds == s.defaults.nextIds
      && s'.cache.Some? && !s'.file.Absent? == !s.file.Absent?
  {
  }

  /** A data file written before a table existed, for example one without `orders`: an insert into that
      table, clearAll, and one more insert. The first row is still there, and the second gets id 1 although
      the first may have it. */
  lemma {:induction false} ClearAllReusesIds(ids: map<Table, int>, tables: map<Table, seq<Row>>, t: Table, row: Row,
                                             now: string)
    requires t !in tables
    ensures
      var s1 := Mutate(Load(Boot(Image(Some(ids), tables))), Insert(t, row, now));
      var s2 := Save(Cleared(s1));
      var s3 := Mutate(Load(s2), Insert(t, row, now));
      Rows(s3.cache.value, t) == [NewRow(row, Counter(Data(ids, tables), t), now), NewRow(row, 1, now)]
  {
    EveryTable(t);
    var s0 := Load(Boot(Image(Some(ids), tables)));
    assert t in s0.aliased && Rows(s0.cache.value, t) == []
           && Counter(s0.cache.value, t) == Counter(Data(ids, tables), t);
    InsertIntoShared(s0, t, row, now);
    var s1 := Mutate(s0, Insert(t, row, now));
    var first := NewRow(row, Counter(s0.cache.value, t), now);
    Whole([first]);
    SecondInsert(Save(Cleared(s1)), t, row, now, first);
  }

  lemma {:induction false} SecondInsert(s: Store, t: Table, row: Row, now: string, first: Row)
    requires s.cache.Some? && s.cache.value.nextIds == map[] && Rows(s.cache.value, t) == [first]
    ensures Rows(Mutate(Load(s), Insert(t, row, now)).cache.value, t) == [first, NewRow(row, 1, now)]
  {
    InsertStep(s.cache.value, t, row, now, t, ApplyData(s.cache.value, Insert(t, row, now)));
  }
}
