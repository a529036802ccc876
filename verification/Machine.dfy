/** The store as a running system: request handlers, flush timers, transactions and crashes.
    A save is two steps, writing the tmp file and renaming it, and a crash may come between any two. */
module Machines {
  import opened Values
  import opened Seqs
  import opened StoreSpec

  /** `tmp` is the tmp file on disk; `saving` holds between its writing and the rename;
      `open` holds the snapshots of the transactions that have begun and not ended. */
  datatype Machine = Machine(s: Store, tmp: Option<File>, saving: bool, open: map<nat, Data>)

  /** Everything that can happen between two turns of the event loop. A handler is a function of the
      data it finds, so this covers any synchronous code over the store. */
  datatype Action =
    | Handle(body: Data -> Effects)
    | Timer(id: nat)
    | ClearAll
    | Begin(tx: nat)
    | Commit(tx: nat)
    | Rollback(tx: nat)

  /** An action runs to its end, or the process dies after `k` of its steps. */
  datatype Event = Do(a: Action) | CrashIn(a: Action, k: nat)

  // ---- Steps ----

  function WriteTmp(m: Machine): Machine {
    if m.s.cache.None? then m else m.(tmp := Some(ImageOf(m.s.cache.value)), saving := true)
  }

  function Rename(m: Machine): Machine {
    if m.saving && m.tmp.Some?
    then m.(s := m.s.(file := m.tmp.value, dirty := false), tmp := None, saving := false)
    else m
  }

  function Fetch(m: Machine): Machine {
    var m' := m.(s := Fetched(m.s));
    if m.s.cache.None? && m.s.file.Absent? then WriteTmp(m') else m'
  }

  function Apply(m: Machine, body: Data -> Effects): Machine {
    if m.s.cache.None? then m
    else
      var e := body(m.s.cache.value);
      var s' := MutateAll(m.s, e.ops);
      if !e.flush then m.(s := s')
      else if s'.dirty then WriteTmp(m.(s := Cancel(s')))
      else m.(s := Cancel(s'))
  }

  function Fire(m: Machine, id: nat): Machine {
    if id !in m.s.pending then m
    else
      var m' := m.(s := m.s.(pending := m.s.pending - {id}));
      if m.s.dirty then WriteTmp(m') else m'
  }

  function Settle(m: Machine, tx: nat): Machine {
    if tx !in m.open then m
    else
      var m' := m.(s := Cancel(m.s), open := m.open - {tx});
      if m.s.dirty then WriteTmp(m') else m'
  }

  function Snap(m: Machine, tx: nat): Machine {
    if tx in m.open || m.s.cache.None? then m else m.(open := m.open[tx := m.s.cache.value])
  }

  function Restore(m: Machine, tx: nat): Machine {
    if tx !in m.open then m
    else m.(s := RolledBack(m.s, m.open[tx]), open := m.open - {tx})
  }

  function Ready(m: Machine): Machine {
    Rename(Fetch(m))
  }

  /** The machine after the first `k` steps of an action. */
  function Stage(m: Machine, a: Action, k: nat): Machine {
    if k == 0 then m else
    match a
    case Handle(body) =>
      if k == 1 then Fetch(m)
      else if k == 2 then Ready(m)
      else if k == 3 then Apply(Ready(m), body)
      else Rename(Apply(Ready(m), body))
    case Timer(id) => if k == 1 then Fire(m, id) else Rename(Fire(m, id))
    case ClearAll => if k == 1 then WriteTmp(m.(s := Cleared(m.s))) else Rename(WriteTmp(m.(s := Cleared(m.s))))
    case Begin(tx) => if k == 1 then Fetch(m) else if k == 2 then Ready(m) else Snap(Ready(m), tx)
    case Commit(tx) => if k == 1 then Settle(m, tx) else Rename(Settle(m, tx))
    case Rollback(tx) => Restore(m, tx)
  }

  function Steps(a: Action): nat {
    match a
    case Handle(_) => 4
    case Timer(_) => 2
    case ClearAll => 2
    case Begin(_) => 3
    case Commit(_) => 2
    case Rollback(_) => 1
  }

  /** Only the files survive. */
  function Die(m: Machine): Machine {
    Machine(Boot(m.s.file), m.tmp, false, map[])
  }

  function Finish(m: Machine, a: Action): Machine {
    Stage(m, a, Steps(a))
  }

  function Next(m: Machine, e: Event): Machine {
    match e
    case Do(a) => Finish(m, a)
    case CrashIn(a, k) => Die(Stage(m, a, k))
  }

  function Run(m: Machine, es: seq<Event>): Machine {
    if es == [] then m else Next(Run(m, es[..|es| - 1]), es[|es| - 1])
  }

  /** The data in memory, or what the next access will load. */
  function Memory(m: Machine): Data {
    if m.s.cache.Some? then m.s.cache.value else Recover(m.s.file)
  }

  /** What survives if the process dies now. */
  function Durable(m: Machine): Data {
    Recover(m.s.file)
  }

  // ---- The invariant of the engine ----

  predicate TimersOk(s: Store) {
    && (s.handle.Some? ==> s.handle.value < s.timers && s.pending <= {s.handle.value})
    && (s.handle.None? ==> s.pending == {})
    && (s.dirty ==> s.cache.Some? && s.handle.Some? && s.pending == {s.handle.value})
  }

  ghost predicate Inv(m: Machine) {
    && !m.saving
    && TimersOk(m.s)
    && Complete(m.s.defaults)
    && (m.s.cache.None? ==> m.s == Boot(m.s.file) && m.open == map[])
    && (m.s.cache.Some? ==> Complete(m.s.cache.value) && !m.s.file.Absent?)
    && (forall tx :: tx in m.open ==> Complete(m.open[tx]))
  }

  lemma {:induction false} BootInv(f: File, tmp: Option<File>)
    ensures Inv(Machine(Boot(f), tmp, false, map[]))
  {
    EmptyComplete();
  }

  lemma {:induction false} MarkTimers(s: Store)
    requires s.cache.Some? && TimersOk(s)
    ensures TimersOk(MarkDirty(s)) && MarkDirty(s).cache == s.cache
  {
  }

  lemma {:induction false} MutateTimers(s: Store, m: Mutation)
    requires s.cache.Some? && TimersOk(s)
    ensures TimersOk(Mutate(s, m))
  {
    var e := ApplyData(s.cache.value, m);
    var aliased, defaults := Mutate(s, m).aliased, Mutate(s, m).defaults;
    var u := s.(cache := Some(e), aliased := aliased, defaults := defaults);
    assert TimersOk(u);
    MarkTimers(u);
    MarkTimers(MarkDirty(u));
  }

  lemma {:induction false} MutateFacts(s: Store, m: Mutation)
    requires s.cache.Some? && TimersOk(s)
    ensures TimersOk(Mutate(s, m))
    ensures Mutate(s, m).cache == Some(ApplyData(s.cache.value, m)) && Mutate(s, m).file == s.file
    ensures Dirties(s.cache.value, m) ==> Mutate(s, m).dirty
    ensures !Dirties(s.cache.value, m) ==> Mutate(s, m).dirty == s.dirty
    ensures Complete(s.defaults) ==> Complete(Mutate(s, m).defaults)
  {
    MutateTimers(s, m);
  }

  lemma {:induction false} MutateAllFacts(s: Store, ops: seq<Mutation>)
    requires s.cache.Some? && TimersOk(s)
    ensures TimersOk(MutateAll(s, ops))
    ensures MutateAll(s, ops).cache == Some(ApplyAll(s.cache.value, ops)) && MutateAll(s, ops).file == s.file
    ensures Complete(s.defaults) ==> Complete(MutateAll(s, ops).defaults)
    ensures s.dirty ==> MutateAll(s, ops).dirty
    ensures !MutateAll(s, ops).dirty ==> SameUpToOrder(s.cache.value, ApplyAll(s.cache.value, ops))
  {
    if ops != [] {
      var t := MutateAll(s, ops[..|ops| - 1]);
      MutateAllFacts(s, ops[..|ops| - 1]);
      MutateFacts(t, ops[|ops| - 1]);
      if !Dirties(t.cache.value, ops[|ops| - 1]) {
        CleanKeepsContent(t.cache.value, ops[|ops| - 1]);
      }
    }
  }

  lemma {:induction false} LoadedComplete(f: File)
    ensures Complete(Recover(f))
  {
    EmptyComplete();
  }

  /** Loading leaves what survives a crash as it was, and puts just that in memory. */
  lemma {:induction false} ReadyFacts(m: Machine)
    requires Inv(m)
    ensures Inv(Ready(m)) && Ready(m).s == Load(m.s)
    ensures Ready(m).s.cache == Some(Memory(m))
    ensures Durable(Ready(m)) == Durable(m) == Durable(Fetch(m))
    ensures m.s.cache.Some? ==> Ready(m) == m
    ensures Ready(m).s.dirty == m.s.dirty && Ready(m).open == m.open
  {
    LoadedComplete(m.s.file);
    EmptyComplete();
    RecoverImage(EMPTY_DATA);
  }

  /** Whether the last step of the action is a rename that replaces the data file. */
  predicate SavesLast(m: Machine, a: Action) {
    match a
    case Handle(body) => Apply(Ready(m), body).saving
    case Timer(id) => Fire(m, id).saving
    case ClearAll => true
    case Begin(_) => false
    case Commit(tx) => Settle(m, tx).saving
    case Rollback(_) => false
  }

  /** The handler's own step, on a loaded machine. */
  lemma {:induction false} ApplyFacts(r: Machine, body: Data -> Effects)
    requires Inv(r) && r.s.cache.Some?
    ensures
      var d := r.s.cache.value;
      var r' := Apply(r, body);
      && r'.s.cache == Some(ApplyAll(d, body(d).ops)) && Complete(r'.s.cache.value)
      && r'.s.file == r.s.file && r'.open == r.open && Complete(r'.s.defaults)
      && TimersOk(Rename(r').s) && !Rename(r').saving
      && (r'.saving ==> r'.tmp == Some(ImageOf(r'.s.cache.value)))
      && (!r'.saving ==> TimersOk(r'.s))
      && Rename(r').s == Handled(r.s, body)
  {
    var e := body(r.s.cache.value);
    MutateAllFacts(r.s, e.ops);
    ApplyKeepsComplete(r.s.cache.value, e.ops);
  }

  lemma {:induction false} HandleFacts(m: Machine, body: Data -> Effects)
    requires Inv(m)
    ensures Inv(Finish(m, Handle(body)))
    ensures Finish(m, Handle(body)).s == Handled(m.s, body)
    ensures Memory(Finish(m, Handle(body))) == ApplyAll(Memory(m), body(Memory(m)).ops)
    ensures Finish(m, Handle(body)).s.cache.Some? && Finish(m, Handle(body)).open == m.open
    ensures SavesLast(m, Handle(body)) ==>
              && Finish(m, Handle(body)).s.file == ImageOf(Memory(Finish(m, Handle(body))))
              && !Finish(m, Handle(body)).s.dirty
    ensures !SavesLast(m, Handle(body)) ==> Finish(m, Handle(body)).s.file == Ready(m).s.file
    ensures forall k: nat :: k < 4 ==> Durable(Stage(m, Handle(body), k)) == Durable(m)
  {
    ReadyFacts(m);
    ApplyFacts(Ready(m), body);
    forall k: nat | k < 4 ensures Durable(Stage(m, Handle(body), k)) == Durable(m) {
      assert k == 0 || k == 1 || k == 2 || k == 3;
    }
  }

  /** Every action keeps the engine's invariant, and the data file changes only by the last step of a
      saving action, which makes it the image of the memory the action leaves. */
  lemma {:induction false} ActionFacts(m: Machine, a: Action)
    requires Inv(m)
    ensures Inv(Finish(m, a))
    ensures Finish(m, a).s.cache.None? ==> m.s.cache.None? && m.s == Finish(m, a).s
    ensures forall k: nat :: k < Steps(a) ==> Durable(Stage(m, a, k)) == Durable(m)
    ensures !SavesLast(m, a) ==> Durable(Finish(m, a)) == Durable(m)
    ensures SavesLast(m, a) ==>
              && Finish(m, a).s.cache.Some?
              && Finish(m, a).s.file == ImageOf(Memory(Finish(m, a)))
              && Durable(Finish(m, a)) == Memory(Finish(m, a))
              && !Finish(m, a).s.dirty
  {
    ReadyFacts(m);
    match a
    case Handle(body) =>
      HandleFacts(m, body);
      RecoverImage(Memory(Finish(m, a)));
    case Timer(id) =>
      if m.s.cache.Some? { RecoverImage(m.s.cache.value); }
    case ClearAll => RecoverImage(m.s.defaults);
    case Begin(tx) =>
      forall k: nat | k < 3 ensures Durable(Stage(m, a, k)) == Durable(m) {
        assert k == 0 || k == 1 || k == 2;
      }
    case Commit(tx) =>
      if m.s.cache.Some? { RecoverImage(m.s.cache.value); }
    case Rollback(tx) =>
  }

  /** Each action, run to its end, does to the module what the module's own function for it does. */
  lemma {:induction false} ActionsAreCalls(m: Machine, a: Action)
    requires Inv(m)
    ensures
      var s' := Finish(m, a).s;
      match a
      case Handle(body) => s' == Handled(m.s, body)
      case Timer(id) => s' == Fired(m.s, id)
      case ClearAll => s' == Save(Cleared(m.s))
      case Begin(_) => s' == Load(m.s)
      case Commit(tx) => s' == if tx in m.open then FlushNow(m.s) else m.s
      case Rollback(tx) => s' == if tx in m.open then RolledBack(m.s, m.open[tx]) else m.s
  {
    ReadyFacts(m);
    if a.Handle? { HandleFacts(m, a.body); }
  }

  lemma {:induction false} StageBeyond(m: Machine, a: Action, k: nat)
    ensures k >= Steps(a) ==> Stage(m, a, k) == Finish(m, a)
  {
  }

  lemma {:induction false} NextInv(m: Machine, e: Event)
    requires Inv(m)
    ensures Inv(Next(m, e))
  {
    ActionFacts(m, e.a);
    if e.CrashIn? { BootInv(Stage(m, e.a, e.k).s.file, Stage(m, e.a, e.k).tmp); }
  }

  lemma {:induction false} RunInv(m: Machine, es: seq<Event>)
    requires Inv(m)
    ensures Inv(Run(m, es))
  {
    if es != [] {
      RunInv(m, es[..|es| - 1]);
      NextInv(Run(m, es[..|es| - 1]), es[|es| - 1]);
    }
  }

  /** What a crash leaves on disk: what would have survived before the action, or all of the action. */
  lemma {:induction false} CrashFacts(m: Machine, a: Action, k: nat)
    requires Inv(m)
    ensures Memory(Next(m, CrashIn(a, k))) == Durable(Next(m, CrashIn(a, k)))
    ensures Durable(Next(m, CrashIn(a, k)))
            == if k >= Steps(a) && SavesLast(m, a) then Memory(Finish(m, a)) else Durable(m)
  {
    ActionFacts(m, a);
    StageBeyond(m, a, k);
  }

  // ---- Recovery loses a suffix of the history ----

  /** The memory states at action boundaries, oldest first, and which of them is on disk. */
  datatype Log = Log(states: seq<Data>, durable: nat)

  function LogNext(log: Log, m: Machine, e: Event): Log {
    match e
    case Do(a) =>
      Log(log.states + [Memory(Finish(m, a))], if SavesLast(m, a) then |log.states| else log.durable)
    case CrashIn(a, k) =>
      if k >= Steps(a) && SavesLast(m, a)
      then Log(log.states + [Memory(Finish(m, a))], |log.states|)
      else if log.durable < |log.states| then Log(log.states[..log.durable + 1], log.durable) else log
  }

  function LogOf(m: Machine, es: seq<Event>): Log {
    if es == [] then Log([Memory(m)], 0)
    else LogNext(LogOf(m, es[..|es| - 1]), Run(m, es[..|es| - 1]), es[|es| - 1])
  }

  ghost predicate Follows(log: Log, m: Machine) {
    && log.durable < |log.states|
    && log.states[|log.states| - 1] == Memory(m)
    && log.states[log.durable] == Durable(m)
  }

  lemma {:induction false} LogFollows(log: Log, m: Machine, e: Event)
    requires Inv(m) && Follows(log, m)
    ensures Follows(LogNext(log, m, e), Next(m, e))
  {
    ActionFacts(m, e.a);
    if e.CrashIn? { CrashFacts(m, e.a, e.k); }
  }

  /** In every run the data file holds one complete memory state taken at an action boundary. */
  lemma {:induction false} FileHoldsABoundaryState(m: Machine, es: seq<Event>)
    requires Inv(m) && m.s.cache.None?
    ensures Follows(LogOf(m, es), Run(m, es))
  {
    if es != [] {
      FileHoldsABoundaryState(m, es[..|es| - 1]);
      RunInv(m, es[..|es| - 1]);
      LogFollows(LogOf(m, es[..|es| - 1]), Run(m, es[..|es| - 1]), es[|es| - 1]);
    }
  }

  /** A crash at any step of any action, after any run: the restarted process loads the last state of
      the shortened log, which is a prefix of the log the action would have left and keeps everything
      up to the last save. */
  lemma {:induction false} RecoveryLosesASuffix(m: Machine, es: seq<Event>, a: Action, k: nat)
    requires Inv(m) && m.s.cache.None?
    ensures
      var before := LogOf(m, es);
      var after := LogOf(m, es + [CrashIn(a, k)]);
      var dead := Run(m, es + [CrashIn(a, k)]);
      && dead.s == Boot(dead.s.file) && after.states != []
      && Load(dead.s).cache == Some(after.states[|after.states| - 1])
      && after.states <= before.states + [Memory(Finish(Run(m, es), a))]
      && before.durable < |after.states|
  {
    var es' := es + [CrashIn(a, k)];
    assert es'[..|es'| - 1] == es;
    FileHoldsABoundaryState(m, es);
    FileHoldsABoundaryState(m, es');
    RunInv(m, es');
    ReadyFacts(Run(m, es'));
  }

  // ---- Invariants of the data hold in memory, on disk and after every recovery ----

  ghost predicate Everywhere(P: Data -> bool, m: Machine) {
    EverywhereSince(P, m, {})
  }

  /** The same without the snapshots of the transactions in `before`. */
  ghost predicate EverywhereSince(P: Data -> bool, m: Machine, before: set<nat>) {
    && P(Durable(m))
    && P(Memory(m))
    && (forall tx :: tx in m.open && tx !in before ==> P(m.open[tx]))
  }

  /** The handler keeps P. For clearAll, P holds of an empty store. */
  ghost predicate Keeps(P: Data -> bool, a: Action) {
    && (a.Handle? ==> forall d :: Complete(d) && P(d) ==> P(ApplyAll(d, a.body(d).ops)))
    && (a.ClearAll? ==> P(EMPTY_DATA))
  }

  predicate Unaliased(m: Machine) {
    && m.s.defaults == EMPTY_DATA && m.s.aliased == {} && !m.s.metaAliased
    && (m.s.cache.None? && m.s.file.Image? ==> m.s.file.nextIds.Some? && m.s.file.tables.Keys == ALL_TABLES)
  }

  lemma {:induction false} MutateAllUnaliased(s: Store, ops: seq<Mutation>)
    requires s.cache.Some? && s.defaults == EMPTY_DATA && s.aliased == {} && !s.metaAliased
    ensures MutateAll(s, ops).defaults == EMPTY_DATA && MutateAll(s, ops).aliased == {}
            && !MutateAll(s, ops).metaAliased
  {
    if ops != [] { MutateAllUnaliased(s, ops[..|ops| - 1]); }
  }

  /** A file with all tables. Every file the store itself writes is one. */
  predicate WholeFile(f: File) {
    f.Image? ==> f.nextIds.Some? && f.tables.Keys == ALL_TABLES
  }

  lemma {:induction false} CompleteKeys(d: Data)
    requires Complete(d)
    ensures d.tables.Keys == ALL_TABLES
  {
    forall t: Table ensures t in ALL_TABLES { EveryTable(t); }
  }

  lemma {:induction false} WholeFileStage(m: Machine, a: Action, k: nat)
    requires Inv(m) && WholeFile(m.s.file)
    ensures WholeFile(Stage(m, a, k).s.file)
  {
    ActionFacts(m, a);
    ReadyFacts(m);
    StageBeyond(m, a, k);
    if k >= Steps(a) && SavesLast(m, a) {
      CompleteKeys(Memory(Finish(m, a)));
    } else if a.Handle? {
      HandleFacts(m, a.body);
      assert k == 0 || k == 1 || k == 2 || k == 3 || k >= 4;
      assert k == 3 ==> Apply(Ready(m), a.body).s.file == Ready(m).s.file by {
        MutateAllFacts(Ready(m).s, a.body(Ready(m).s.cache.value).ops);
      }
    }
  }

  lemma {:induction false} ReadyUnaliased(m: Machine)
    requires Inv(m) && Unaliased(m)
    ensures Unaliased(Ready(m))
  {
    ReadyFacts(m);
    EmptyComplete();
    CompleteKeys(EMPTY_DATA);
  }

  lemma {:induction false} FinishUnaliased(m: Machine, a: Action)
    requires Inv(m) && Unaliased(m) && WholeFile(Finish(m, a).s.file)
    ensures Unaliased(Finish(m, a))
  {
    ReadyUnaliased(m);
    ReadyFacts(m);
    if a.Handle? {
      MutateAllUnaliased(Ready(m).s, a.body(Ready(m).s.cache.value).ops);
    }
  }

  lemma {:induction false} NextUnaliased(m: Machine, e: Event)
    requires Inv(m) && Unaliased(m) && WholeFile(m.s.file)
    ensures Unaliased(Next(m, e)) && WholeFile(Next(m, e).s.file)
  {
    match e
    case CrashIn(a, k) => WholeFileStage(m, a, k);
    case Do(a) =>
      WholeFileStage(m, a, Steps(a));
      FinishUnaliased(m, a);
  }

  /** The action keeps P when it starts from this machine. */
  predicate KeepsHere(P: Data -> bool, m: Machine, a: Action) {
    && (a.Handle? && P(Memory(m)) ==> P(ApplyAll(Memory(m), a.body(Memory(m)).ops)))
    && (a.ClearAll? ==> P(EMPTY_DATA) && Unaliased(m))
  }

  lemma {:induction false} FinishEverywhere(P: Data -> bool, m: Machine, a: Action, before: set<nat>)
    requires Inv(m) && EverywhereSince(P, m, before) && KeepsHere(P, m, a)
    requires a.Rollback? ==> a.tx !in before
    ensures EverywhereSince(P, Finish(m, a), before)
  {
    ActionFacts(m, a);
    ReadyFacts(m);
    if a.Handle? { HandleFacts(m, a.body); }
  }

  lemma {:induction false} NextEverywhere(P: Data -> bool, m: Machine, e: Event, before: set<nat>)
    requires Inv(m) && EverywhereSince(P, m, before) && KeepsHere(P, m, e.a)
    requires e.a.Rollback? ==> e.a.tx !in before
    ensures EverywhereSince(P, Next(m, e), before)
  {
    FinishEverywhere(P, m, e.a, before);
    if e.CrashIn? { CrashFacts(m, e.a, e.k); }
  }

  /** What each action keeps from where it starts holds after the run, of the memory, of the file and of
      every snapshot, whatever crashes. */
  lemma {:induction false} InvariantAlongRun(P: Data -> bool, m: Machine, es: seq<Event>)
    requires Inv(m) && Everywhere(P, m)
    requires forall i :: 0 <= i < |es| ==> KeepsHere(P, Run(m, es[..i]), es[i].a)
    ensures Everywhere(P, Run(m, es))
  {
    InvariantSince(P, m, es, {});
  }

  /** Snapshots taken before may be left out, if no transaction among them is rolled back. */
  lemma {:induction false} InvariantSince(P: Data -> bool, m: Machine, es: seq<Event>, before: set<nat>)
    requires Inv(m) && EverywhereSince(P, m, before)
    requires forall i :: 0 <= i < |es| ==> KeepsHere(P, Run(m, es[..i]), es[i].a)
    requires forall i :: 0 <= i < |es| ==> (es[i].a.Rollback? ==> es[i].a.tx !in before)
    ensures EverywhereSince(P, Run(m, es), before)
  {
    if es != [] {
      var init, e := es[..|es| - 1], es[|es| - 1];
      forall i | 0 <= i < |init| ensures KeepsHere(P, Run(m, init[..i]), init[i].a) {
        assert es[..i] == init[..i];
        assert KeepsHere(P, Run(m, es[..i]), es[i].a);
      }
      InvariantSince(P, m, init, before);
      RunInv(m, init);
      assert KeepsHere(P, Run(m, es[..|es| - 1]), es[|es| - 1].a);
      NextEverywhere(P, Run(m, init), e, before);
    }
  }

  lemma {:induction false} UnaliasedRun(m: Machine, es: seq<Event>)
    requires Inv(m) && Unaliased(m) && WholeFile(m.s.file)
    ensures Unaliased(Run(m, es)) && WholeFile(Run(m, es).s.file)
  {
    if es != [] {
      UnaliasedRun(m, es[..|es| - 1]);
      RunInv(m, es[..|es| - 1]);
      NextUnaliased(Run(m, es[..|es| - 1]), es[|es| - 1]);
    }
  }

  /** What every handler keeps, from any data, holds after every run. clearAll joins in when no table was
      shared with DEFAULT_DATA at load. */
  lemma {:induction false} InvariantOverRuns(P: Data -> bool, m: Machine, es: seq<Event>)
    requires Inv(m) && Everywhere(P, m)
    requires forall i :: 0 <= i < |es| ==> Keeps(P, es[i].a)
    requires (Unaliased(m) && WholeFile(m.s.file)) || forall i :: 0 <= i < |es| ==> !es[i].a.ClearAll?
    ensures Everywhere(P, Run(m, es))
  {
    if es != [] {
      var init, e := es[..|es| - 1], es[|es| - 1];
      InvariantOverRuns(P, m, init);
      RunInv(m, init);
      assert Keeps(P, e.a);
      if e.a.ClearAll? { UnaliasedRun(m, init); }
      LoadedComplete(Run(m, init).s.file);
      NextEverywhere(P, Run(m, init), e, {});
    }
  }

  // ---- Memory and disk are replays of a history of handlers ----

  type Body = Data -> Effects

  /** The data after a sequence of handlers, each run on what the ones before left. */
  function Replay(d: Data, bodies: seq<Body>): Data {
    if bodies == [] then d
    else
      var before := Replay(d, bodies[..|bodies| - 1]);
      ApplyAll(before, bodies[|bodies| - 1](before).ops)
  }

  /** The handlers whose changes are in memory, on disk, and in the snapshot of each open transaction. */
  datatype History = History(memory: seq<Body>, disk: seq<Body>, open: map<nat, seq<Body>>)

  function HistoryAfter(h: History, m: Machine, a: Action): History {
    var saves := SavesLast(m, a);
    match a
    case Handle(body) => h.(memory := h.memory + [body], disk := if saves then h.memory + [body] else h.disk)
    case Timer(_) => h.(disk := if saves then h.memory else h.disk)
    case ClearAll => h
    case Begin(tx) => if tx in m.open then h else h.(open := h.open[tx := h.memory])
    case Commit(tx) => h.(disk := if saves then h.memory else h.disk, open := h.open - {tx})
    case Rollback(tx) => if tx in h.open then h.(memory := h.open[tx], open := h.open - {tx}) else h
  }

  /** A crash keeps what is on disk. */
  function HistoryNext(h: History, m: Machine, e: Event): History {
    match e
    case Do(a) => HistoryAfter(h, m, a)
    case CrashIn(a, k) =>
      var kept := if k >= Steps(a) then HistoryAfter(h, m, a).disk else h.disk;
      History(kept, kept, map[])
  }

  function HistoryOf(m: Machine, es: seq<Event>): History {
    if es == [] then History([], [], map[])
    else HistoryNext(HistoryOf(m, es[..|es| - 1]), Run(m, es[..|es| - 1]), es[|es| - 1])
  }

  ghost predicate Replayed(d: Data, h: History, m: Machine) {
    && Memory(m) == Replay(d, h.memory) && Durable(m) == Replay(d, h.disk)
    && h.open.Keys == m.open.Keys && forall tx :: tx in m.open ==> m.open[tx] == Replay(d, h.open[tx])
  }

  lemma {:induction false} ReplayPush(d: Data, bodies: seq<Body>, body: Body)
    ensures Replay(d, bodies + [body]) == ApplyAll(Replay(d, bodies), body(Replay(d, bodies)).ops)
  {
    Pushed(bodies, body);
  }

  lemma {:induction false} HandleReplayed(d: Data, h: History, m: Machine, body: Body)
    requires Inv(m) && Replayed(d, h, m)
    ensures Replayed(d, HistoryAfter(h, m, Handle(body)), Finish(m, Handle(body)))
  {
    ActionFacts(m, Handle(body));
    HandleFacts(m, body);
    ReplayPush(d, h.memory, body);
  }

  lemma {:induction false} BeginReplayed(d: Data, h: History, m: Machine, tx: nat)
    requires Inv(m) && Replayed(d, h, m)
    ensures Replayed(d, HistoryAfter(h, m, Begin(tx)), Finish(m, Begin(tx)))
  {
    ReadyFacts(m);
  }

  lemma {:induction false} CommitReplayed(d: Data, h: History, m: Machine, tx: nat)
    requires Inv(m) && Replayed(d, h, m)
    ensures Replayed(d, HistoryAfter(h, m, Commit(tx)), Finish(m, Commit(tx)))
  {
    ActionFacts(m, Commit(tx));
  }

  lemma {:induction false} RollbackReplayed(d: Data, h: History, m: Machine, tx: nat)
    requires Inv(m) && Replayed(d, h, m)
    ensures Replayed(d, HistoryAfter(h, m, Rollback(tx)), Finish(m, Rollback(tx)))
  {
  }

  lemma {:induction false} ActionReplayed(d: Data, h: History, m: Machine, a: Action)
    requires Inv(m) && Replayed(d, h, m) && !a.ClearAll?
    ensures Replayed(d, HistoryAfter(h, m, a), Finish(m, a))
  {
    match a
    case Handle(body) => HandleReplayed(d, h, m, body);
    case Timer(id) => ActionFacts(m, a);
    case Begin(tx) => BeginReplayed(d, h, m, tx);
    case Commit(tx) => CommitReplayed(d, h, m, tx);
    case Rollback(tx) => RollbackReplayed(d, h, m, tx);
  }

  /** After every run without clearAll, from a start with no transaction open and nothing unsaved, memory, disk
      and every snapshot are replays of histories of handlers: what is proved of all sequences of handlers
      holds of each of them, whatever timers, transactions and crashes come between. */
  lemma {:induction false} RunsAreReplays(m: Machine, es: seq<Event>)
    requires Inv(m) && m.s.cache.None?
    requires forall i :: 0 <= i < |es| ==> !es[i].a.ClearAll?
    ensures Replayed(Memory(m), HistoryOf(m, es), Run(m, es))
  {
    if es != [] {
      var init, e := es[..|es| - 1], es[|es| - 1];
      RunsAreReplays(m, init);
      RunInv(m, init);
      ActionReplayed(Memory(m), HistoryOf(m, init), Run(m, init), e.a);
      ActionFacts(Run(m, init), e.a);
      if e.CrashIn? { CrashFacts(Run(m, init), e.a, e.k); }
    }
  }
}
