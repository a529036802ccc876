/** The state of `src/storage/file_store.ts` and what each exported operation does to it. */
module StoreSpec {
  import opened Values
  import opened Seqs
  import opened Tables

  datatype Table =
    | Properties | Categories | Users | UserIdentities | Orders | OrderItems | OrderChangeLogs
    | Products | ProductSkus | Reviews | WelfareCodes | WelfareCodeItems | Admins

  const ALL_TABLES: set<Table> :=
    {Properties, Categories, Users, UserIdentities, Orders, OrderItems, OrderChangeLogs,
     Products, ProductSkus, Reviews, WelfareCodes, WelfareCodeItems, Admins}

  /** The content of the store: the id counters of `_meta` and the tables. Timestamps are left out. */
  datatype Data = Data(nextIds: map<Table, int>, tables: map<Table, seq<Row>>)

  /** DEFAULT_DATA as the module defines it. */
  const EMPTY_DATA := Data(map[], map t | t in ALL_TABLES :: [])

  ghost predicate Complete(d: Data) {
    forall t: Table :: t in d.tables
  }

  lemma {:induction false} EveryTable(t: Table)
    ensures t in ALL_TABLES
  {
    match t
    case Properties => case Categories => case Users => case UserIdentities => case Orders =>
    case OrderItems => case OrderChangeLogs => case Products => case ProductSkus => case Reviews =>
    case WelfareCodes => case WelfareCodeItems => case Admins =>
  }

  lemma {:induction false} EmptyComplete()
    ensures Complete(EMPTY_DATA)
  {
    forall t: Table ensures t in EMPTY_DATA.tables { EveryTable(t); }
  }

  function Rows(d: Data, t: Table): seq<Row> {
    if t in d.tables then d.tables[t] else []
  }

  /** The id the next insert gives: `nextIds[table] || 1` */
  function Counter(d: Data, t: Table): int {
    if t in d.nextIds && d.nextIds[t] != 0 then d.nextIds[t] else 1
  }

  /** What a data file can be. A parsed file may lack `_meta` or some of the tables. */
  datatype File = Absent | Unreadable | Image(nextIds: Option<map<Table, int>>, tables: map<Table, seq<Row>>)

  function ImageOf(d: Data): File {
    Image(Some(d.nextIds), d.tables)
  }

  /** What loadData puts in memory, given the content of DEFAULT_DATA. */
  function LoadedFrom(f: File, defaults: Data): Data {
    match f
    case Absent => defaults
    case Unreadable => defaults
    case Image(ids, tables) =>
      Data(if ids.Some? then ids.value else defaults.nextIds, defaults.tables + tables)
  }

  /** What a new process would load: what survives if the process dies now. */
  function Recover(f: File): Data {
    LoadedFrom(f, EMPTY_DATA)
  }

  lemma {:induction false} RecoverImage(d: Data)
    requires Complete(d)
    ensures Recover(ImageOf(d)) == d
  {
    assert EMPTY_DATA.tables + d.tables == d.tables;
  }

  // ---- Changes to the data ----

  datatype Mutation =
    | Bump(t: Table)
    | Insert(t: Table, row: Row, now: string)
    | Update(t: Table, id: int, updates: Row, now: string)
    | UpdateWhere(t: Table, p: Row -> bool, updates: Row, now: string)
    | Remove(t: Table, id: int)
    | RemoveWhere(t: Table, p: Row -> bool)
    | SortInPlace(t: Table, leq: (Row, Row) -> bool)

  function NewRows(d: Data, m: Mutation): seq<Row> {
    var rows := Rows(d, m.t);
    match m
    case Bump(t) => rows
    case Insert(t, row, now) => rows + [NewRow(row, Counter(d, t), now)]
    case Update(t, id, updates, now) => UpdateRow(rows, id, updates, now)
    case UpdateWhere(t, p, updates, now) => UpdateRows(rows, p, updates, now)
    case Remove(t, id) => RemoveRow(rows, id)
    case RemoveWhere(t, p) => Filter(Except(p), rows)
    case SortInPlace(t, leq) => Sort(leq, rows)
  }

  function NewIds(d: Data, m: Mutation): map<Table, int> {
    if m.Bump? || m.Insert? then d.nextIds[m.t := Counter(d, m.t) + 1] else d.nextIds
  }

  function ApplyData(d: Data, m: Mutation): Data {
    Data(NewIds(d, m), d.tables[m.t := NewRows(d, m)])
  }

  function ApplyAll(d: Data, ops: seq<Mutation>): Data {
    if ops == [] then d else ApplyData(ApplyAll(d, ops[..|ops| - 1]), ops[|ops| - 1])
  }

  /** Whether the operation calls markDirty. Sorting the live array does not. */
  predicate Dirties(d: Data, m: Mutation) {
    var rows := Rows(d, m.t);
    match m
    case Bump(_) => true
    case Insert(_, _, _) => true
    case Update(_, id, _, _) => Find(ById(id), rows).Some?
    case UpdateWhere(_, p, _, _) => Filter(p, rows) != []
    case Remove(_, id) => Find(ById(id), rows).Some?
    case RemoveWhere(_, p) => |Filter(Except(p), rows)| < |rows|
    case SortInPlace(_, _) => false
  }

  lemma {:induction false} ApplyKeepsComplete(d: Data, ops: seq<Mutation>)
    requires Complete(d)
    ensures Complete(ApplyAll(d, ops))
  {
    if ops != [] { ApplyKeepsComplete(d, ops[..|ops| - 1]); }
  }

  lemma {:induction false} ApplyOne(d: Data, m: Mutation)
    ensures ApplyAll(d, [m]) == ApplyData(d, m)
  {
    assert [m][..0] == [];
    assert ApplyAll(d, []) == d;
  }

  lemma {:induction false} ApplyTwo(d: Data, m: Mutation, n: Mutation)
    ensures ApplyAll(d, [m, n]) == ApplyData(ApplyData(d, m), n)
  {
    assert [m, n][..1] == [m];
    ApplyOne(d, m);
  }

  /** Equal counters, and every table the same rows in some order. */
  ghost predicate SameUpToOrder(d: Data, e: Data) {
    d.nextIds == e.nextIds && forall t: Table :: multiset(Rows(d, t)) == multiset(Rows(e, t))
  }

  lemma {:induction false} FilterLength<T>(p: T -> bool, s: seq<T>)
    ensures |Filter(p, s)| == |s| ==> forall i :: 0 <= i < |s| ==> p(s[i])
  {
    if s != [] { FilterLength(p, s[..|s| - 1]); }
  }

  /** An operation touches its own table and counter, and no other. */
  lemma {:induction false} ApplyRows(d: Data, m: Mutation, t: Table)
    ensures Rows(ApplyData(d, m), t) == if t == m.t then NewRows(d, m) else Rows(d, t)
    ensures t != m.t || !(m.Bump? || m.Insert?) ==> Counter(ApplyData(d, m), t) == Counter(d, t)
    ensures (m.Bump? || m.Insert?) && Counter(d, m.t) >= 1 ==> Counter(ApplyData(d, m), m.t) == Counter(d, m.t) + 1
  {
  }

  lemma {:induction false} InsertStep(d: Data, t: Table, row: Row, now: string, u: Table, e: Data)
    requires e == ApplyData(d, Insert(t, row, now))
    ensures Rows(e, t) == Rows(d, t) + [NewRow(row, Counter(d, t), now)]
    ensures Counter(d, t) >= 1 ==> Counter(e, t) == Counter(d, t) + 1
    ensures u != t ==> Rows(e, u) == Rows(d, u) && Counter(e, u) == Counter(d, u)
  {
    ApplyRows(d, Insert(t, row, now), t);
    ApplyRows(d, Insert(t, row, now), u);
  }

  lemma {:induction false} UpdateStep(d: Data, t: Table, id: int, i: nat, updates: Row, now: string, u: Table, e: Data)
    requires e == ApplyData(d, Update(t, id, updates, now))
    requires i == IndexWhere(ById(id), Rows(d, t)) < |Rows(d, t)|
    ensures Rows(e, t) == Rows(d, t)[i := Touch(Rows(d, t)[i], updates, now)]
    ensures Counter(e, t) == Counter(d, t)
    ensures u != t ==> Rows(e, u) == Rows(d, u) && Counter(e, u) == Counter(d, u)
  {
    ApplyRows(d, Update(t, id, updates, now), t);
    ApplyRows(d, Update(t, id, updates, now), u);
  }

  lemma {:induction false} CleanRows(d: Data, m: Mutation)
    requires !Dirties(d, m)
    ensures multiset(NewRows(d, m)) == multiset(Rows(d, m.t))
  {
    var rows := Rows(d, m.t);
    if m.UpdateWhere? {
      forall i | 0 <= i < |rows| ensures !m.p(rows[i]) { FilterMember(m.p, rows, rows[i]); }
      assert UpdateRows(rows, m.p, m.updates, m.now) == rows;
    } else if m.RemoveWhere? {
      FilterLength(Except(m.p), rows);
      FilterAll(Except(m.p), rows);
    } else if m.SortInPlace? {
      SortPermutes(m.leq, rows);
    }
  }

  /** An operation that does not mark the store dirty leaves it the same up to row order. */
  lemma {:induction false} CleanKeepsContent(d: Data, m: Mutation)
    requires !Dirties(d, m)
    ensures SameUpToOrder(d, ApplyData(d, m))
  {
    CleanRows(d, m);
    forall t: Table ensures multiset(Rows(d, t)) == multiset(Rows(ApplyData(d, m), t)) {
      ApplyRows(d, m, t);
    }
  }

  // ---- Ids over the whole store ----

  ghost predicate DataOk(d: Data) {
    Complete(d) && forall t: Table :: IdsOk(Rows(d, t), Counter(d, t))
  }

  /** The updates an operation carries leave the id field alone. */
  predicate IdSafe(m: Mutation) {
    m.Update? || m.UpdateWhere? ==> Id !in m.updates
  }

  lemma {:induction false} MutationKeepsTableIds(d: Data, m: Mutation)
    requires IdsOk(Rows(d, m.t), Counter(d, m.t)) && IdSafe(m)
    ensures IdsOk(NewRows(d, m), if m.Insert? then Counter(d, m.t) + 1 else Counter(d, m.t))
  {
    var rows, next := Rows(d, m.t), Counter(d, m.t);
    match m
    case Bump(_) =>
    case Insert(_, row, now) => InsertKeepsIds(rows, next, row, now);
    case Update(_, id, updates, now) => UpdateKeepsIdsIff(rows, next, id, updates, now);
    case UpdateWhere(_, p, updates, now) => UpdateRowsKeepsIds(rows, next, p, updates, now);
    case Remove(_, id) => RemoveKeepsIds(rows, next, id);
    case RemoveWhere(_, p) => FilterKeepsIds(rows, next, Except(p));
    case SortInPlace(_, leq) =>
      SortPermutes(leq, rows);
      PermutationKeepsIds(rows, Sort(leq, rows), next);
  }

  /** Every operation whose updates leave the id field alone keeps the ids of every table. */
  lemma {:induction false} MutationKeepsIds(d: Data, m: Mutation)
    requires DataOk(d) && IdSafe(m)
    ensures DataOk(ApplyData(d, m))
  {
    forall t: Table ensures IdsOk(Rows(ApplyData(d, m), t), Counter(ApplyData(d, m), t)) {
      ApplyRows(d, m, t);
      assert IdsOk(Rows(d, t), Counter(d, t));
      if t == m.t { MutationKeepsTableIds(d, m); }
    }
  }

  lemma {:induction false} ApplyKeepsIds(d: Data, ops: seq<Mutation>)
    requires DataOk(d) && forall i :: 0 <= i < |ops| ==> IdSafe(ops[i])
    ensures DataOk(ApplyAll(d, ops))
  {
    if ops != [] {
      ApplyKeepsIds(d, ops[..|ops| - 1]);
      MutationKeepsIds(ApplyAll(d, ops[..|ops| - 1]), ops[|ops| - 1]);
    }
  }

  // ---- The module state ----

  /** `handle` is `_flushTimer`; `pending` holds the timeouts the event loop has not run or cancelled,
      named by the count `timers` at which they were set. `aliased` names the tables whose cached array
      is the very array of DEFAULT_DATA, and `metaAliased` says the same of `_meta`. */
  datatype Store = Store(
    cache: Option<Data>, dirty: bool, handle: Option<nat>, pending: set<nat>, timers: nat,
    defaults: Data, aliased: set<Table>, metaAliased: bool, file: File)

  /** A process that has just started on the given data file. */
  function Boot(f: File): Store {
    Store(None, false, None, {}, 0, EMPTY_DATA, {}, false, f)
  }

  /** saveDataSync, once its tmp file has been renamed over the data file. */
  function Save(s: Store): Store {
    if s.cache.None? then s else s.(file := ImageOf(s.cache.value), dirty := false)
  }

  /** loadData without the save it makes when there is no data file. */
  function Fetched(s: Store): Store {
    if s.cache.Some? then s
    else s.(cache := Some(LoadedFrom(s.file, s.defaults)),
            aliased := if s.file.Image? then s.defaults.tables.Keys - s.file.tables.Keys else {},
            metaAliased := s.file.Image? && s.file.nextIds.None?)
  }

  function Load(s: Store): Store {
    if s.cache.None? && s.file.Absent? then Save(Fetched(s)) else Fetched(s)
  }

  /** clearTimeout on the pending flush, if there is one. */
  function Cancelled(s: Store): set<nat> {
    if s.handle.Some? then s.pending - {s.handle.value} else s.pending
  }

  function MarkDirty(s: Store): Store {
    s.(dirty := true, handle := Some(s.timers), pending := Cancelled(s) + {s.timers}, timers := s.timers + 1)
  }

  function Cancel(s: Store): Store {
    s.(handle := None, pending := Cancelled(s))
  }

  function FlushNow(s: Store): Store {
    if s.dirty then Save(Cancel(s)) else Cancel(s)
  }

  /** One operation on the loaded store. Operations on a table's array in place also change
      DEFAULT_DATA when the array is shared with it; removeWhere puts a new array in the cache. */
  function Mutate(s: Store, m: Mutation): Store
    requires s.cache.Some?
  {
    var d := s.cache.value;
    var e := ApplyData(d, m);
    var s' := s.(
      cache := Some(e),
      aliased := if m.RemoveWhere? then s.aliased - {m.t} else s.aliased,
      defaults := Data(
        if s.metaAliased then e.nextIds else s.defaults.nextIds,
        if m.t in s.aliased && !m.RemoveWhere? then s.defaults.tables[m.t := e.tables[m.t]] else s.defaults.tables));
    if m.Insert? then MarkDirty(MarkDirty(s')) else if Dirties(d, m) then MarkDirty(s') else s'
  }

  function MutateAll(s: Store, ops: seq<Mutation>): (s': Store)
    requires s.cache.Some?
    ensures s'.cache.Some?
  {
    if ops == [] then s else Mutate(MutateAll(s, ops[..|ops| - 1]), ops[|ops| - 1])
  }

  /** What a synchronous piece of code does to the store, as a function of the data it reads:
      the operations it makes and whether it ends with flushNow. */
  datatype Effects = Effects(ops: seq<Mutation>, flush: bool)

  function Handled(s: Store, body: Data -> Effects): Store {
    var s1 := Load(s);
    var e := body(s1.cache.value);
    var s2 := MutateAll(s1, e.ops);
    if e.flush then FlushNow(s2) else s2
  }

  /** The catch branch of withTransaction. */
  function RolledBack(s: Store, snapshot: Data): Store {
    s.(cache := Some(snapshot), dirty := false, aliased := {}, metaAliased := false)
  }

  /** clearAll up to its saveDataSync. */
  function Cleared(s: Store): Store {
    s.(cache := Some(s.defaults), aliased := {}, metaAliased := false)
  }

  /** The callback of the flush timer. */
  function Fired(s: Store, id: nat): Store {
    if id !in s.pending then s
    else
      var s' := s.(pending := s.pending - {id});
      if s'.dirty then Save(s') else s'
  }
}
