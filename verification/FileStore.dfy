/** The module `src/storage/file_store.ts` itself: module variables, arrays that the cache may share with
    DEFAULT_DATA, and the exported functions, each proved to do what StoreSpec says. */
module FileStores {
  import opened Values
  import opened Seqs
  import opened Tables
  import opened StoreSpec

  /** The name of a JavaScript array: an index into the arrays created so far. */
  type Ref = nat

  function At(arrays: seq<seq<Row>>, a: Ref): seq<Row> {
    if a < |arrays| then arrays[a] else []
  }

  function Content(arrays: seq<seq<Row>>, ts: map<Table, Ref>): map<Table, seq<Row>> {
    map t | t in ts :: At(arrays, ts[t])
  }

  predicate Injective(ts: map<Table, Ref>) {
    forall t, u :: t in ts && u in ts && t != u ==> ts[t] != ts[u]
  }

  predicate Within(ts: map<Table, Ref>, lo: nat, hi: nat) {
    forall t :: t in ts ==> lo <= ts[t] < hi
  }

  /** Tables of the cache are different arrays, and share with DEFAULT_DATA only the array of the same table. */
  predicate LayoutOk(size: nat, cache: map<Table, Ref>, defaults: map<Table, Ref>) {
    && Within(defaults, 0, size) && Injective(defaults) && Within(cache, 0, size) && Injective(cache)
    && forall t, u :: t in cache && u in defaults && cache[t] == defaults[u] ==> t == u
  }

  lemma {:induction false} LayoutGrows(size: nat, cache: map<Table, Ref>, defaults: map<Table, Ref>, t: Table)
    requires LayoutOk(size, cache, defaults)
    ensures LayoutOk(size + 1, cache[t := size], defaults)
  {
  }

  function Shared(cache: map<Table, Ref>, defaults: map<Table, Ref>): set<Table> {
    set t | t in cache && t in defaults && cache[t] == defaults[t]
  }

  lemma {:induction false} SharedLess(size: nat, cache: map<Table, Ref>, defaults: map<Table, Ref>, t: Table)
    requires LayoutOk(size, cache, defaults)
    ensures Shared(cache[t := size], defaults) == Shared(cache, defaults) - {t}
  {
  }

  lemma {:induction false} ContentGrows(arrays: seq<seq<Row>>, made: seq<seq<Row>>, ts: map<Table, Ref>)
    requires Within(ts, 0, |arrays|) && arrays <= made
    ensures Content(made, ts) == Content(arrays, ts)
  {
  }

  lemma {:induction false} ContentSetHere(arrays: seq<seq<Row>>, ts: map<Table, Ref>, t: Table, rows: seq<Row>)
    requires Within(ts, 0, |arrays|) && Injective(ts) && t in ts
    ensures Content(arrays[ts[t] := rows], ts) == Content(arrays, ts)[t := rows]
  {
    assert forall u :: u in ts && u != t ==> ts[u] != ts[t];
  }

  lemma {:induction false} ContentSetElsewhere(arrays: seq<seq<Row>>, ts: map<Table, Ref>, a: Ref, rows: seq<Row>)
    requires Within(ts, 0, |arrays|) && a < |arrays| && forall t :: t in ts ==> ts[t] != a
    ensures Content(arrays[a := rows], ts) == Content(arrays, ts)
  {
  }

  lemma {:induction false} ContentPush(arrays: seq<seq<Row>>, ts: map<Table, Ref>, t: Table, rows: seq<Row>)
    requires Within(ts, 0, |arrays|) && Injective(ts)
    ensures Content(arrays + [rows], ts[t := |arrays|]) == Content(arrays, ts)[t := rows]
    ensures Injective(ts[t := |arrays|]) && Within(ts[t := |arrays|], 0, |arrays| + 1)
  {
  }

  // ---- The specification of one operation, split into the writes the code makes ----

  /** The store with the array of one table changed in place. */
  function WithRows(v: Store, t: Table, rows: seq<Row>): Store
    requires v.cache.Some?
  {
    v.(cache := Some(v.cache.value.(tables := v.cache.value.tables[t := rows])),
       defaults := if t in v.aliased then v.defaults.(tables := v.defaults.tables[t := rows]) else v.defaults)
  }

  /** The store with a new array for one table. */
  function Unshared(v: Store, t: Table, rows: seq<Row>): Store
    requires v.cache.Some?
  {
    v.(cache := Some(v.cache.value.(tables := v.cache.value.tables[t := rows])), aliased := v.aliased - {t})
  }

  function WithIds(v: Store, ids: map<Table, int>): Store
    requires v.cache.Some?
  {
    v.(cache := Some(v.cache.value.(nextIds := ids)),
       defaults := if v.metaAliased then v.defaults.(nextIds := ids) else v.defaults)
  }

  /** What is shared with DEFAULT_DATA has the same content on both sides. */
  ghost predicate Consistent(v: Store) {
    && v.cache.Some? && Complete(v.cache.value)
    && (v.metaAliased ==> v.defaults.nextIds == v.cache.value.nextIds)
    && (forall t :: t in v.aliased ==> t in v.defaults.tables && v.defaults.tables[t] == v.cache.value.tables[t])
  }

  lemma {:induction false} WithSameRows(v: Store, t: Table)
    requires Consistent(v)
    ensures WithRows(v, t, Rows(v.cache.value, t)) == v
  {
    var rows := Rows(v.cache.value, t);
    assert v.cache.value.tables[t := rows] == v.cache.value.tables;
    if t in v.aliased { assert v.defaults.tables[t := rows] == v.defaults.tables; }
  }

  lemma {:induction false} WithRowsTwice(v: Store, t: Table, a: seq<Row>, b: seq<Row>)
    requires v.cache.Some?
    ensures WithRows(WithRows(v, t, a), t, b) == WithRows(v, t, b)
  {
    assert v.cache.value.tables[t := a][t := b] == v.cache.value.tables[t := b];
    assert v.defaults.tables[t := a][t := b] == v.defaults.tables[t := b];
  }

  lemma {:induction false} MutateInPlace(v: Store, m: Mutation)
    requires Consistent(v) && !m.Bump? && !m.Insert? && !m.RemoveWhere?
    ensures
      var w := WithRows(v, m.t, NewRows(v.cache.value, m));
      Mutate(v, m) == if Dirties(v.cache.value, m) then StoreSpec.MarkDirty(w) else w
  {
  }

  lemma {:induction false} MutateUnshared(v: Store, m: Mutation)
    requires Consistent(v) && m.RemoveWhere?
    ensures
      var w := Unshared(v, m.t, NewRows(v.cache.value, m));
      Mutate(v, m) == if Dirties(v.cache.value, m) then StoreSpec.MarkDirty(w) else w
  {
  }

  lemma {:induction false} MutateBump(v: Store, t: Table)
    requires Consistent(v)
    ensures
      var d := v.cache.value;
      Mutate(v, Bump(t)) == StoreSpec.MarkDirty(WithIds(v, d.nextIds[t := Counter(d, t) + 1]))
  {
    WithSameRows(v, t);
  }

  lemma {:induction false} MutateInsert(v: Store, t: Table, row: Row, now: string)
    requires Consistent(v)
    ensures
      var d := v.cache.value;
      var v1 := StoreSpec.MarkDirty(WithIds(v, d.nextIds[t := Counter(d, t) + 1]));
      var rows := Rows(d, t) + [NewRow(row, Counter(d, t), now)];
      Mutate(v, Mutation.Insert(t, row, now)) == StoreSpec.MarkDirty(WithRows(v1, t, rows))
  {
  }

  /** The loop of updateWhere has dealt with the first i rows and counted the matching ones. */
  predicate PartUpdated(before: seq<Row>, rows: seq<Row>, i: nat, p: Row -> bool, updates: Row, now: string,
                        count: nat) {
    && i <= |rows| == |before| && rows[i..] == before[i..]
    && rows[..i] == UpdateRows(before[..i], p, updates, now)
    && count == |Filter(p, before[..i])|
  }

  function UpdateAt(rows: seq<Row>, i: nat, p: Row -> bool, updates: Row, now: string): seq<Row>
    requires i < |rows|
  {
    if p(rows[i]) then rows[i := Touch(rows[i], updates, now)] else rows
  }

  lemma {:induction false} SliceReplaced<T>(before: seq<T>, rows: seq<T>, i: nat, x: T)
    requires i < |rows| == |before| && rows[i..] == before[i..]
    ensures rows[i] == before[i] && rows[i + 1..] == before[i + 1..]
    ensures rows[i := x][i + 1..] == before[i + 1..] && rows[i := x][..i + 1] == rows[..i] + [x]
    ensures rows[..i + 1] == rows[..i] + [rows[i]] && before[..i + 1] == before[..i] + [before[i]]
  {
    assert rows[i] == rows[i..][0] == before[i..][0];
    assert rows[i + 1..] == rows[i..][1..] == before[i..][1..];
  }

  lemma {:induction false} UpdateRowsPushed(done: seq<Row>, r: Row, p: Row -> bool, updates: Row, now: string)
    ensures UpdateRows(done + [r], p, updates, now)
            == UpdateRows(done, p, updates, now) + [if p(r) then Touch(r, updates, now) else r]
  {
  }

  lemma {:induction false} UpdatedNext(before: seq<Row>, rows: seq<Row>, i: nat, p: Row -> bool, updates: Row,
                                       now: string, count: nat)
    requires PartUpdated(before, rows, i, p, updates, now, count) && i < |rows|
    ensures PartUpdated(before, UpdateAt(rows, i, p, updates, now), i + 1, p, updates, now,
                        count + if p(rows[i]) then 1 else 0)
  {
    SliceReplaced(before, rows, i, if p(rows[i]) then Touch(rows[i], updates, now) else rows[i]);
    UpdateRowsPushed(before[..i], before[i], p, updates, now);
    FilterPush(p, before[..i], before[i]);
  }

  lemma {:induction false} UpdatedAll(before: seq<Row>, rows: seq<Row>, p: Row -> bool, updates: Row, now: string,
                                      count: nat)
    requires PartUpdated(before, rows, |rows|, p, updates, now, count)
    ensures rows == UpdateRows(before, p, updates, now) && count == |Filter(p, before)|
  {
    Whole(rows);
    Whole(before);
  }

  // ---- The module ----

  class FileStore {
    /** Every array of records the process has created. */
    var arrays: seq<seq<Row>>
    /** `_cache`: null, or a reference to an array for each table and the counters of `_meta`. The counters
        are those of DEFAULT_DATA itself when `sharesMeta` holds. */
    var loaded: bool
    var cache: map<Table, Ref>
    var cacheIds: map<Table, int>
    var sharesMeta: bool
    /** DEFAULT_DATA */
    var defaults: map<Table, Ref>
    var defaultIds: map<Table, int>
    var dirty: bool
    var flushTimer: Option<nat>
    var pending: set<nat>
    var timers: nat
    var file: File

    ghost predicate Valid()
      reads this
    {
      && (forall t: Table :: t in defaults) && LayoutOk(|arrays|, cache, defaults)
      && (if loaded then forall t: Table :: t in cache else cache == map[] && !sharesMeta)
      && (sharesMeta ==> cacheIds == defaultIds)
    }

    ghost function Aliased(): set<Table>
      reads this
    {
      Shared(cache, defaults)
    }

    ghost function View(): Store
      reads this
    {
      Store(if loaded then Some(Data(cacheIds, Content(arrays, cache))) else None,
            dirty, flushTimer, pending, timers,
            Data(defaultIds, Content(arrays, defaults)), Aliased(), sharesMeta, file)
    }

    lemma {:induction false} ViewConsistent()
      requires Valid() && loaded
      ensures Consistent(View())
    {
    }

    /** A process that has just started on the given data file. */
    constructor (f: File)
      ensures Valid() && View() == Boot(f)
    {
      EmptyComplete();
      var made, ts := CopyTables([], EMPTY_DATA.tables);
      arrays, defaults, defaultIds := made, ts, map[];
      loaded, cache, cacheIds, sharesMeta := false, map[], map[], false;
      dirty, flushTimer, pending, timers := false, None, {}, 0;
      file := f;
    }

    /** JSON.parse: new arrays with the given content. */
    static method CopyTables(arrays: seq<seq<Row>>, src: map<Table, seq<Row>>)
      returns (made: seq<seq<Row>>, ts: map<Table, Ref>)
      ensures arrays <= made && ts.Keys == src.Keys
      ensures Injective(ts) && Within(ts, |arrays|, |made|)
      ensures Content(made, ts) == src
    {
      made, ts := arrays, map[];
      var todo := src.Keys;
      while todo != {}
        invariant todo <= src.Keys && ts.Keys == src.Keys - todo && arrays <= made
        invariant Injective(ts) && Within(ts, |arrays|, |made|)
        invariant forall t :: t in ts ==> made[ts[t]] == src[t]
        decreases todo
      {
        var t :| t in todo;
        ts := ts[t := |made|];
        made := made + [src[t]];
        todo := todo - {t};
      }
    }

    /** The loop that gives the cache every table the file lacks. */
    static method FillTables(parsed: map<Table, Ref>, defaults: map<Table, Ref>) returns (ts: map<Table, Ref>)
      ensures ts == defaults + parsed
    {
      ts := parsed;
      var todo := defaults.Keys;
      while todo != {}
        invariant todo <= defaults.Keys
        invariant ts == (defaults - todo) + parsed
        decreases todo
      {
        var t :| t in todo;
        if t !in ts { ts := ts[t := defaults[t]]; }
        todo := todo - {t};
      }
    }

    method LoadData()
      requires Valid()
      modifies this
      ensures Valid() && loaded
      ensures View() == Load(old(View()))
    {
      if loaded { return; }
      if file.Image? {
        ParseFile();
      } else {
        CopyDefaults();
        if file.Absent? { SaveDataSync(); }
      }
    }

    static lemma {:induction false} FilledContent(arrays: seq<seq<Row>>, parsed: map<Table, Ref>,
                                                  defaults: map<Table, Ref>)
      ensures Content(arrays, defaults + parsed) == Content(arrays, defaults) + Content(arrays, parsed)
    {
    }

    static lemma {:induction false} FilledInjective(lo: nat, hi: nat, parsed: map<Table, Ref>,
                                                    defaults: map<Table, Ref>)
      requires Injective(parsed) && Injective(defaults) && Within(defaults, 0, lo) && Within(parsed, lo, hi) && lo <= hi
      ensures Injective(defaults + parsed) && Within(defaults + parsed, 0, hi)
      ensures forall t, u :: t in defaults + parsed && u in defaults && (defaults + parsed)[t] == defaults[u] ==> t == u
      ensures forall t :: t in parsed && t in defaults ==> (defaults + parsed)[t] != defaults[t]
    {
    }

    static lemma {:induction false} FilledAliases(lo: nat, hi: nat, parsed: map<Table, Ref>, defaults: map<Table, Ref>)
      requires Within(defaults, 0, lo) && Within(parsed, lo, hi)
      ensures Shared(defaults + parsed, defaults) == defaults.Keys - parsed.Keys
    {
    }

    /** The branch of loadData for a readable file. */
    method ParseFile()
      requires Valid() && !loaded && file.Image?
      modifies this`arrays, this`cache, this`cacheIds, this`sharesMeta, this`loaded
      ensures Valid() && loaded
      ensures View() == Fetched(old(View()))
    {
      var made, parsed := CopyTables(arrays, file.tables);
      var ts := FillTables(parsed, defaults);
      ContentGrows(arrays, made, defaults);
      FilledContent(made, parsed, defaults);
      FilledInjective(|arrays|, |made|, parsed, defaults);
      FilledAliases(|arrays|, |made|, parsed, defaults);
      FetchedShape(View(), Content(made, ts), Shared(ts, defaults));
      Adopt(made, ts, if file.nextIds.Some? then file.nextIds.value else defaultIds, file.nextIds.None?);
    }

    static lemma {:induction false} FetchedShape(v: Store, tables: map<Table, seq<Row>>, aliased: set<Table>)
      requires v.cache.None? && v.file.Image?
      requires tables == v.defaults.tables + v.file.tables && aliased == v.defaults.tables.Keys - v.file.tables.Keys
      ensures
        var ids := if v.file.nextIds.Some? then v.file.nextIds.value else v.defaults.nextIds;
        Fetched(v) == v.(cache := Some(Data(ids, tables)), aliased := aliased, metaAliased := v.file.nextIds.None?)
    {
    }

    /** Points the cache at the given arrays. */
    method Adopt(made: seq<seq<Row>>, ts: map<Table, Ref>, ids: map<Table, int>, shares: bool)
      requires Valid() && arrays <= made && (shares ==> ids == defaultIds)
      requires LayoutOk(|made|, ts, defaults) && forall t: Table :: t in ts
      modifies this`arrays, this`cache, this`cacheIds, this`sharesMeta, this`loaded
      ensures Valid() && loaded
      ensures View() == old(View()).(cache := Some(Data(ids, Content(made, ts))), metaAliased := shares,
                                     aliased := Shared(ts, defaults))
    {
      ContentGrows(arrays, made, defaults);
      arrays, cache, cacheIds, sharesMeta, loaded := made, ts, ids, shares, true;
    }

    /** `_cache = JSON.parse(JSON.stringify(DEFAULT_DATA))` */
    method CopyDefaults()
      requires Valid()
      modifies this`arrays, this`cache, this`cacheIds, this`sharesMeta, this`loaded
      ensures Valid() && loaded
      ensures View() == Cleared(old(View()))
    {
      NewCache(Data(defaultIds, Content(arrays, defaults)));
    }

    /** A cache of newly parsed arrays shares nothing. */
    method NewCache(d: Data)
      requires Valid() && Complete(d)
      modifies this`arrays, this`cache, this`cacheIds, this`sharesMeta, this`loaded
      ensures Valid() && loaded
      ensures View() == old(View()).(cache := Some(d), aliased := {}, metaAliased := false)
    {
      var made, ts := CopyTables(arrays, d.tables);
      Adopt(made, ts, d.nextIds, false);
    }

    /** The tmp file is complete before the rename; Machines models a crash in between. */
    method SaveDataSync()
      requires Valid()
      modifies this`file, this`dirty
      ensures Valid() && View() == Save(old(View()))
    {
      if !loaded { return; }
      var tmp := Image(Some(cacheIds), Content(arrays, cache));
      file := tmp;
      dirty := false;
    }

    method MarkDirty()
      requires Valid()
      modifies this`dirty, this`flushTimer, this`pending, this`timers
      ensures Valid() && View() == StoreSpec.MarkDirty(old(View()))
    {
      dirty := true;
      if flushTimer.Some? { pending := pending - {flushTimer.value}; }
      flushTimer := Some(timers);
      pending := pending + {timers};
      timers := timers + 1;
    }

    method FlushNow()
      requires Valid()
      modifies this`dirty, this`flushTimer, this`pending, this`file
      ensures Valid() && View() == StoreSpec.FlushNow(old(View()))
      ensures Content(arrays, cache) == old(Content(arrays, cache)) && cacheIds == old(cacheIds)
    {
      if flushTimer.Some? {
        pending := pending - {flushTimer.value};
        flushTimer := None;
      }
      if dirty { SaveDataSync(); }
    }

    /** The event loop runs a flush callback. */
    method FireTimer(id: nat)
      requires Valid() && id in pending
      modifies this`dirty, this`pending, this`file
      ensures Valid() && View() == Fired(old(View()), id)
    {
      pending := pending - {id};
      if dirty { SaveDataSync(); }
    }

    /** Changes the array of a table in place: the arrays of the other tables keep their content, and
        DEFAULT_DATA sees the change just when it shares the array. */
    method SetRows(t: Table, rows: seq<Row>)
      requires Valid() && loaded
      modifies this`arrays
      ensures Valid()
      ensures View() == WithRows(old(View()), t, rows)
      ensures At(arrays, cache[t]) == rows
    {
      var a := cache[t];
      assert t in Aliased() <==> defaults[t] == a;
      ContentSetHere(arrays, cache, t, rows);
      if defaults[t] == a {
        ContentSetHere(arrays, defaults, t, rows);
      } else {
        ContentSetElsewhere(arrays, defaults, a, rows);
      }
      arrays := arrays[a := rows];
    }

    static lemma {:induction false} UnsharedShape(v: Store, t: Table, rows: seq<Row>)
      requires v.cache.Some?
      ensures
        var d := v.cache.value;
        Unshared(v, t, rows)
          == v.(cache := Some(Data(d.nextIds, d.tables[t := rows])), metaAliased := v.metaAliased,
                aliased := v.aliased - {t})
    {
    }

    /** Puts a new array in the cache. */
    method NewArray(t: Table, rows: seq<Row>)
      requires Valid() && loaded
      modifies this`arrays, this`cache, this`cacheIds, this`sharesMeta, this`loaded
      ensures Valid() && loaded
      ensures View() == Unshared(old(View()), t, rows)
    {
      ContentPush(arrays, cache, t, rows);
      LayoutGrows(|arrays|, cache, defaults, t);
      SharedLess(|arrays|, cache, defaults, t);
      UnsharedShape(View(), t, rows);
      Adopt(arrays + [rows], cache[t := |arrays|], cacheIds, sharesMeta);
    }

    method SetIds(ids: map<Table, int>)
      requires Valid() && loaded
      modifies this`cacheIds, this`defaultIds
      ensures Valid()
      ensures View() == WithIds(old(View()), ids)
    {
      cacheIds := ids;
      if sharesMeta { defaultIds := ids; }
    }

    method NextId(t: Table) returns (id: int)
      requires Valid()
      modifies this
      ensures Valid() && loaded
      ensures View() == Mutate(Load(old(View())), Bump(t))
      ensures id == Counter(Load(old(View())).cache.value, t)
    {
      LoadData();
      ViewConsistent();
      MutateBump(View(), t);
      id := if t in cacheIds && cacheIds[t] != 0 then cacheIds[t] else 1;
      SetIds(cacheIds[t := id + 1]);
      MarkDirty();
    }

    method Insert(t: Table, row: Row, now: string) returns (newRow: Row)
      requires Valid()
      modifies this
      ensures Valid() && loaded
      ensures View() == Mutate(Load(old(View())), Mutation.Insert(t, row, now))
      ensures newRow == NewRow(row, Counter(Load(old(View())).cache.value, t), now)
    {
      LoadData();
      ViewConsistent();
      ghost var v := View();
      MutateInsert(v, t, row, now);
      var id := NextId(t);
      newRow := NewRow(row, id, now);
      ghost var v1 := View();
      assert v1 == Mutate(v, Bump(t));
      MutateBump(v, t);
      PushRow(t, newRow);
      MarkDirty();
    }

    method PushRow(t: Table, row: Row)
      requires Valid() && loaded
      modifies this`arrays
      ensures Valid()
      ensures View() == WithRows(old(View()), t, Rows(old(View()).cache.value, t) + [row])
    {
      SetRows(t, At(arrays, cache[t]) + [row]);
    }

    method Update(t: Table, id: int, updates: Row, now: string) returns (ok: bool)
      requires Valid()
      modifies this
      ensures Valid() && loaded
      ensures View() == Mutate(Load(old(View())), Mutation.Update(t, id, updates, now))
      ensures ok == Find(ById(id), Rows(Load(old(View())).cache.value, t)).Some?
    {
      LoadData();
      ViewConsistent();
      MutateInPlace(View(), Mutation.Update(t, id, updates, now));
      WithSameRows(View(), t);
      var rows := At(arrays, cache[t]);
      var index := IndexWhere(ById(id), rows);
      if index == |rows| { return false; }
      SetRows(t, rows[index := Touch(rows[index], updates, now)]);
      MarkDirty();
      ok := true;
    }

    method UpdateWhere(t: Table, p: Row -> bool, updates: Row, now: string) returns (count: nat)
      requires Valid()
      modifies this
      ensures Valid() && loaded
      ensures View() == Mutate(Load(old(View())), Mutation.UpdateWhere(t, p, updates, now))
      ensures count == |Filter(p, Rows(Load(old(View())).cache.value, t))|
    {
      LoadData();
      ViewConsistent();
      MutateInPlace(View(), Mutation.UpdateWhere(t, p, updates, now));
      count := UpdateLoop(t, p, updates, now);
      if count > 0 { MarkDirty(); }
    }

    /** The loop of updateWhere: each matching row is replaced where it stands. */
    method UpdateLoop(t: Table, p: Row -> bool, updates: Row, now: string) returns (count: nat)
      requires Valid() && loaded
      modifies this`arrays
      ensures Valid()
      ensures View() == WithRows(old(View()), t, UpdateRows(old(At(arrays, cache[t])), p, updates, now))
      ensures count == |Filter(p, old(At(arrays, cache[t])))|
    {
      ghost var v := View();
      var rows := At(arrays, cache[t]);
      ghost var before := rows;
      ViewConsistent();
      WithSameRows(v, t);
      count := 0;
      for i := 0 to |rows|
        invariant Valid() && View() == WithRows(v, t, rows)
        invariant PartUpdated(before, rows, i, p, updates, now, count)
      {
        UpdatedNext(before, rows, i, p, updates, now, count);
        if p(rows[i]) {
          WithRowsTwice(v, t, rows, rows[i := Touch(rows[i], updates, now)]);
          rows := rows[i := Touch(rows[i], updates, now)];
          SetRows(t, rows);
          count := count + 1;
        }
      }
      UpdatedAll(before, rows, p, updates, now, count);
    }

    method Remove(t: Table, id: int) returns (ok: bool)
      requires Valid()
      modifies this
      ensures Valid() && loaded
      ensures View() == Mutate(Load(old(View())), Mutation.Remove(t, id))
      ensures ok == Find(ById(id), Rows(Load(old(View())).cache.value, t)).Some?
    {
      LoadData();
      ViewConsistent();
      MutateInPlace(View(), Mutation.Remove(t, id));
      WithSameRows(View(), t);
      var rows := At(arrays, cache[t]);
      var index := IndexWhere(ById(id), rows);
      if index == |rows| { return false; }
      SetRows(t, SpliceOut(rows, index));
      MarkDirty();
      ok := true;
    }

    /** The filtered array is a new one, so the table is no longer shared with DEFAULT_DATA. */
    method RemoveWhere(t: Table, p: Row -> bool) returns (removed: nat)
      requires Valid()
      modifies this
      ensures Valid() && loaded
      ensures View() == Mutate(Load(old(View())), Mutation.RemoveWhere(t, p))
      ensures removed == |Rows(Load(old(View())).cache.value, t)|
                         - |Filter(Except(p), Rows(Load(old(View())).cache.value, t))|
    {
      LoadData();
      ViewConsistent();
      MutateUnshared(View(), Mutation.RemoveWhere(t, p));
      var rows := At(arrays, cache[t]);
      var kept := Filter(Except(p), rows);
      NewArray(t, kept);
      removed := |rows| - |kept|;
      if removed > 0 { MarkDirty(); }
    }

    /** `getTable(t).sort(...)`: what the list functions do to the live array. */
    method SortTable(t: Table, leq: (Row, Row) -> bool) returns (rows: seq<Row>)
      requires Valid()
      modifies this
      ensures Valid() && loaded
      ensures View() == Mutate(Load(old(View())), SortInPlace(t, leq))
      ensures rows == Sort(leq, Rows(Load(old(View())).cache.value, t))
    {
      LoadData();
      ViewConsistent();
      MutateInPlace(View(), SortInPlace(t, leq));
      rows := Sort(leq, At(arrays, cache[t]));
      SetRows(t, rows);
    }

    /** `getTable(t)`, as a value. */
    method GetTable(t: Table) returns (rows: seq<Row>)
      requires Valid()
      modifies this
      ensures Valid() && loaded
      ensures View() == Load(old(View()))
      ensures rows == Rows(Load(old(View())).cache.value, t)
    {
      LoadData();
      rows := At(arrays, cache[t]);
    }

    /** The snapshot withTransaction takes. */
    method Snapshot() returns (d: Data)
      requires Valid()
      modifies this
      ensures Valid() && loaded
      ensures View() == Load(old(View())) && Some(d) == View().cache
    {
      LoadData();
      d := Data(cacheIds, Content(arrays, cache));
    }

    /** The catch branch of withTransaction: new arrays, nothing shared, not dirty, timer left alone. */
    method RollBack(d: Data)
      requires Valid() && Complete(d)
      modifies this
      ensures Valid() && loaded
      ensures View() == RolledBack(old(View()), d)
    {
      NewCache(d);
      dirty := false;
    }

    method ClearAll()
      requires Valid()
      modifies this
      ensures Valid() && loaded
      ensures View() == Save(Cleared(old(View())))
    {
      CopyDefaults();
      SaveDataSync();
    }
  }
}
