/** The repositories and routes as they run over the store: each method makes its calls one after the other,
    and is proved to do to the store what its handler says, so that what Machines, Accounts, Listing, Welfare,
    OrderLog and References prove over runs of handlers holds of the methods. */
module Repositories {
  import opened Values
  import opened Seqs
  import opened Tables
  import opened StoreSpec
  import opened FileStores
  import opened Accounts
  import L = Listing
  import C = Catalog
  import W = Welfare
  import O = OrderLog
  import R = References

  /** What a handler reads: the data in memory, loaded first if need be. */
  function Read(s: Store): Data {
    Load(s).cache.value
  }

  lemma {:induction false} NoOps(s: Store)
    requires s.cache.Some?
    ensures MutateAll(s, []) == s
  {
  }

  lemma {:induction false} OneOp(s: Store, m: Mutation)
    requires s.cache.Some?
    ensures MutateAll(s, [m]) == Mutate(s, m)
  {
    assert [m][..0] == [];
    NoOps(s);
  }

  lemma {:induction false} TwoOps(s: Store, m: Mutation, n: Mutation)
    requires s.cache.Some?
    ensures MutateAll(s, [m, n]) == Mutate(Mutate(s, m), n)
  {
    assert [m, n][..1] == [m];
    OneOp(s, m);
  }

  lemma {:induction false} MoreOps(s: Store, ops: seq<Mutation>, m: Mutation)
    requires s.cache.Some?
    ensures MutateAll(s, ops + [m]) == Mutate(MutateAll(s, ops), m)
  {
    assert (ops + [m])[..|ops|] == ops;
  }

  lemma {:induction false} AppendOps(s: Store, a: seq<Mutation>, b: seq<Mutation>)
    requires s.cache.Some?
    ensures MutateAll(s, a + b) == MutateAll(MutateAll(s, a), b)
  {
    if b == [] {
      assert a + b == a;
    } else {
      var n := |b| - 1;
      AppendOps(s, a, b[..n]);
      assert (a + b)[..|a + b| - 1] == a + b[..n];
    }
  }

  lemma {:induction false} OpsApplied(s: Store, ops: seq<Mutation>)
    requires s.cache.Some?
    ensures MutateAll(s, ops).cache == Some(ApplyAll(s.cache.value, ops))
  {
    if ops != [] {
      var n := |ops| - 1;
      OpsApplied(s, ops[..n]);
      OpApplied(MutateAll(s, ops[..n]), ops[n]);
    }
  }

  lemma {:induction false} OpApplied(s: Store, m: Mutation)
    requires s.cache.Some?
    ensures Mutate(s, m).cache == Some(ApplyData(s.cache.value, m))
  {
  }

  lemma {:induction false} HandledNone(s: Store, body: Data -> Effects)
    requires body(Read(s)) == Effects([], false)
    ensures Handled(s, body) == Load(s)
  {
    NoOps(Load(s));
  }

  lemma {:induction false} HandledOps(s: Store, body: Data -> Effects, ops: seq<Mutation>)
    requires body(Read(s)) == Effects(ops, false)
    ensures Handled(s, body) == MutateAll(Load(s), ops)
  {
  }

  lemma {:induction false} HandledOne(s: Store, body: Data -> Effects, m: Mutation)
    requires body(Read(s)) == Effects([m], false)
    ensures Handled(s, body) == Mutate(Load(s), m)
  {
    HandledOps(s, body, [m]);
    OneOp(Load(s), m);
  }

  lemma {:induction false} HandledTwo(s: Store, body: Data -> Effects, m: Mutation, n: Mutation)
    requires body(Read(s)) == Effects([m, n], false)
    ensures Handled(s, body) == Mutate(Mutate(Load(s), m), n)
  {
    HandledOps(s, body, [m, n]);
    TwoOps(Load(s), m, n);
  }

  lemma {:induction false} HandledFlushed(s: Store, body: Data -> Effects, ops: seq<Mutation>)
    requires body(Read(s)) == Effects(ops, true)
    ensures Handled(s, body) == StoreSpec.FlushNow(MutateAll(Load(s), ops))
  {
  }

  // ---- users.ts ----

  /** Step 1. */
  method TouchIdentity(store: FileStore, p: Login) returns (identity: Option<Row>)
    requires store.Valid()
    modifies store
    ensures store.Valid() && store.loaded
    ensures store.View() == MutateAll(Load(old(store.View())), TouchOps(Read(old(store.View())), p))
    ensures identity == Identity(Read(old(store.View())), p)
  {
    ghost var s := Load(store.View());
    var rows := store.GetTable(UserIdentities);
    identity := Find(HasPair(p.provider, p.openid), rows);
    NoOps(s);
    if identity.Some? && Truthy(Given(p.sessionKey)) {
      var updates := map[SessionKey := Given(p.sessionKey)];
      OneOp(s, Mutation.Update(UserIdentities, IdOf(identity.value), updates, p.now));
      var _ := store.Update(UserIdentities, IdOf(identity.value), updates, p.now);
    }
  }

  /** Steps 2 and 3: the UnionID's user, or a new one. */
  method ChooseUser(store: FileStore, p: Login) returns (uid: int)
    requires store.Valid() && store.loaded
    modifies store
    ensures store.Valid() && store.loaded
    ensures store.View() == MutateAll(old(store.View()), UserOps(old(store.View()).cache.value, p))
    ensures uid == ChosenUser(old(store.View()).cache.value, p)
  {
    ghost var s := store.View();
    NoOps(s);
    uid := 0;
    if Truthy(Given(p.unionid)) {
      var rows := store.GetTable(UserIdentities);
      var r := Find(HasUnion(p.unionid), rows);
      if r.Some? { uid := UserOf(r.value); }
    }
    if uid == 0 {
      OneOp(s, Mutation.Insert(Users, NewUser(p), p.now));
      var row := store.Insert(Users, NewUser(p), p.now);
      uid := IdOf(row);
    }
  }

  /** Step 4. */
  method LinkIdentity(store: FileStore, p: Login, uid: int)
    requires store.Valid() && store.loaded
    modifies store
    ensures store.Valid() && store.loaded
    ensures store.View() == Mutate(old(store.View()), LinkOp(old(store.View()).cache.value, p, uid))
  {
    var rows := store.GetTable(UserIdentities);
    var r := Find(HasPair(p.provider, p.openid), rows);
    if r.Some? {
      var updates := map[SessionKey := Or(Given(p.sessionKey), Get(r.value, SessionKey)),
                         Unionid := Or(Given(p.unionid), Get(r.value, Unionid))];
      var _ := store.Update(UserIdentities, IdOf(r.value), updates, p.now);
    } else {
      var _ := store.Insert(UserIdentities, NewIdentity(p, uid), p.now);
    }
  }

  /** The operations of steps 2 to 4. */
  function CreateOps(d: Data, p: Login): seq<Mutation> {
    UserOps(d, p) + [LinkOp(ApplyAll(d, UserOps(d, p)), p, ChosenUser(d, p))]
  }

  method CreateAccount(store: FileStore, p: Login) returns (uid: int)
    requires store.Valid() && store.loaded
    modifies store
    ensures store.Valid() && store.loaded
    ensures store.View() == MutateAll(old(store.View()), CreateOps(old(store.View()).cache.value, p))
    ensures uid == ChosenUser(old(store.View()).cache.value, p)
  {
    ghost var s := store.View();
    ghost var d := s.cache.value;
    uid := ChooseUser(store, p);
    OpsApplied(s, UserOps(d, p));
    MoreOps(s, UserOps(d, p), LinkOp(ApplyAll(d, UserOps(d, p)), p, uid));
    LinkIdentity(store, p, uid);
  }

  lemma {:induction false} HandledLogin(s: Store, p: Login)
    ensures
      var d := Read(s);
      var touch := TouchOps(d, p);
      var s1 := MutateAll(Load(s), touch);
      && s1.cache == Some(ApplyAll(d, touch))
      && Rows(s1.cache.value, Users) == Rows(d, Users)
      && Handled(s, LoginBody(p))
         == if Known(d, p) then s1 else StoreSpec.FlushNow(MutateAll(s1, CreateOps(s1.cache.value, p)))
  {
    var d := Read(s);
    var touch := TouchOps(d, p);
    OpsApplied(Load(s), touch);
    TouchKeepsUsers(d, p);
    if !Known(d, p) {
      var d1 := ApplyAll(d, touch);
      AppendOps(Load(s), touch, CreateOps(d1, p));
      assert touch + UserOps(d1, p) + [LinkOp(ApplyAll(d1, UserOps(d1, p)), p, ChosenUser(d1, p))]
             == touch + CreateOps(d1, p);
    }
  }

  lemma {:induction false} LoginRead(s: Store, p: Login)
    ensures Handled(s, LoginBody(p)).cache == Some(AfterLogin(Read(s), p))
  {
    HandledCache(s, LoginBody(p));
  }

  lemma {:induction false} HandledCache(s: Store, body: Data -> Effects)
    ensures Handled(s, body).cache == Some(ApplyAll(Read(s), body(Read(s)).ops))
  {
    OpsApplied(Load(s), body(Read(s)).ops);
  }

  /** findOrCreateUserByIdentity. None stands for the throw at its end. */
  method FindOrCreateUserByIdentity(store: FileStore, p: Login) returns (user: Option<Row>)
    requires store.Valid()
    modifies store
    ensures store.Valid() && store.View() == Handled(old(store.View()), LoginBody(p))
    ensures user == LoginResult(Read(old(store.View())), p)
  {
    ghost var s := store.View();
    HandledLogin(s, p);
    LoginRead(s, p);
    var identity := TouchIdentity(store, p);
    if identity.Some? {
      var found := FindUser(store, UserOf(identity.value));
      if found.Some? { return found; }
    }
    var uid := CreateAccount(store, p);
    store.FlushNow();
    user := FindUser(store, uid);
  }

  method FindUser(store: FileStore, id: int) returns (user: Option<Row>)
    requires store.Valid() && store.loaded
    modifies store
    ensures store.Valid() && store.loaded && store.View() == old(store.View())
    ensures user == Find(ById(id), Rows(store.View().cache.value, Users))
  {
    var users := store.GetTable(Users);
    user := Find(ById(id), users);
  }

  lemma {:induction false} TouchKeepsUsers(d: Data, p: Login)
    ensures Rows(ApplyAll(d, TouchOps(d, p)), Users) == Rows(d, Users)
  {
    var ops := TouchOps(d, p);
    if ops != [] {
      assert ops == [ops[0]];
      ApplyOne(d, ops[0]);
      ApplyRows(d, ops[0], Users);
    } else {
      assert ApplyAll(d, []) == d;
    }
  }

  // ---- The list functions ----

  /** The chain of filters. */
  method ApplyFilters(filters: seq<Row -> bool>, all: seq<Row>) returns (rows: seq<Row>)
    ensures rows == L.Narrow(filters, all)
  {
    rows := all;
    assert filters[0..] == filters;
    for i := 0 to |filters|
      invariant L.Narrow(filters[i..], rows) == L.Narrow(filters, all)
    {
      assert filters[i..][1..] == filters[i + 1..];
      rows := Filter(filters[i], rows);
    }
  }

  lemma {:induction false} HandledList(s: Store, t: Table, leq: (Row, Row) -> bool, q: L.Query)
    ensures Handled(s, C.ListBody(leq, t, q))
            == if q.filters == [] then Mutate(Load(s), SortInPlace(t, leq)) else Load(s)
  {
    var body := C.ListBody(leq, t, q);
    if q.filters == [] { HandledOne(s, body, SortInPlace(t, leq)); } else { HandledNone(s, body); }
  }

  /** The filters, then the sort: of the live array when no filter was applied, of a copy else. */
  method ListTable(store: FileStore, t: Table, leq: (Row, Row) -> bool, q: L.Query) returns (answer: L.Answer)
    requires store.Valid()
    modifies store
    ensures store.Valid() && store.View() == Handled(old(store.View()), C.ListBody(leq, t, q))
    ensures answer == L.Answered(leq, q, Rows(Read(old(store.View())), t))
  {
    HandledList(store.View(), t, leq, q);
    var live := store.GetTable(t);
    var rows := ApplyFilters(q.filters, live);
    var total := |rows|;
    if q.filters == [] {
      rows := store.SortTable(t, leq);
    } else {
      rows := Sort(leq, rows);
    }
    answer := L.Answer(total, L.Page(rows, L.PageNo(q.page), L.PageSize(q.pageSize)));
  }

  method ListProperties(store: FileStore, text: C.Text, q: C.PropertyQuery) returns (answer: L.Answer)
    requires store.Valid()
    modifies store
    ensures store.Valid()
    ensures store.View()
            == Handled(old(store.View()), C.ListBody(C.PropertyLeq(text.collate), Properties, C.OfProperties(text, q)))
    ensures answer == L.Answered(C.PropertyLeq(text.collate), C.OfProperties(text, q),
                                 Rows(Read(old(store.View())), Properties))
  {
    answer := ListTable(store, Properties, C.PropertyLeq(text.collate), C.OfProperties(text, q));
  }

  method ListOrders(store: FileStore, text: C.Text, q: C.OrderQuery) returns (answer: L.Answer)
    requires store.Valid()
    modifies store
    ensures store.Valid()
    ensures store.View()
            == Handled(old(store.View()), C.ListBody(C.NewestLeq(text.collate), Orders, C.OfOrders(text, q)))
    ensures answer == L.Answered(C.NewestLeq(text.collate), C.OfOrders(text, q), Rows(Read(old(store.View())), Orders))
  {
    answer := ListTable(store, Orders, C.NewestLeq(text.collate), C.OfOrders(text, q));
  }

  /** categories.list always sorts the live table. */
  method ListCategories(store: FileStore) returns (rows: seq<Row>)
    requires store.Valid()
    modifies store
    ensures store.Valid()
    ensures store.View() == Handled(old(store.View()), C.ListBody(C.CategoryLeq(), Categories, L.Query([], None, None)))
    ensures rows == Sort(C.CategoryLeq(), Rows(Read(old(store.View())), Categories))
  {
    OneOp(Load(store.View()), SortInPlace(Categories, C.CategoryLeq()));
    rows := store.SortTable(Categories, C.CategoryLeq());
  }

  // ---- properties.bulkInsert ----

  const PROPERTY_DEFAULTS: seq<(Field, Value)> :=
    [(Status, Num(0)), (IsFeatured, Num(0)), (SortOrder, Num(0)), (Stock, Num(1)), (Other("price_cent"), Num(0))]

  function NewProperty(data: Row): Row {
    Defaulted(data, PROPERTY_DEFAULTS)
  }

  function Prepared(rows: seq<Row>): seq<Row> {
    if rows == [] then [] else Prepared(rows[..|rows| - 1]) + [NewProperty(rows[|rows| - 1])]
  }

  function Inserts(t: Table, rows: seq<Row>, now: string): seq<Mutation> {
    if rows == [] then [] else Inserts(t, rows[..|rows| - 1], now) + [Mutation.Insert(t, rows[|rows| - 1], now)]
  }

  function BulkBody(rows: seq<Row>, now: string): Data -> Effects {
    d => Effects(Inserts(Properties, Prepared(rows), now), true)
  }

  method InsertNext(store: FileStore, t: Table, row: Row, now: string)
    requires store.Valid() && store.loaded
    modifies store
    ensures store.Valid() && store.loaded
    ensures store.View() == Mutate(old(store.View()), Mutation.Insert(t, row, now))
  {
    var _ := store.Insert(t, row, now);
  }

  lemma {:induction false} InsertsPush(s: Store, t: Table, done: seq<Row>, row: Row, now: string)
    requires s.cache.Some?
    ensures MutateAll(s, Inserts(t, done + [row], now))
            == Mutate(MutateAll(s, Inserts(t, done, now)), Mutation.Insert(t, row, now))
  {
    Pushed(done, row);
    MoreOps(s, Inserts(t, done, now), Mutation.Insert(t, row, now));
  }

  lemma {:induction false} PreparedNext(rows: seq<Row>, k: nat)
    requires k < |rows|
    ensures Prepared(rows[..k + 1]) == Prepared(rows[..k]) + [NewProperty(rows[k])]
  {
    Prefix(rows, k);
  }

  /** The loop of bulkInsert, over create. */
  method CreateEach(store: FileStore, rows: seq<Row>, now: string) returns (count: nat)
    requires store.Valid() && store.loaded
    modifies store
    ensures store.Valid() && store.loaded && count == |rows|
    ensures store.View() == MutateAll(old(store.View()), Inserts(Properties, Prepared(rows), now))
  {
    ghost var s := store.View();
    Whole(rows);
    count := 0;
    while count < |rows|
      invariant count <= |rows|
      invariant store.Valid() && store.loaded
      invariant store.View() == MutateAll(s, Inserts(Properties, Prepared(rows[..count]), now))
    {
      PreparedNext(rows, count);
      InsertsPush(s, Properties, Prepared(rows[..count]), NewProperty(rows[count]), now);
      InsertNext(store, Properties, NewProperty(rows[count]), now);
      count := count + 1;
    }
  }

  method BulkInsert(store: FileStore, rows: seq<Row>, now: string) returns (count: nat)
    requires store.Valid()
    modifies store
    ensures store.Valid() && store.View() == Handled(old(store.View()), BulkBody(rows, now))
    ensures count == |rows|
  {
    HandledFlushed(store.View(), BulkBody(rows, now), Inserts(Properties, Prepared(rows), now));
    store.LoadData();
    count := CreateEach(store, rows, now);
    store.FlushNow();
  }

  function Numbered(rows: seq<Row>, next: int, now: string): (res: seq<Row>)
    ensures |res| == |rows|
  {
    if rows == [] then []
    else
      var n := |rows| - 1;
      Numbered(rows[..n], next, now) + [NewRow(rows[n], next + n, now)]
  }

  lemma {:induction false} InsertsNext(d: Data, t: Table, rows: seq<Row>, now: string)
    requires rows != []
    ensures ApplyAll(d, Inserts(t, rows, now))
            == ApplyData(ApplyAll(d, Inserts(t, rows[..|rows| - 1], now)), Mutation.Insert(t, rows[|rows| - 1], now))
  {
    var n := |rows| - 1;
    var ops, m := Inserts(t, rows[..n], now), Mutation.Insert(t, rows[n], now);
    assert (ops + [m])[..|ops|] == ops;
  }

  lemma {:induction false} NumberedNext(rows: seq<Row>, next: int, id: int, now: string)
    requires rows != [] && id == next + |rows| - 1
    ensures Numbered(rows, next, now) == Numbered(rows[..|rows| - 1], next, now) + [NewRow(rows[|rows| - 1], id, now)]
  {
  }

  /** A run of inserts appends the rows in order under consecutive ids, and touches no other table. */
  lemma {:induction false} InsertsMeaning(d: Data, t: Table, rows: seq<Row>, now: string, u: Table, e: Data)
    requires Counter(d, t) >= 1 && e == ApplyAll(d, Inserts(t, rows, now))
    ensures Rows(e, t) == Rows(d, t) + Numbered(rows, Counter(d, t), now) && Counter(e, t) == Counter(d, t) + |rows|
    ensures u != t ==> Rows(e, u) == Rows(d, u) && Counter(e, u) == Counter(d, u)
  {
    if rows == [] {
      Whole(Rows(d, t));
      assert ApplyAll(d, []) == d;
    } else {
      var n, c := |rows| - 1, Counter(d, t);
      var e0 := ApplyAll(d, Inserts(t, rows[..n], now));
      InsertsMeaning(d, t, rows[..n], now, u, e0);
      InsertsNext(d, t, rows, now);
      InsertStep(e0, t, rows[n], now, u, e);
      NumberedNext(rows, c, Counter(e0, t), now);
      Extend(Rows(d, t), Numbered(rows[..n], c, now), Rows(e0, t), NewRow(rows[n], Counter(e0, t), now), Rows(e, t));
    }
  }

  /** After an import the data file holds it, with whatever was unsaved before. */
  lemma {:induction false} BulkSaves(s: Store, rows: seq<Row>, now: string)
    requires rows != []
    ensures
      var s' := Handled(s, BulkBody(rows, now));
      && !s'.dirty && s'.handle.None?
      && s'.cache == Some(ApplyAll(Read(s), Inserts(Properties, Prepared(rows), now)))
      && s'.file == ImageOf(s'.cache.value)
  {
    var n := |Prepared(rows)| - 1;
    HandledFlushed(s, BulkBody(rows, now), Inserts(Properties, Prepared(rows), now));
    OpsApplied(Load(s), Inserts(Properties, Prepared(rows), now));
  }

  // ---- welfare_codes.useCode ----

  method UseCode(store: FileStore, code: string, now: string) returns (ok: bool)
    requires store.Valid()
    modifies store
    ensures store.Valid() && store.View() == Handled(old(store.View()), W.CodeBody(W.Use(code, now)))
    ensures ok == W.UseSucceeds(Read(old(store.View())), code)
  {
    ghost var s, body := store.View(), W.CodeBody(W.Use(code, now));
    var rows := store.GetTable(WelfareCodes);
    var wc := Find(W.HasCode(code), rows);
    if wc.None? || W.Spent(wc.value) {
      HandledNone(s, body);
      return false;
    }
    var updates := map[UsedCount := Num(W.Used(wc.value) + 1)];
    HandledOne(s, body, Mutation.Update(WelfareCodes, IdOf(wc.value), updates, now));
    ok := store.Update(WelfareCodes, IdOf(wc.value), updates, now);
  }

  // ---- orders ----

  datatype Answer = Done | NotFound | Forbidden | BadState

  method FindByOrderNo(store: FileStore, no: string) returns (order: Option<Row>)
    requires store.Valid()
    modifies store
    ensures store.Valid() && store.loaded && store.View() == Load(old(store.View()))
    ensures order == O.FindOrder(Read(old(store.View())), no)
  {
    var rows := store.GetTable(Orders);
    order := Find(O.HasNo(no), rows);
  }

  /** updateStatus finds the order again before it updates it. */
  method UpdateStatus(store: FileStore, no: string, status: Value, now: string) returns (ok: bool)
    requires store.Valid()
    modifies store
    ensures store.Valid() && store.loaded
    ensures
      var s := Load(old(store.View()));
      var order := O.FindOrder(s.cache.value, no);
      store.View()
      == if order.None? then s
         else Mutate(s, Mutation.Update(Orders, IdOf(order.value), map[Status := status], now))
  {
    var order := FindByOrderNo(store, no);
    if order.None? { return false; }
    ok := store.Update(Orders, IdOf(order.value), map[Status := status], now);
  }

  method LogChange(store: FileStore, no: string, field: string, before: Value, after: Value, operator: string,
                   now: string)
    requires store.Valid() && store.loaded
    modifies store
    ensures store.Valid() && store.loaded
    ensures store.View()
            == Mutate(old(store.View()),
                      Mutation.Insert(OrderChangeLogs, O.LogRow(no, field, before, after, operator), now))
  {
    var _ := store.Insert(OrderChangeLogs, O.LogRow(no, field, before, after, operator), now);
  }

  /** `POST /:orderNo/cancel`. The row found first is a value of its own: update puts a new row in its place,
      so the status logged is the one before the change. */
  method CancelOrder(store: FileStore, no: string, user: int, now: string) returns (answer: Answer)
    requires store.Valid()
    modifies store
    ensures store.Valid() && store.View() == Handled(old(store.View()), O.OrderBody(O.Cancel(no, user, now)))
    ensures
      var order := O.FindOrder(Read(old(store.View())), no);
      answer == if order.None? then NotFound
                else if Get(order.value, UserId) != Num(user) then Forbidden
                else if Get(order.value, Status) != O.PENDING then BadState else Done
  {
    ghost var s, body := store.View(), O.OrderBody(O.Cancel(no, user, now));
    var order := FindByOrderNo(store, no);
    if order.None? || Get(order.value, UserId) != Num(user) || Get(order.value, Status) != O.PENDING {
      HandledNone(s, body);
      return if order.None? then NotFound else if Get(order.value, UserId) != Num(user) then Forbidden else BadState;
    }
    HandledTwo(s, body, Mutation.Update(Orders, IdOf(order.value), map[Status := O.CANCELLED], now),
               Mutation.Insert(OrderChangeLogs, O.LogRow(no, "status", Get(order.value, Status), O.CANCELLED, "user"),
                               now));
    var _ := UpdateStatus(store, no, O.CANCELLED, now);
    LogChange(store, no, "status", Get(order.value, Status), O.CANCELLED, "user", now);
    answer := Done;
  }

  function StatusUpdate(order: Row, status: Value, now: string): Mutation {
    Mutation.Update(Orders, IdOf(order), map[Status := status], now)
  }

  function StatusLog(order: Row, no: string, status: Value, operator: string, now: string): Mutation {
    Mutation.Insert(OrderChangeLogs, O.LogRow(no, "status", Get(order, Status), status, operator), now)
  }

  lemma {:induction false} HandledSetStatus(s: Store, no: string, status: Value, now: string)
    ensures
      var order := O.FindOrder(Read(s), no);
      (if order.None? then Load(s)
       else MutateAll(Load(s),
                      [StatusUpdate(order.value, status, now), StatusLog(order.value, no, status, "admin", now)]))
      == Handled(s, O.OrderBody(O.SetStatus(no, status, now)))
  {
    var order := O.FindOrder(Read(s), no);
    if order.None? { NoOps(Load(s)); }
  }

  /** `PUT /:orderNo/status` of the admin routes. */
  method SetStatus(store: FileStore, no: string, status: Value, now: string) returns (answer: Answer)
    requires store.Valid()
    modifies store
    ensures store.Valid() && store.View() == Handled(old(store.View()), O.OrderBody(O.SetStatus(no, status, now)))
    ensures answer == if O.FindOrder(Read(old(store.View())), no).None? then NotFound else Done
  {
    ghost var s := Load(store.View());
    HandledSetStatus(store.View(), no, status, now);
    var order := FindByOrderNo(store, no);
    if order.None? { return NotFound; }
    TwoOps(s, StatusUpdate(order.value, status, now), StatusLog(order.value, no, status, "admin", now));
    var _ := UpdateStatus(store, no, status, now);
    LogChange(store, no, "status", Get(order.value, Status), status, "admin", now);
    answer := Done;
  }

  // ---- Deletes ----

  predicate HasId(d: Data, t: Table, id: int) {
    Find(ById(id), Rows(d, t)).Some?
  }

  /** Whether a delete finds what it is to delete, and may delete it. */
  predicate Deletes(d: Data, c: R.DeleteCall) {
    match c
    case DeleteOrder(no) => O.FindOrder(d, no).Some? && HasId(d, Orders, IdOf(O.FindOrder(d, no).value))
    case DeleteProduct(id) => HasId(d, Products, id)
    case DeleteCode(id) => HasId(d, WelfareCodes, id)
    case DeleteCategory(id) =>
      Find(Pointing(CategoryId, Num(id)), Rows(d, Properties)).None? && HasId(d, Categories, id)
    case DeleteProperty(id) => HasId(d, Properties, id)
  }

  lemma {:induction false} ChildrenGone(s: Store, child: Table, p: Row -> bool, parent: Table)
    requires s.cache.Some? && child != parent
    ensures Load(Mutate(s, Mutation.RemoveWhere(child, p))) == Mutate(s, Mutation.RemoveWhere(child, p))
    ensures Rows(Mutate(s, Mutation.RemoveWhere(child, p)).cache.value, parent) == Rows(s.cache.value, parent)
  {
    ApplyRows(s.cache.value, Mutation.RemoveWhere(child, p), parent);
  }

  /** A delete that first removes the rows that point at what it deletes. */
  method Cascade(store: FileStore, child: Table, f: Field, v: Value, parent: Table, id: int) returns (ok: bool)
    requires store.Valid() && child != parent
    modifies store
    ensures store.Valid() && store.loaded
    ensures store.View()
            == MutateAll(Load(old(store.View())),
                         [Mutation.RemoveWhere(child, Pointing(f, v)), Mutation.Remove(parent, id)])
    ensures ok == HasId(Read(old(store.View())), parent, id)
  {
    ChildrenGone(Load(store.View()), child, Pointing(f, v), parent);
    TwoOps(Load(store.View()), Mutation.RemoveWhere(child, Pointing(f, v)), Mutation.Remove(parent, id));
    var _ := store.RemoveWhere(child, Pointing(f, v));
    ok := store.Remove(parent, id);
  }

  /** The five deletes: orders.remove, products.remove, welfare_codes.remove, properties.remove, and the category
      route, which refuses while a property has the category. */
  method Delete(store: FileStore, c: R.DeleteCall) returns (ok: bool)
    requires store.Valid()
    modifies store
    ensures store.Valid() && store.View() == Handled(old(store.View()), R.DeleteBody(c))
    ensures ok == Deletes(Read(old(store.View())), c)
  {
    ghost var s := Load(store.View());
    NoOps(s);
    match c
    case DeleteOrder(no) =>
      var order := FindByOrderNo(store, no);
      if order.None? { return false; }
      ok := Cascade(store, OrderItems, OrderNo, Str(no), Orders, IdOf(order.value));
    case DeleteProduct(id) =>
      ok := Cascade(store, ProductSkus, ProductId, Num(id), Products, id);
    case DeleteCode(id) =>
      ok := Cascade(store, WelfareCodeItems, WelfareCodeId, Num(id), WelfareCodes, id);
    case DeleteCategory(id) =>
      var rows := store.GetTable(Properties);
      if Find(Pointing(CategoryId, Num(id)), rows).Some? { return false; }
      OneOp(s, Mutation.Remove(Categories, id));
      ok := store.Remove(Categories, id);
    case DeleteProperty(id) =>
      OneOp(s, Mutation.Remove(Properties, id));
      ok := store.Remove(Properties, id);
  }

  // ---- initDefaultData ----

  function Named(name: string, sortOrder: int): Row {
    map[Name := Str(name), SortOrder := Num(sortOrder), Status := Num(1)]
  }

  const DEFAULT_CATEGORIES: seq<Row> :=
    [Named("住宅", 100), Named("公寓", 90), Named("别墅", 80), Named("商铺", 70), Named("写字楼", 60)]

  /** `admin` is the record of the default administrator. */
  function AdminOps(d: Data, admin: Row, now: string): seq<Mutation> {
    if Rows(d, Admins) == [] then [Mutation.Insert(Admins, admin, now)] else []
  }

  function InitOps(d: Data, admin: Row, now: string): seq<Mutation> {
    CategoryOps(d, now) + AdminOps(d, admin, now)
  }

  function InitBody(admin: Row, now: string): Data -> Effects {
    d => Effects(InitOps(d, admin, now), true)
  }

  /** `defaultCategories.forEach(cat => insert('categories', cat))` */
  method InsertEach(store: FileStore, t: Table, rows: seq<Row>, now: string)
    requires store.Valid() && store.loaded
    modifies store
    ensures store.Valid() && store.loaded
    ensures store.View() == MutateAll(old(store.View()), Inserts(t, rows, now))
  {
    ghost var s := store.View();
    Whole(rows);
    for i := 0 to |rows|
      invariant store.Valid() && store.loaded && store.View() == MutateAll(s, Inserts(t, rows[..i], now))
    {
      Prefix(rows, i);
      InsertsPush(s, t, rows[..i], rows[i], now);
      InsertNext(store, t, rows[i], now);
    }
  }

  function CategoryOps(d: Data, now: string): seq<Mutation> {
    if Rows(d, Categories) == [] then Inserts(Categories, DEFAULT_CATEGORIES, now) else []
  }

  method InitCategories(store: FileStore, now: string)
    requires store.Valid()
    modifies store
    ensures store.Valid() && store.loaded
    ensures store.View() == MutateAll(Load(old(store.View())), CategoryOps(Read(old(store.View())), now))
  {
    NoOps(Load(store.View()));
    var categories := store.GetTable(Categories);
    if categories == [] { InsertEach(store, Categories, DEFAULT_CATEGORIES, now); }
  }

  lemma {:induction false} CategoriesApart(d: Data, now: string)
    ensures Rows(ApplyAll(d, CategoryOps(d, now)), Admins) == Rows(d, Admins)
    ensures Rows(ApplyAll(d, CategoryOps(d, now)), Categories) != []
  {
    assert ApplyAll(d, []) == d;
    if Rows(d, Categories) == [] {
      InsertsElsewhere(d, Categories, DEFAULT_CATEGORIES, now, Admins);
      var n := |DEFAULT_CATEGORIES| - 1;
      var ops := Inserts(Categories, DEFAULT_CATEGORIES[..n], now);
      var m := Mutation.Insert(Categories, DEFAULT_CATEGORIES[n], now);
      assert (ops + [m])[..|ops|] == ops;
      ApplyRows(ApplyAll(d, ops), m, Categories);
    }
  }

  lemma {:induction false} InsertsElsewhere(d: Data, t: Table, rows: seq<Row>, now: string, u: Table)
    requires u != t
    ensures Rows(ApplyAll(d, Inserts(t, rows, now)), u) == Rows(d, u)
  {
    if rows == [] {
      assert ApplyAll(d, []) == d;
    } else {
      var n := |rows| - 1;
      InsertsElsewhere(d, t, rows[..n], now, u);
      var ops, m := Inserts(t, rows[..n], now), Mutation.Insert(t, rows[n], now);
      assert (ops + [m])[..|ops|] == ops;
      ApplyRows(ApplyAll(d, ops), m, u);
    }
  }

  method InitAdmins(store: FileStore, admin: Row, now: string)
    requires store.Valid() && store.loaded
    modifies store
    ensures store.Valid() && store.loaded
    ensures store.View() == MutateAll(old(store.View()), AdminOps(old(store.View()).cache.value, admin, now))
  {
    NoOps(store.View());
    OneOp(store.View(), Mutation.Insert(Admins, admin, now));
    var admins := store.GetTable(Admins);
    if admins == [] { var _ := store.Insert(Admins, admin, now); }
  }

  lemma {:induction false} HandledInit(s: Store, admin: Row, now: string)
    ensures
      var s1 := MutateAll(Load(s), CategoryOps(Read(s), now));
      Handled(s, InitBody(admin, now)) == StoreSpec.FlushNow(MutateAll(s1, AdminOps(s1.cache.value, admin, now)))
  {
    var d := Read(s);
    OpsApplied(Load(s), CategoryOps(d, now));
    CategoriesApart(d, now);
    AppendOps(Load(s), CategoryOps(d, now), AdminOps(d, admin, now));
    HandledFlushed(s, InitBody(admin, now), InitOps(d, admin, now));
  }

  method InitDefaultData(store: FileStore, admin: Row, now: string)
    requires store.Valid()
    modifies store
    ensures store.Valid() && store.View() == Handled(old(store.View()), InitBody(admin, now))
  {
    HandledInit(store.View(), admin, now);
    InitCategories(store, now);
    InitAdmins(store, admin, now);
    store.FlushNow();
  }

  /** After one start-up the tables have their defaults, and every later start-up in the process leaves the
      whole module state as it is: counters, timers and data file included. */
  lemma {:induction false} SecondInitChangesNothing(s: Store, admin: Row, now: string, later: string)
    ensures
      var s' := Handled(s, InitBody(admin, now));
      && Rows(Read(s'), Categories) != [] && Rows(Read(s'), Admins) != []
      && Handled(s', InitBody(admin, later)) == s'
  {
    var s1 := Load(s);
    var d := s1.cache.value;
    var ops := InitOps(d, admin, now);
    OpsApplied(s1, ops);
    InitFills(d, admin, now, ApplyAll(d, ops));
    var s' := Handled(s, InitBody(admin, now));
    assert s'.cache == Some(ApplyAll(d, ops));
    NoOps(s');
  }

  lemma {:induction false} InitFills(d: Data, admin: Row, now: string, e: Data)
    requires e == ApplyAll(d, InitOps(d, admin, now))
    ensures Rows(e, Categories) != [] && Rows(e, Admins) != []
  {
    var a := CategoryOps(d, now);
    CategoriesApart(d, now);
    if Rows(d, Admins) == [] {
      AdminAdded(d, a, admin, now);
      assert InitOps(d, admin, now) == a + [Mutation.Insert(Admins, admin, now)];
    } else {
      Whole(a);
    }
  }

  lemma {:induction false} AdminAdded(d: Data, a: seq<Mutation>, admin: Row, now: string)
    ensures
      var e := ApplyAll(d, a + [Mutation.Insert(Admins, admin, now)]);
      Rows(e, Categories) == Rows(ApplyAll(d, a), Categories) && Rows(e, Admins) != []
  {
    var m := Mutation.Insert(Admins, admin, now);
    Pushed(a, m);
    InsertStep(ApplyAll(d, a), Admins, admin, now, Categories, ApplyData(ApplyAll(d, a), m));
  }
}
