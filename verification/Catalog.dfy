/** The comparators and filters of `properties.ts`, `orders.ts` and `categories.ts`, and their list functions
    as handlers of the store. String collation and lower-casing are parameters. */
module Catalog {
  import opened Values
  import opened Seqs
  import opened Tables
  import opened StoreSpec
  import opened Machines
  import opened Listing

  /** `a.localeCompare(b)` and `s.toLowerCase()`, and the `phone` of a JSON address, if it has one. */
  datatype Text = Text(collate: (string, string) -> int, lower: string -> string, phoneOf: string -> Option<string>)

  ghost predicate CollationOk(collate: (string, string) -> int) {
    && (forall a, b :: collate(a, b) <= 0 || collate(b, a) <= 0)
    && (forall a, b, c :: collate(a, b) <= 0 && collate(b, c) <= 0 ==> collate(a, c) <= 0)
  }

  function Created(r: Row): string { StrOrEmpty(Get(r, CreatedAt)) }
  function Featured(r: Row): int { NumOr0(Get(r, IsFeatured)) }
  function Rank(r: Row): int { NumOr0(Get(r, SortOrder)) }

  /** The property comparator: is_featured, then sort_order, then created_at, each descending. */
  function CompareProperties(collate: (string, string) -> int, a: Row, b: Row): int {
    if Featured(b) != Featured(a) then Featured(b) - Featured(a)
    else if Rank(b) != Rank(a) then Rank(b) - Rank(a)
    else collate(Created(b), Created(a))
  }

  function PropertyLeq(collate: (string, string) -> int): (Row, Row) -> bool {
    (a, b) => CompareProperties(collate, a, b) <= 0
  }

  /** Newest first: the comparator of orders and welfare codes. */
  function NewestLeq(collate: (string, string) -> int): (Row, Row) -> bool {
    (a, b) => collate(Created(b), Created(a)) <= 0
  }

  /** Categories: sort_order descending, then id ascending. */
  function CompareCategories(a: Row, b: Row): int {
    if Rank(b) != Rank(a) then Rank(b) - Rank(a) else NumOr0(Get(a, Id)) - NumOr0(Get(b, Id))
  }

  function CategoryLeq(): (Row, Row) -> bool {
    (a, b) => CompareCategories(a, b) <= 0
  }

  lemma {:induction false} CategoryOrder()
    ensures TotalPreorder(CategoryLeq())
  {
  }

  lemma {:induction false} NewestOrder(collate: (string, string) -> int)
    requires CollationOk(collate)
    ensures TotalPreorder(NewestLeq(collate))
  {
    var newest := NewestLeq(collate);
    forall a, b ensures newest(a, b) || newest(b, a) {
      assert collate(Created(a), Created(b)) <= 0 || collate(Created(b), Created(a)) <= 0;
    }
    forall a, b, c | newest(a, b) && newest(b, c) ensures newest(a, c) {
      assert collate(Created(c), Created(b)) <= 0 && collate(Created(b), Created(a)) <= 0;
    }
  }

  lemma {:induction false} PropertyOrder(collate: (string, string) -> int)
    requires CollationOk(collate)
    ensures TotalPreorder(PropertyLeq(collate))
  {
    var leq := PropertyLeq(collate);
    forall a, b ensures leq(a, b) || leq(b, a) {
      assert collate(Created(a), Created(b)) <= 0 || collate(Created(b), Created(a)) <= 0;
    }
    forall a, b, c | leq(a, b) && leq(b, c) ensures leq(a, c) {
      assert collate(Created(c), Created(b)) <= 0 && collate(Created(b), Created(a)) <= 0
             ==> collate(Created(c), Created(a)) <= 0;
    }
  }

  /** Edits that leave the id and the three sort fields alone cannot be seen by the comparator, so the
      results about invisible lists cover them. */
  lemma {:induction false} PlainEditsUnseen(collate: (string, string) -> int, id: int, updates: Row, now: string)
    requires Id !in updates && IsFeatured !in updates && SortOrder !in updates && CreatedAt !in updates
    ensures Unseen(PropertyLeq(collate), id, updates, now)
    ensures Unseen(NewestLeq(collate), id, updates, now)
  {
    var g := EditRow(id, updates, now);
    forall a: Row, b: Row ensures SeenAlike(PropertyLeq(collate), g, a, b) && SeenAlike(NewestLeq(collate), g, a, b) {
      EditSeenAlike(collate, id, updates, now, a, b);
    }
  }

  lemma {:induction false} EditSeenAlike(collate: (string, string) -> int, id: int, updates: Row, now: string, a: Row,
                                         b: Row)
    requires IsFeatured !in updates && SortOrder !in updates && CreatedAt !in updates
    ensures SeenAlike(PropertyLeq(collate), EditRow(id, updates, now), a, b)
    ensures SeenAlike(NewestLeq(collate), EditRow(id, updates, now), a, b)
  {
    KeysStay(id, updates, now, a);
    KeysStay(id, updates, now, b);
  }

  lemma {:induction false} KeysStay(id: int, updates: Row, now: string, r: Row)
    requires IsFeatured !in updates && SortOrder !in updates && CreatedAt !in updates
    ensures
      var x := EditRow(id, updates, now)(r);
      Featured(x) == Featured(r) && Rank(x) == Rank(r) && Created(x) == Created(r)
  {
    var x := EditRow(id, updates, now)(r);
    assert Get(x, IsFeatured) == Get(r, IsFeatured);
    assert Get(x, SortOrder) == Get(r, SortOrder);
    assert Get(x, CreatedAt) == Get(r, CreatedAt);
  }

  /** Two rows, and an edit of sort_order that makes them tie: the order of the ties depends on whether a
      list ran before the edit. */
  lemma {:induction false} SortKeyEditIsSeen(collate: (string, string) -> int)
    requires CollationOk(collate)
    ensures
      var y: Row := map[Id := Num(1)];
      var x: Row := map[Id := Num(2), SortOrder := Num(1)];
      var u: Row := map[SortOrder := Num(0)];
      var leq := PropertyLeq(collate);
      && IdsOk([y, x], 3)
      && Sort(leq, UpdateRow([y, x], 2, u, "")) != Sort(leq, UpdateRow(Sort(leq, [y, x]), 2, u, ""))
  {
    var y: Row := map[Id := Num(1)];
    var x: Row := map[Id := Num(2), SortOrder := Num(1)];
    var u: Row := map[SortOrder := Num(0)];
    var z := Touch(x, u, "");
    EditedTies(collate, y, x, u, z);
    PairEdit(PropertyLeq(collate), y, x, u, z);
    PairIds(y, x);
  }

  lemma {:induction false} PairIds(y: Row, x: Row)
    requires Get(y, Id) == Num(1) && Get(x, Id) == Num(2)
    ensures IdsOk([y, x], 3)
  {
  }

  lemma {:induction false} EditedTies(collate: (string, string) -> int, y: Row, x: Row, u: Row, z: Row)
    requires CollationOk(collate) && u == map[SortOrder := Num(0)] && z == Touch(x, u, "")
    requires y == map[Id := Num(1)] && x == map[Id := Num(2), SortOrder := Num(1)]
    ensures PropertyLeq(collate)(y, z) && PropertyLeq(collate)(z, y) && !PropertyLeq(collate)(y, x)
    ensures Get(z, Id) == Num(2)
  {
    PairFields(y, x, u);
    EditedFields(x, u, z);
    SameKeys(collate, y, z);
    LowerRank(collate, y, x);
  }

  lemma {:induction false} PairFields(y: Row, x: Row, u: Row)
    requires y == map[Id := Num(1)] && x == map[Id := Num(2), SortOrder := Num(1)] && u == map[SortOrder := Num(0)]
    ensures Featured(y) == 0 && Featured(x) == 0 && Created(y) == "" && Created(x) == "" && Rank(y) == 0 && Rank(x) == 1
    ensures Get(x, Id) == Num(2) && SortOrder in u && u[SortOrder] == Num(0)
    ensures Id !in u && IsFeatured !in u && CreatedAt !in u
  {
  }

  lemma {:induction false} EditedFields(x: Row, u: Row, z: Row)
    requires z == Touch(x, u, "") && SortOrder in u && Id !in u && IsFeatured !in u && CreatedAt !in u
    ensures Get(z, Id) == Get(x, Id) && Featured(z) == Featured(x) && Created(z) == Created(x)
            && Rank(z) == NumOr0(u[SortOrder])
  {
    assert Get(z, SortOrder) == u[SortOrder];
    assert Get(z, IsFeatured) == Get(x, IsFeatured) && Get(z, CreatedAt) == Get(x, CreatedAt);
  }

  lemma {:induction false} SameKeys(collate: (string, string) -> int, y: Row, z: Row)
    requires Featured(y) == Featured(z) && Rank(y) == Rank(z) && Created(y) == Created(z) && CollationOk(collate)
    ensures PropertyLeq(collate)(y, z) && PropertyLeq(collate)(z, y)
  {
    assert collate(Created(y), Created(z)) <= 0;
  }

  lemma {:induction false} LowerRank(collate: (string, string) -> int, y: Row, x: Row)
    requires Featured(y) == Featured(x) && Rank(y) < Rank(x)
    ensures !PropertyLeq(collate)(y, x)
  {
    assert CompareProperties(collate, y, x) > 0;
  }

  lemma {:induction false} PairEdit(leq: (Row, Row) -> bool, y: Row, x: Row, u: Row, z: Row)
    requires Get(y, Id) == Num(1) && Get(x, Id) == Num(2) && Get(z, Id) == Num(2)
    requires z == Touch(x, u, "") && leq(y, z) && leq(z, y) && !leq(y, x)
    ensures Sort(leq, UpdateRow([y, x], 2, u, "")) == [y, z]
    ensures Sort(leq, UpdateRow(Sort(leq, [y, x]), 2, u, "")) == [z, y]
    ensures [y, z][0] != [z, y][0]
  {
    SortPair(leq, y, x);
    SortPair(leq, y, z);
    SortPair(leq, z, y);
    assert !ById(2)(y) && ById(2)(x);
    assert IndexWhere(ById(2), [y, x]) == 1 by { assert ById(2)([y, x][1]) && !ById(2)([y, x][0]); }
    assert IndexWhere(ById(2), [x, y]) == 0 by { assert ById(2)([x, y][0]); }
    assert [y, x][1 := z] == [y, z] && [x, y][0 := z] == [z, y];
  }

  lemma {:induction false} SortPair(leq: (Row, Row) -> bool, a: Row, b: Row)
    ensures Sort(leq, [a, b]) == if leq(a, b) then [a, b] else [b, a]
  {
    assert [a] + [b] == [a, b] && [] + [a] == [a];
    SortPush(leq, [a], b);
    SortPush(leq, [], a);
    InsertPush(leq, b, [], a);
  }

  // ---- Filters ----

  /** `s.includes(kw)` */
  predicate Includes(s: string, kw: string) {
    exists i | 0 <= i <= |s| :: FoundAt(s, kw, i)
  }

  predicate FoundAt(s: string, kw: string, i: nat) {
    i + |kw| <= |s| && s[i..i + |kw|] == kw
  }

  predicate FieldIncludes(r: Row, f: Field, kw: string) {
    Get(r, f).Str? && Includes(Get(r, f).s, kw)
  }

  predicate LowerIncludes(text: Text, r: Row, f: Field, kw: string) {
    Get(r, f).Str? && Includes((text.lower)(Get(r, f).s), kw)
  }

  predicate Since(r: Row, at: string) {
    Get(r, CreatedAt).Str? && Get(r, CreatedAt).s != "" && StrLeq(at, Get(r, CreatedAt).s)
  }

  predicate Until(r: Row, at: string) {
    Get(r, CreatedAt).Str? && Get(r, CreatedAt).s != "" && StrLeq(Get(r, CreatedAt).s, at)
  }

  predicate On(o: Option<string>) {
    o.Some? && o.value != ""
  }

  datatype PropertyQuery = PropertyQuery(
    communityName: Option<string>, customerPhone: Option<string>, authCode: Option<string>,
    startAt: Option<string>, endAt: Option<string>, keyword: Option<string>,
    categoryId: Option<int>, status: Option<Value>, page: Option<int>, pageSize: Option<int>)

  function PropertyFilters(text: Text, q: PropertyQuery): seq<Row -> bool> {
    (if On(q.communityName)
     then [(r: Row) => LowerIncludes(text, r, CommunityName, (text.lower)(q.communityName.value))]
     else [])
    + (if On(q.customerPhone) then [(r: Row) => FieldIncludes(r, CustomerPhone, q.customerPhone.value)] else [])
    + (if On(q.authCode) then [(r: Row) => FieldIncludes(r, AuthCode, q.authCode.value)] else [])
    + (if On(q.startAt) then [(r: Row) => Since(r, q.startAt.value)] else [])
    + (if On(q.endAt) then [(r: Row) => Until(r, q.endAt.value)] else [])
    + (if On(q.keyword) then [(r: Row) => LowerIncludes(text, r, CommunityName, (text.lower)(q.keyword.value))
                                          || LowerIncludes(text, r, DetailAddress, (text.lower)(q.keyword.value))]
       else [])
    + (if q.categoryId.Some? && q.categoryId.value > 0
       then [(r: Row) => Get(r, CategoryId) == Num(q.categoryId.value)]
       else [])
    + (if q.status.Some? then [(r: Row) => Get(r, Status) == q.status.value] else [])
  }

  function OfProperties(text: Text, q: PropertyQuery): Query {
    Query(PropertyFilters(text, q), q.page, q.pageSize)
  }

  datatype OrderQuery = OrderQuery(
    status: Option<string>, orderNo: Option<string>, userId: Option<int>, phone: Option<string>,
    startAt: Option<string>, endAt: Option<string>, page: Option<int>, pageSize: Option<int>)

  predicate PhoneIncludes(text: Text, r: Row, kw: string) {
    var a := Get(r, Other("address_snapshot"));
    a.Str? && a.s != "" && (text.phoneOf)(a.s).Some? && Includes((text.phoneOf)(a.s).value, kw)
  }

  function OrderFilters(text: Text, q: OrderQuery): seq<Row -> bool> {
    (if On(q.status) then [(r: Row) => Get(r, Status) == Str(q.status.value)] else [])
    + (if On(q.orderNo) then [(r: Row) => FieldIncludes(r, OrderNo, q.orderNo.value)] else [])
    + (if q.userId.Some? && q.userId.value != 0 then [(r: Row) => Get(r, UserId) == Num(q.userId.value)] else [])
    + (if On(q.phone) then [(r: Row) => PhoneIncludes(text, r, q.phone.value)] else [])
    + (if On(q.startAt) then [(r: Row) => Since(r, q.startAt.value)] else [])
    + (if On(q.endAt) then [(r: Row) => Until(r, q.endAt.value)] else [])
  }

  function OfOrders(text: Text, q: OrderQuery): Query {
    Query(OrderFilters(text, q), q.page, q.pageSize)
  }

  /** What a property answer contains: the rows that pass every active condition, in the order of the
      comparator with ties in table order, cut to the page; and the total counts all of them. */
  lemma {:induction false} PropertyListMeaning(text: Text, q: PropertyQuery, rows: seq<Row>, r: Row)
    requires CollationOk(text.collate)
    ensures
      var leq := PropertyLeq(text.collate);
      var fs := PropertyFilters(text, q);
      var whole := Sort(leq, Filter(AllOf(fs), rows));
      var answer := Answered(leq, OfProperties(text, q), rows);
      && answer == Answer(|whole|, Page(whole, PageNo(q.page), PageSize(q.pageSize)))
      && Sorted(leq, whole)
      && Filter(ClassOf(leq, r), whole) == Filter(ClassOf(leq, r), Filter(AllOf(fs), rows))
      && (r in whole <==> r in rows && All(fs, r))
  {
    var leq := PropertyLeq(text.collate);
    var fs := PropertyFilters(text, q);
    PropertyOrder(text.collate);
    NarrowIsFilter(fs, rows);
    SortSorts(leq, Filter(AllOf(fs), rows));
    SortStable(leq, Filter(AllOf(fs), rows), r);
    SortPermutes(leq, Filter(AllOf(fs), rows));
    PermutationMember(Sort(leq, Filter(AllOf(fs), rows)), Filter(AllOf(fs), rows), r);
    FilterMember(AllOf(fs), rows, r);
  }

  // ---- Calls on one table as operations of the store ----

  function CallOps(leq: (Row, Row) -> bool, t: Table, c: Call): seq<Mutation> {
    match c
    case Create(row, now) => [Insert(t, row, now)]
    case Delete(id) => [Remove(t, id)]
    case DeleteWhere(p) => [RemoveWhere(t, p)]
    case Edit(id, updates, now) => [Update(t, id, updates, now)]
    case List(q) => if q.filters == [] then [SortInPlace(t, leq)] else []
  }

  function ListBody(leq: (Row, Row) -> bool, t: Table, q: Query): Data -> Effects {
    d => Effects(CallOps(leq, t, List(q)), false)
  }

  function ShelfOf(d: Data, t: Table): Shelf {
    Shelf(Rows(d, t), Counter(d, t))
  }

  lemma {:induction false} CreateCall(leq: (Row, Row) -> bool, d: Data, t: Table, c: Call, u: Table)
    requires Counter(d, t) >= 1 && c.Create?
    ensures ShelfOf(ApplyAll(d, CallOps(leq, t, c)), t) == Step(leq, true, ShelfOf(d, t), c)
    ensures u != t ==> ShelfOf(ApplyAll(d, CallOps(leq, t, c)), u) == ShelfOf(d, u)
  {
    var m := Insert(t, c.row, c.now);
    ApplyOne(d, m);
    InsertStep(d, t, c.row, c.now, u, ApplyData(d, m));
  }

  lemma {:induction false} OneCall(d: Data, m: Mutation, u: Table)
    requires !m.Insert? && !m.Bump?
    ensures ShelfOf(ApplyAll(d, [m]), m.t) == Shelf(NewRows(d, m), Counter(d, m.t))
    ensures u != m.t ==> ShelfOf(ApplyAll(d, [m]), u) == ShelfOf(d, u)
  {
    ApplyOne(d, m);
    ApplyRows(d, m, m.t);
    ApplyRows(d, m, u);
  }

  lemma {:induction false} OtherCall(leq: (Row, Row) -> bool, d: Data, t: Table, c: Call, u: Table)
    requires !c.Create?
    ensures ShelfOf(ApplyAll(d, CallOps(leq, t, c)), t) == Step(leq, true, ShelfOf(d, t), c)
    ensures u != t ==> ShelfOf(ApplyAll(d, CallOps(leq, t, c)), u) == ShelfOf(d, u)
  {
    var ops := CallOps(leq, t, c);
    if ops == [] {
      assert ApplyAll(d, []) == d;
    } else {
      OneCall(d, ops[0], u);
    }
  }

  /** The store moves one table as Listing's calls do, and leaves the others alone. */
  lemma {:induction false} CallsAreMutations(leq: (Row, Row) -> bool, d: Data, t: Table, c: Call, u: Table)
    requires Counter(d, t) >= 1
    ensures ShelfOf(ApplyAll(d, CallOps(leq, t, c)), t) == Step(leq, true, ShelfOf(d, t), c)
    ensures u != t ==> ShelfOf(ApplyAll(d, CallOps(leq, t, c)), u) == ShelfOf(d, u)
  {
    if c.Create? { CreateCall(leq, d, t, c, u); } else { OtherCall(leq, d, t, c, u); }
  }

  /** The answers of a run of calls on one table of the store. */
  function StoreAnswers(leq: (Row, Row) -> bool, t: Table, d: Data, calls: seq<Call>): seq<Answer>
    decreases |calls|
  {
    if calls == [] then []
    else (if calls[0].List? then [Answered(leq, calls[0].q, Rows(d, t))] else [])
         + StoreAnswers(leq, t, ApplyAll(d, CallOps(leq, t, calls[0])), calls[1..])
  }

  lemma {:induction false} StoreAnswersByShelf(leq: (Row, Row) -> bool, t: Table, d: Data, calls: seq<Call>)
    requires Counter(d, t) >= 1
    ensures StoreAnswers(leq, t, d, calls) == Answers(leq, true, ShelfOf(d, t), calls)
    decreases |calls|
  {
    if calls != [] {
      var e := ApplyAll(d, CallOps(leq, t, calls[0]));
      CallsAreMutations(leq, d, t, calls[0], t);
      assert ShelfOf(e, t).next >= ShelfOf(d, t).next;
      StoreAnswersByShelf(leq, t, e, calls[1..]);
    }
  }

  /** The store, which sorts its live tables, answers every run of calls like one that never sorts them. */
  lemma {:induction false} StoreListsAreInvisible(leq: (Row, Row) -> bool, t: Table, d: Data, calls: seq<Call>)
    requires TotalPreorder(leq) && DataOk(d)
    requires forall i :: 0 <= i < |calls| ==> KeepsOrder(leq, calls[i])
    ensures StoreAnswers(leq, t, d, calls) == Answers(leq, false, ShelfOf(d, t), calls)
  {
    assert IdsOk(Rows(d, t), Counter(d, t));
    StoreAnswersByShelf(leq, t, d, calls);
    ListsAreInvisible(leq, ShelfOf(d, t), calls);
  }

  // ---- Lists over runs of the machine ----

  /** A call on the table, or any handler that leaves the table alone. */
  datatype ShelfStep = OnShelf(c: Call) | Elsewhere(body: Body)

  function BodyOfStep(leq: (Row, Row) -> bool, t: Table, s: ShelfStep): Body {
    match s
    case OnShelf(c) => d => Effects(CallOps(leq, t, c), false)
    case Elsewhere(body) => body
  }

  function BodiesOf(leq: (Row, Row) -> bool, t: Table, steps: seq<ShelfStep>): seq<Body> {
    if steps == [] then []
    else BodiesOf(leq, t, steps[..|steps| - 1]) + [BodyOfStep(leq, t, steps[|steps| - 1])]
  }

  function CallsOf(steps: seq<ShelfStep>): seq<Call> {
    if steps == [] then []
    else CallsOf(steps[..|steps| - 1]) + if steps[|steps| - 1].OnShelf? then [steps[|steps| - 1].c] else []
  }

  /** The comparator sees no edit of the table, and the other handlers do not touch it. */
  ghost predicate StepKeepsOrder(leq: (Row, Row) -> bool, t: Table, s: ShelfStep) {
    match s
    case OnShelf(c) => KeepsOrder(leq, c)
    case Elsewhere(body) => forall d, i :: 0 <= i < |body(d).ops| ==> body(d).ops[i].t != t
  }

  lemma {:induction false} ElsewhereKeeps(d: Data, t: Table, ops: seq<Mutation>)
    requires forall i :: 0 <= i < |ops| ==> ops[i].t != t
    ensures ShelfOf(ApplyAll(d, ops), t) == ShelfOf(d, t)
  {
    if ops != [] {
      ElsewhereKeeps(d, t, ops[..|ops| - 1]);
      ApplyRows(ApplyAll(d, ops[..|ops| - 1]), ops[|ops| - 1], t);
    }
  }

  lemma {:induction false} MovedPush(leq: (Row, Row) -> bool, live: bool, s: Shelf, calls: seq<Call>, c: Call)
    ensures Moved(leq, live, s, calls + [c]) == Step(leq, live, Moved(leq, live, s, calls), c)
  {
    Pushed(calls, c);
  }

  /** The table after a history of handlers sorts as in a store that makes the same calls and never sorts. */
  lemma {:induction false} ReplaySortsAlike(leq: (Row, Row) -> bool, t: Table, d: Data, steps: seq<ShelfStep>)
    requires TotalPreorder(leq) && IdsOk(Rows(d, t), Counter(d, t))
    requires forall i :: 0 <= i < |steps| ==> StepKeepsOrder(leq, t, steps[i])
    ensures SameShelf(leq, ShelfOf(Replay(d, BodiesOf(leq, t, steps)), t),
                      Moved(leq, false, ShelfOf(d, t), CallsOf(steps)))
  {
    if steps != [] {
      var init, last := steps[..|steps| - 1], steps[|steps| - 1];
      var before := Replay(d, BodiesOf(leq, t, init));
      var other := Moved(leq, false, ShelfOf(d, t), CallsOf(init));
      ReplaySortsAlike(leq, t, d, init);
      ReplayPush(d, BodiesOf(leq, t, init), BodyOfStep(leq, t, last));
      assert StepKeepsOrder(leq, t, last);
      match last
      case OnShelf(c) =>
        CallsAreMutations(leq, before, t, c, t);
        StepKeepsSame(leq, ShelfOf(before, t), other, c);
        MovedPush(leq, false, ShelfOf(d, t), CallsOf(init), c);
      case Elsewhere(body) =>
        ElsewhereKeeps(before, t, body(before).ops);
        Whole(CallsOf(init));
    }
  }

  /** After every run of the machine, with timers, transactions and crashes between, a list in memory answers as a
      store that never sorts, after the calls whose changes are in memory; and so does a list after a crash, for
      the calls whose changes are on disk. */
  lemma {:induction false} ListsAcrossRuns(leq: (Row, Row) -> bool, t: Table, m: Machine, es: seq<Event>,
                                           memory: seq<ShelfStep>, disk: seq<ShelfStep>, q: Query)
    requires TotalPreorder(leq) && Inv(m) && m.s.cache.None? && DataOk(Memory(m))
    requires forall i :: 0 <= i < |es| ==> !es[i].a.ClearAll?
    requires HistoryOf(m, es).memory == BodiesOf(leq, t, memory) && HistoryOf(m, es).disk == BodiesOf(leq, t, disk)
    requires forall i :: 0 <= i < |memory| ==> StepKeepsOrder(leq, t, memory[i])
    requires forall i :: 0 <= i < |disk| ==> StepKeepsOrder(leq, t, disk[i])
    ensures
      var r, start := Run(m, es), ShelfOf(Memory(m), t);
      && Answered(leq, q, Rows(Memory(r), t)) == Answered(leq, q, Moved(leq, false, start, CallsOf(memory)).rows)
      && Answered(leq, q, Rows(Durable(r), t)) == Answered(leq, q, Moved(leq, false, start, CallsOf(disk)).rows)
  {
    var d, r, start := Memory(m), Run(m, es), ShelfOf(Memory(m), t);
    assert IdsOk(Rows(d, t), Counter(d, t));
    RunsAreReplays(m, es);
    ReplaySortsAlike(leq, t, d, memory);
    ReplaySortsAlike(leq, t, d, disk);
    AnswerBySort(leq, q, Rows(Memory(r), t), Moved(leq, false, start, CallsOf(memory)).rows);
    AnswerBySort(leq, q, Rows(Durable(r), t), Moved(leq, false, start, CallsOf(disk)).rows);
  }
}
