/** The list functions of the repositories: a chain of filters, a sort that runs on the live array when no
    filter applies, and a page. */
module Listing {
  import opened Values
  import opened Seqs
  import opened Tables

  /** The filters a query switches on, in the order the code applies them, and the page asked for. */
  datatype Query = Query(filters: seq<Row -> bool>, page: Option<int>, pageSize: Option<int>)

  datatype Answer = Answer(total: nat, rows: seq<Row>)

  /** `rows = rows.filter(...)` for each active filter. */
  function Narrow(filters: seq<Row -> bool>, rows: seq<Row>): seq<Row> {
    if filters == [] then rows else Narrow(filters[1..], Filter(filters[0], rows))
  }

  /** `Array.prototype.slice`, where a negative bound counts from the end. */
  function Slice<T>(s: seq<T>, start: int, end: int): seq<T> {
    var lo := Bound(|s|, start);
    var hi := Bound(|s|, end);
    if lo < hi then s[lo..hi] else []
  }

  function Bound(n: nat, i: int): (b: nat)
    ensures b <= n
  {
    if i < 0 then (if n + i < 0 then 0 else n + i) else if i > n then n else i
  }

  /** `query.page || 1` */
  function PageNo(page: Option<int>): int {
    if page.Some? && page.value != 0 then page.value else 1
  }

  /** `Math.min(query.pageSize || 20, 100)` */
  function PageSize(size: Option<int>): int {
    var n := if size.Some? && size.value != 0 then size.value else 20;
    if n < 100 then n else 100
  }

  function Page<T>(s: seq<T>, page: int, size: int): seq<T> {
    Slice(s, (page - 1) * size, (page - 1) * size + size)
  }

  /** What list returns. */
  function Answered(leq: (Row, Row) -> bool, q: Query, rows: seq<Row>): Answer {
    var narrowed := Narrow(q.filters, rows);
    Answer(|narrowed|, Page(Sort(leq, narrowed), PageNo(q.page), PageSize(q.pageSize)))
  }

  /** What list leaves in the table. */
  function Listed(leq: (Row, Row) -> bool, q: Query, rows: seq<Row>): seq<Row> {
    if q.filters == [] then Sort(leq, rows) else rows
  }

  predicate All(filters: seq<Row -> bool>, r: Row) {
    forall i :: 0 <= i < |filters| ==> filters[i](r)
  }

  function AllOf(filters: seq<Row -> bool>): Row -> bool {
    r => All(filters, r)
  }

  lemma {:induction false} AllSplit(filters: seq<Row -> bool>, r: Row)
    requires filters != []
    ensures All(filters, r) <==> filters[0](r) && All(filters[1..], r)
  {
    if filters[0](r) && All(filters[1..], r) {
      forall k | 0 <= k < |filters| ensures filters[k](r) {
        assert k > 0 ==> filters[k] == filters[1..][k - 1];
      }
    }
    if All(filters, r) {
      forall k | 0 <= k < |filters[1..]| ensures filters[1..][k](r) {
        assert filters[1..][k] == filters[k + 1];
      }
    }
  }

  /** The chain of filters is one filter by their conjunction. */
  lemma {:induction false} NarrowIsFilter(filters: seq<Row -> bool>, rows: seq<Row>)
    ensures Narrow(filters, rows) == Filter(AllOf(filters), rows)
  {
    if filters == [] {
      FilterAll(AllOf(filters), rows);
    } else {
      NarrowIsFilter(filters[1..], Filter(filters[0], rows));
      FilterTwice(filters[0], AllOf(filters[1..]), rows);
      forall i | 0 <= i < |rows| ensures Both(filters[0], AllOf(filters[1..]))(rows[i]) == AllOf(filters)(rows[i]) {
        AllSplit(filters, rows[i]);
      }
      FilterSame(Both(filters[0], AllOf(filters[1..])), AllOf(filters), rows);
    }
  }

  /** A list answer depends on the table only through its stable sort. */
  lemma {:induction false} AnswerBySort(leq: (Row, Row) -> bool, q: Query, a: seq<Row>, b: seq<Row>)
    requires TotalPreorder(leq) && Sort(leq, a) == Sort(leq, b)
    ensures Answered(leq, q, a) == Answered(leq, q, b)
  {
    NarrowIsFilter(q.filters, a);
    NarrowIsFilter(q.filters, b);
    SortFilter(leq, AllOf(q.filters), a);
    SortFilter(leq, AllOf(q.filters), b);
  }

  // ---- Lists are invisible to later lists ----

  datatype Call =
    | Create(row: Row, now: string)
    | Delete(id: int)
    | DeleteWhere(p: Row -> bool)
    | Edit(id: int, updates: Row, now: string)
    | List(q: Query)

  datatype Shelf = Shelf(rows: seq<Row>, next: int)

  /** One call on a table; `live` says whether list sorts the stored array, as the code does. */
  function Step(leq: (Row, Row) -> bool, live: bool, s: Shelf, c: Call): Shelf {
    match c
    case Create(row, now) => Shelf(s.rows + [NewRow(row, s.next, now)], s.next + 1)
    case Delete(id) => s.(rows := RemoveRow(s.rows, id))
    case DeleteWhere(p) => s.(rows := Filter(Except(p), s.rows))
    case Edit(id, updates, now) => s.(rows := UpdateRow(s.rows, id, updates, now))
    case List(q) => if live then s.(rows := Listed(leq, q, s.rows)) else s
  }

  /** The answers of a run of calls, in order. */
  function Answers(leq: (Row, Row) -> bool, live: bool, s: Shelf, calls: seq<Call>): seq<Answer>
    decreases |calls|
  {
    if calls == [] then []
    else (if calls[0].List? then [Answered(leq, calls[0].q, s.rows)] else [])
         + Answers(leq, live, Step(leq, live, s, calls[0]), calls[1..])
  }

  predicate SeenAlike<T>(leq: (T, T) -> bool, g: T -> T, a: T, b: T) {
    leq(g(a), g(b)) == leq(a, b)
  }

  /** The comparator orders changed rows as it orders the rows they replace. */
  ghost predicate Blind<T(!new)>(leq: (T, T) -> bool, g: T -> T) {
    forall a, b :: SeenAlike(leq, g, a, b)
  }

  /** The edit leaves the id alone and the comparator cannot see it. */
  ghost predicate Unseen(leq: (Row, Row) -> bool, id: int, updates: Row, now: string) {
    Id !in updates && Blind(leq, EditRow(id, updates, now))
  }

  ghost predicate KeepsOrder(leq: (Row, Row) -> bool, c: Call) {
    c.Edit? ==> Unseen(leq, c.id, c.updates, c.now)
  }

  function EditRow(id: int, updates: Row, now: string): Row -> Row {
    r => if Get(r, Id) == Num(id) then Touch(r, updates, now) else r
  }

  function Map<T>(g: T -> T, s: seq<T>): (r: seq<T>)
    ensures |r| == |s| && forall i :: 0 <= i < |s| ==> r[i] == g(s[i])
  {
    seq(|s|, i requires 0 <= i < |s| => g(s[i]))
  }

  lemma {:induction false} MapPush<T>(g: T -> T, s: seq<T>, x: T)
    ensures Map(g, s + [x]) == Map(g, s) + [g(x)]
  {
  }

  lemma {:induction false} InsertMap<T(!new)>(leq: (T, T) -> bool, g: T -> T, x: T, s: seq<T>)
    requires Blind(leq, g)
    ensures InsertSorted(leq, g(x), Map(g, s)) == Map(g, InsertSorted(leq, x, s))
  {
    if s != [] {
      var t, last := s[..|s| - 1], s[|s| - 1];
      assert s == t + [last];
      MapPush(g, t, last);
      InsertPush(leq, x, t, last);
      assert SeenAlike(leq, g, last, x);
      InsertPush(leq, g(x), Map(g, t), g(last));
      if leq(last, x) {
        MapPush(g, s, x);
      } else {
        InsertMap(leq, g, x, t);
        MapPush(g, InsertSorted(leq, x, t), last);
      }
    }
  }

  /** Sorting commutes with a change the comparator cannot see. */
  lemma {:induction false} SortMap<T(!new)>(leq: (T, T) -> bool, g: T -> T, s: seq<T>)
    requires Blind(leq, g)
    ensures Sort(leq, Map(g, s)) == Map(g, Sort(leq, s))
  {
    if s != [] {
      var t, x := s[..|s| - 1], s[|s| - 1];
      assert s == t + [x];
      SortMap(leq, g, t);
      MapPush(g, t, x);
      SortPush(leq, Map(g, t), g(x));
      SortPush(leq, t, x);
      InsertMap(leq, g, x, Sort(leq, t));
    }
  }

  lemma {:induction false} UpdateIsMap(rows: seq<Row>, id: int, updates: Row, now: string)
    requires DistinctIds(rows)
    ensures UpdateRow(rows, id, updates, now) == Map(EditRow(id, updates, now), rows)
  {
    var k := IndexWhere(ById(id), rows);
    var m := Map(EditRow(id, updates, now), rows);
    forall i | 0 <= i < |rows| ensures UpdateRow(rows, id, updates, now)[i] == m[i] {
      if i < k { assert !ById(id)(rows[i]); }
      if k < i { assert Get(rows[k], Id) != Get(rows[i], Id); }
    }
  }

  ghost predicate SameShelf(leq: (Row, Row) -> bool, a: Shelf, b: Shelf) {
    a.next == b.next && IdsOk(a.rows, a.next) && IdsOk(b.rows, b.next) && Sort(leq, a.rows) == Sort(leq, b.rows)
  }

  lemma {:induction false} EditKeepsSame(leq: (Row, Row) -> bool, a: seq<Row>, b: seq<Row>, next: int, id: int,
                                         updates: Row, now: string)
    requires IdsOk(a, next) && IdsOk(b, next) && Sort(leq, a) == Sort(leq, b) && Unseen(leq, id, updates, now)
    ensures IdsOk(UpdateRow(a, id, updates, now), next) && IdsOk(UpdateRow(b, id, updates, now), next)
    ensures Sort(leq, UpdateRow(a, id, updates, now)) == Sort(leq, UpdateRow(b, id, updates, now))
  {
    UpdateKeepsIdsIff(a, next, id, updates, now);
    UpdateKeepsIdsIff(b, next, id, updates, now);
    UpdateIsMap(a, id, updates, now);
    UpdateIsMap(b, id, updates, now);
    SortMap(leq, EditRow(id, updates, now), a);
    SortMap(leq, EditRow(id, updates, now), b);
  }

  lemma {:induction false} FilterKeepsSame(leq: (Row, Row) -> bool, a: seq<Row>, b: seq<Row>, next: int, p: Row -> bool)
    requires TotalPreorder(leq) && IdsOk(a, next) && IdsOk(b, next) && Sort(leq, a) == Sort(leq, b)
    ensures IdsOk(Filter(p, a), next) && IdsOk(Filter(p, b), next)
    ensures Sort(leq, Filter(p, a)) == Sort(leq, Filter(p, b))
  {
    FilterKeepsIds(a, next, p);
    FilterKeepsIds(b, next, p);
    SortFilter(leq, p, a);
    SortFilter(leq, p, b);
  }

  lemma {:induction false} SortKeepsSame(leq: (Row, Row) -> bool, a: seq<Row>, next: int)
    requires TotalPreorder(leq) && IdsOk(a, next)
    ensures IdsOk(Sort(leq, a), next) && Sort(leq, Sort(leq, a)) == Sort(leq, a)
  {
    SortPermutes(leq, a);
    PermutationKeepsIds(a, Sort(leq, a), next);
    SortSorts(leq, a);
    SortOfSorted(leq, Sort(leq, a));
  }

  lemma {:induction false} StepKeepsSame(leq: (Row, Row) -> bool, a: Shelf, b: Shelf, c: Call)
    requires TotalPreorder(leq) && SameShelf(leq, a, b) && KeepsOrder(leq, c)
    ensures SameShelf(leq, Step(leq, true, a, c), Step(leq, false, b, c))
  {
    match c
    case Create(row, now) =>
      InsertKeepsIds(a.rows, a.next, row, now);
      InsertKeepsIds(b.rows, b.next, row, now);
      SortPush(leq, a.rows, NewRow(row, a.next, now));
      SortPush(leq, b.rows, NewRow(row, b.next, now));
    case Delete(id) =>
      RemoveIsFilter(a.rows, id);
      RemoveIsFilter(b.rows, id);
      FilterKeepsSame(leq, a.rows, b.rows, a.next, Except(ById(id)));
    case DeleteWhere(p) => FilterKeepsSame(leq, a.rows, b.rows, a.next, Except(p));
    case Edit(id, updates, now) => EditKeepsSame(leq, a.rows, b.rows, a.next, id, updates, now);
    case List(q) => SortKeepsSame(leq, a.rows, a.next);
  }

  lemma {:induction false} AnswersSame(leq: (Row, Row) -> bool, a: Shelf, b: Shelf, calls: seq<Call>)
    requires TotalPreorder(leq) && SameShelf(leq, a, b)
    requires forall i :: 0 <= i < |calls| ==> KeepsOrder(leq, calls[i])
    ensures Answers(leq, true, a, calls) == Answers(leq, false, b, calls)
    decreases |calls|
  {
    if calls != [] {
      if calls[0].List? { AnswerBySort(leq, calls[0].q, a.rows, b.rows); }
      assert KeepsOrder(leq, calls[0]);
      StepKeepsSame(leq, a, b, calls[0]);
      AnswersSame(leq, Step(leq, true, a, calls[0]), Step(leq, false, b, calls[0]), calls[1..]);
    }
  }

  /** Over every run of creates, deletes, lists with any filters, and edits the comparator cannot see, each
      list answers as in a store that never sorts its tables. */
  lemma {:induction false} ListsAreInvisible(leq: (Row, Row) -> bool, s: Shelf, calls: seq<Call>)
    requires TotalPreorder(leq) && IdsOk(s.rows, s.next)
    requires forall i :: 0 <= i < |calls| ==> KeepsOrder(leq, calls[i])
    ensures Answers(leq, true, s, calls) == Answers(leq, false, s, calls)
  {
    AnswersSame(leq, s, s, calls);
  }

  // ---- Edits the comparator can see ----

  lemma {:induction false} FilterAround(p: Row -> bool, a: seq<Row>, x: Row, b: seq<Row>)
    ensures Filter(p, a + [x] + b) == Filter(p, a) + (if p(x) then [x] else []) + Filter(p, b)
  {
    FilterPush(p, a, x);
    FilterAppend(p, a + [x], b);
  }

  /** The table with its k-th row replaced. */
  function Replaced(s: seq<Row>, k: nat, x: Row): seq<Row>
    requires k < |s|
  {
    s[..k] + [x] + s[k + 1..]
  }

  lemma {:induction false} FilterNotIn(p: Row -> bool, s: seq<Row>, x: Row)
    requires NoneHasId(s, Get(x, Id))
    ensures x !in Filter(p, s)
  {
    FilterMember(p, s, x);
  }

  /** Two arrangements of the same rows, equal in every tie class; the row at k in one and at l in the
      other is about to be replaced by y. */
  ghost predicate Rearranged(leq: (Row, Row) -> bool, s: seq<Row>, k: nat, t: seq<Row>, l: nat, y: Row) {
    && DistinctIds(s) && DistinctIds(t) && k < |s| && l < |t| && s[k] == t[l]
    && SameClasses(leq, s, t) && Get(y, Id) == Get(s[k], Id) && Get(y, Id).Num?
  }

  lemma {:induction false} AlikeThenCounts(leq: (Row, Row) -> bool, s: seq<Row>, k: nat, t: seq<Row>, l: nat, y: Row)
    requires TotalPreorder(leq) && Rearranged(leq, s, k, t, l, y)
    requires SameClasses(leq, Replaced(s, k, y), Replaced(t, l, y))
    ensures |Filter(ClassOf(leq, y), s[..k])| == |Filter(ClassOf(leq, y), t[..l])|
  {
    var c := ClassOf(leq, y);
    assert leq(y, y) && c(y);
    Apart(s, k, y);
    Apart(t, l, y);
    FilterNotIn(c, s[..k], y);
    FilterNotIn(c, s[k + 1..], y);
    FilterNotIn(c, t[..l], y);
    FilterNotIn(c, t[l + 1..], y);
    FilterAround(c, s[..k], y, s[k + 1..]);
    FilterAround(c, t[..l], y, t[l + 1..]);
    assert Filter(c, Replaced(s, k, y)) == Filter(c, Replaced(t, l, y));
    CutAt(Filter(c, s[..k]), Filter(c, s[k + 1..]), Filter(c, t[..l]), Filter(c, t[l + 1..]), y);
  }

  lemma {:induction false} CountsThenAlike(leq: (Row, Row) -> bool, s: seq<Row>, k: nat, t: seq<Row>, l: nat, y: Row,
                                           z: Row)
    requires TotalPreorder(leq) && Rearranged(leq, s, k, t, l, y)
    requires |Filter(ClassOf(leq, y), s[..k])| == |Filter(ClassOf(leq, y), t[..l])|
    ensures Filter(ClassOf(leq, z), Replaced(s, k, y)) == Filter(ClassOf(leq, z), Replaced(t, l, y))
  {
    var cz := ClassOf(leq, z);
    OthersAgree(leq, s, k, t, l, z);
    var fa, fb, ga, gb := Filter(cz, s[..k]), Filter(cz, s[k + 1..]), Filter(cz, t[..l]), Filter(cz, t[l + 1..]);
    FilterAround(cz, s[..k], y, s[k + 1..]);
    FilterAround(cz, t[..l], y, t[l + 1..]);
    if cz(y) {
      SameClassFilter(leq, z, y, s[..k]);
      SameClassFilter(leq, z, y, t[..l]);
      SplitEqual(fa, fb, ga, gb);
    } else {
      Whole(fa);
      Whole(ga);
    }
  }

  /** They sort alike afterwards exactly when as many rows that tie with y stand before it in both. */
  lemma {:induction false} ReplaceSortsAlike(leq: (Row, Row) -> bool, s: seq<Row>, k: nat, t: seq<Row>, l: nat, y: Row)
    requires TotalPreorder(leq) && Rearranged(leq, s, k, t, l, y)
    ensures Sort(leq, Replaced(s, k, y)) == Sort(leq, Replaced(t, l, y))
            <==> |Filter(ClassOf(leq, y), s[..k])| == |Filter(ClassOf(leq, y), t[..l])|
  {
    SortEqualIffClasses(leq, Replaced(s, k, y), Replaced(t, l, y));
    if SameClasses(leq, Replaced(s, k, y), Replaced(t, l, y)) {
      AlikeThenCounts(leq, s, k, t, l, y);
    }
    if |Filter(ClassOf(leq, y), s[..k])| == |Filter(ClassOf(leq, y), t[..l])| {
      forall z: Row ensures Filter(ClassOf(leq, z), Replaced(s, k, y)) == Filter(ClassOf(leq, z), Replaced(t, l, y)) {
        CountsThenAlike(leq, s, k, t, l, y, z);
      }
    }
  }

  lemma {:induction false} SplitEqual<T>(a: seq<T>, b: seq<T>, c: seq<T>, d: seq<T>)
    requires a + b == c + d && |a| == |c|
    ensures a == c && b == d
  {
    assert a == (a + b)[..|a|] && c == (c + d)[..|c|];
    assert b == (a + b)[|a|..] && d == (c + d)[|c|..];
  }

  lemma {:induction false} SameClassFilter(leq: (Row, Row) -> bool, z: Row, y: Row, s: seq<Row>)
    requires TotalPreorder(leq) && ClassOf(leq, z)(y)
    ensures Filter(ClassOf(leq, z), s) == Filter(ClassOf(leq, y), s)
  {
    forall i | 0 <= i < |s| ensures ClassOf(leq, z)(s[i]) == ClassOf(leq, y)(s[i]) {
      assert leq(y, z) && leq(z, y);
    }
    FilterSame(ClassOf(leq, z), ClassOf(leq, y), s);
  }

  predicate NoneHasId(s: seq<Row>, id: Value) {
    forall i :: 0 <= i < |s| ==> Get(s[i], Id) != id
  }

  lemma {:induction false} Apart(s: seq<Row>, k: nat, y: Row)
    requires DistinctIds(s) && k < |s| && Get(y, Id) == Get(s[k], Id)
    ensures NoneHasId(s[..k], Get(y, Id)) && NoneHasId(s[k + 1..], Get(y, Id))
  {
    var b := s[k + 1..];
    forall i | 0 <= i < |b| ensures Get(b[i], Id) != Get(y, Id) {
      assert b[i] == s[k + 1 + i] && Get(s[k], Id) != Get(s[k + 1 + i], Id);
    }
  }

  /** The other rows of a tie class stand in the same order. */
  lemma {:induction false} OthersAgree(leq: (Row, Row) -> bool, s: seq<Row>, k: nat, t: seq<Row>, l: nat, z: Row)
    requires DistinctIds(s) && DistinctIds(t) && k < |s| && l < |t| && s[k] == t[l] && Get(s[k], Id).Num?
    requires SameClasses(leq, s, t)
    ensures
      var c := ClassOf(leq, z);
      Filter(c, s[..k]) + Filter(c, s[k + 1..]) == Filter(c, t[..l]) + Filter(c, t[l + 1..])
  {
    var c := ClassOf(leq, z);
    var q := Except(ById(Get(s[k], Id).n));
    DropRow(c, s, k);
    DropRow(c, t, l);
    FilterSwap(q, c, s);
    FilterSwap(q, c, t);
    assert Filter(c, s) == Filter(c, t);
  }

  lemma {:induction false} DropRow(c: Row -> bool, s: seq<Row>, k: nat)
    requires DistinctIds(s) && k < |s| && Get(s[k], Id).Num?
    ensures Filter(c, s[..k]) + Filter(c, s[k + 1..]) == Filter(c, Filter(Except(ById(Get(s[k], Id).n)), s))
  {
    var id := Get(s[k], Id).n;
    Apart(s, k, s[k]);
    RemoveIsFilter(s, id);
    var i := IndexWhere(ById(id), s);
    assert ById(id)(s[k]);
    assert forall j :: 0 <= j < k ==> Get(s[j], Id) != Get(s[k], Id);
    assert i == k;
    FilterAppend(c, s[..k], s[k + 1..]);
  }

  /** An edit of row k to y is invisible after an in-place sort of the table exactly when y ties with the
      row it replaces, or no row that ties with y stands on the wrong side of it: behind it if y sorts
      before the old row, ahead of it if y sorts after. */
  lemma {:induction false} EditInvisibleIff(leq: (Row, Row) -> bool, s: seq<Row>, next: int, k: nat, y: Row)
    requires TotalPreorder(leq) && IdsOk(s, next) && k < |s| && Get(y, Id) == Get(s[k], Id)
    ensures
      var l := IndexWhere(ById(Get(s[k], Id).n), Sort(leq, s));
      && l < |s| && Sort(leq, s)[l] == s[k]
      && (Sort(leq, Replaced(s, k, y)) == Sort(leq, Replaced(Sort(leq, s), l, y))
          <==> ClassOf(leq, y)(s[k])
               || Filter(ClassOf(leq, y), if leq(y, s[k]) then s[k + 1..] else s[..k]) == [])
  {
    var t, x, c := Sort(leq, s), s[k], ClassOf(leq, y);
    var id := Get(x, Id).n;
    assert ValidId(x, next);
    SortPermutes(leq, s);
    PermutationKeepsIds(s, t, next);
    PermutationMember(s, t, x);
    FindByIdMeaning(t, id, x);
    var l := IndexWhere(ById(id), t);
    SortSorts(leq, s);
    SortOfSorted(leq, t);
    SortEqualIffClasses(leq, s, t);
    ReplaceSortsAlike(leq, s, k, t, l, y);
    OthersAgree(leq, s, k, t, l, y);
    if c(x) {
      assert Filter(c, s) == Filter(c, t);
      FilterParts(c, s, k);
      FilterParts(c, t, l);
      Apart(s, k, x);
      Apart(t, l, x);
      FilterNotIn(c, s[..k], x);
      FilterNotIn(c, s[k + 1..], x);
      FilterNotIn(c, t[..l], x);
      FilterNotIn(c, t[l + 1..], x);
      CutAt(Filter(c, s[..k]), Filter(c, s[k + 1..]), Filter(c, t[..l]), Filter(c, t[l + 1..]), x);
    } else if leq(y, x) {
      NoneBehind(leq, t, l, y);
    } else {
      NoneAhead(leq, t, l, y);
    }
  }

  lemma {:induction false} FilterParts(c: Row -> bool, s: seq<Row>, k: nat)
    requires k < |s|
    ensures s == s[..k] + [s[k]] + s[k + 1..]
    ensures Filter(c, s) == Filter(c, s[..k]) + (if c(s[k]) then [s[k]] else []) + Filter(c, s[k + 1..])
  {
    Around(s, k, s[k]);
    FilterAround(c, s[..k], s[k], s[k + 1..]);
  }

  lemma {:induction false} NoneBehind(leq: (Row, Row) -> bool, t: seq<Row>, l: nat, y: Row)
    requires TotalPreorder(leq) && Sorted(leq, t) && l < |t| && leq(y, t[l]) && !leq(t[l], y)
    ensures Filter(ClassOf(leq, y), t[l + 1..]) == []
  {
    var b := t[l + 1..];
    forall i | 0 <= i < |b| ensures !ClassOf(leq, y)(b[i]) {
      assert b[i] == t[l + 1 + i] && leq(t[l], t[l + 1 + i]);
    }
    FilterNone(ClassOf(leq, y), b);
  }

  lemma {:induction false} NoneAhead(leq: (Row, Row) -> bool, t: seq<Row>, l: nat, y: Row)
    requires TotalPreorder(leq) && Sorted(leq, t) && l < |t| && !leq(y, t[l])
    ensures Filter(ClassOf(leq, y), t[..l]) == []
  {
    forall i | 0 <= i < |t[..l]| ensures !ClassOf(leq, y)(t[..l][i]) {
      assert leq(t[i], t[l]);
    }
    FilterNone(ClassOf(leq, y), t[..l]);
  }

  // ---- Runs with edits the comparator can see ----

  /** The table after a run of calls. */
  function Moved(leq: (Row, Row) -> bool, live: bool, s: Shelf, calls: seq<Call>): Shelf {
    if calls == [] then s else Step(leq, live, Moved(leq, live, s, calls[..|calls| - 1]), calls[|calls| - 1])
  }

  /** No edit carries an id. */
  predicate PlainIds(c: Call) {
    c.Edit? ==> Id !in c.updates
  }

  ghost predicate IdsAlike(a: Shelf, b: Shelf) {
    a.next == b.next && IdsOk(a.rows, a.next) && IdsOk(b.rows, b.next)
  }

  lemma {:induction false} StepIds(leq: (Row, Row) -> bool, live: bool, s: Shelf, c: Call)
    requires IdsOk(s.rows, s.next) && PlainIds(c)
    ensures IdsOk(Step(leq, live, s, c).rows, Step(leq, live, s, c).next)
    ensures Step(leq, live, s, c).next == if c.Create? then s.next + 1 else s.next
  {
    match c
    case Create(row, now) => InsertKeepsIds(s.rows, s.next, row, now);
    case Delete(id) => RemoveKeepsIds(s.rows, s.next, id);
    case DeleteWhere(p) => FilterKeepsIds(s.rows, s.next, Except(p));
    case Edit(id, updates, now) => UpdateKeepsIdsIff(s.rows, s.next, id, updates, now);
    case List(q) =>
      SortPermutes(leq, s.rows);
      PermutationKeepsIds(s.rows, Sort(leq, s.rows), s.next);
  }

  lemma {:induction false} MovedIds(leq: (Row, Row) -> bool, s: Shelf, calls: seq<Call>)
    requires IdsOk(s.rows, s.next) && forall i :: 0 <= i < |calls| ==> PlainIds(calls[i])
    ensures IdsAlike(Moved(leq, true, s, calls), Moved(leq, false, s, calls))
  {
    if calls != [] {
      var n := |calls| - 1;
      MovedIds(leq, s, calls[..n]);
      StepIds(leq, true, Moved(leq, true, s, calls[..n]), calls[n]);
      StepIds(leq, false, Moved(leq, false, s, calls[..n]), calls[n]);
    }
  }

  /** An edit of the row with the id finds as many rows before it that tie with the new row in both tables. */
  predicate EditAlike(leq: (Row, Row) -> bool, a: seq<Row>, b: seq<Row>, id: int, updates: Row, now: string) {
    var k, l := IndexWhere(ById(id), a), IndexWhere(ById(id), b);
    k == |a| || l == |b|
    || |Filter(ClassOf(leq, Touch(a[k], updates, now)), a[..k])|
       == |Filter(ClassOf(leq, Touch(a[k], updates, now)), b[..l])|
  }

  /** Tables that sort alike hold the same rows under the same ids. */
  lemma {:induction false} SameRowById(leq: (Row, Row) -> bool, a: seq<Row>, b: seq<Row>, next: int, id: int)
    requires IdsOk(a, next) && IdsOk(b, next) && Sort(leq, a) == Sort(leq, b)
    ensures Find(ById(id), a) == Find(ById(id), b)
  {
    SortPermutes(leq, a);
    SortPermutes(leq, b);
    var k, l := IndexWhere(ById(id), a), IndexWhere(ById(id), b);
    if k < |a| {
      PermutationMember(a, b, a[k]);
      FindByIdMeaning(b, id, a[k]);
    } else if l < |b| {
      PermutationMember(a, b, b[l]);
      FindByIdMeaning(a, id, b[l]);
    }
  }

  lemma {:induction false} UpdateIsReplaced(s: seq<Row>, id: int, updates: Row, now: string, k: nat)
    requires k == IndexWhere(ById(id), s) < |s|
    ensures UpdateRow(s, id, updates, now) == Replaced(s, k, Touch(s[k], updates, now))
  {
    Around(s, k, Touch(s[k], updates, now));
  }

  /** Two tables that sort alike still do after an edit exactly when it finds alike. */
  lemma {:induction false} EditStaysIff(leq: (Row, Row) -> bool, a: seq<Row>, b: seq<Row>, next: int, id: int,
                                        updates: Row, now: string)
    requires TotalPreorder(leq) && IdsOk(a, next) && IdsOk(b, next) && Sort(leq, a) == Sort(leq, b) && Id !in updates
    ensures Sort(leq, UpdateRow(a, id, updates, now)) == Sort(leq, UpdateRow(b, id, updates, now))
            <==> EditAlike(leq, a, b, id, updates, now)
  {
    var k, l := IndexWhere(ById(id), a), IndexWhere(ById(id), b);
    SameRowById(leq, a, b, next, id);
    if k < |a| {
      var y := Touch(a[k], updates, now);
      assert Get(y, Id) == Get(a[k], Id) == Num(id);
      SortEqualIffClasses(leq, a, b);
      UpdateIsReplaced(a, id, updates, now, k);
      UpdateIsReplaced(b, id, updates, now, l);
      ReplaceSortsAlike(leq, a, k, b, l, y);
    }
  }

  /** What a call must be, where the live table is a and the other is b, for them to sort alike afterwards. */
  predicate CallAlike(leq: (Row, Row) -> bool, a: Shelf, b: Shelf, c: Call) {
    c.Edit? ==> EditAlike(leq, a.rows, b.rows, c.id, c.updates, c.now)
  }

  lemma {:induction false} StepStaysIff(leq: (Row, Row) -> bool, a: Shelf, b: Shelf, c: Call)
    requires TotalPreorder(leq) && SameShelf(leq, a, b) && PlainIds(c)
    ensures Sort(leq, Step(leq, true, a, c).rows) == Sort(leq, Step(leq, false, b, c).rows) <==> CallAlike(leq, a, b, c)
  {
    if c.Edit? {
      EditStaysIff(leq, a.rows, b.rows, a.next, c.id, c.updates, c.now);
    } else {
      StepKeepsSame(leq, a, b, c);
    }
  }

  /** The tables sort alike after every prefix of the run. */
  ghost predicate AlikeThroughout(leq: (Row, Row) -> bool, s: Shelf, calls: seq<Call>) {
    forall n :: 0 <= n <= |calls|
      ==> Sort(leq, Moved(leq, true, s, calls[..n]).rows) == Sort(leq, Moved(leq, false, s, calls[..n]).rows)
  }

  ghost predicate AllCallsAlike(leq: (Row, Row) -> bool, s: Shelf, calls: seq<Call>) {
    forall i :: 0 <= i < |calls|
      ==> CallAlike(leq, Moved(leq, true, s, calls[..i]), Moved(leq, false, s, calls[..i]), calls[i])
  }

  lemma {:induction false} NextStaysIff(leq: (Row, Row) -> bool, s: Shelf, calls: seq<Call>, i: nat)
    requires TotalPreorder(leq) && IdsOk(s.rows, s.next) && i < |calls|
    requires forall j :: 0 <= j < |calls| ==> PlainIds(calls[j])
    requires Sort(leq, Moved(leq, true, s, calls[..i]).rows) == Sort(leq, Moved(leq, false, s, calls[..i]).rows)
    ensures Sort(leq, Moved(leq, true, s, calls[..i + 1]).rows) == Sort(leq, Moved(leq, false, s, calls[..i + 1]).rows)
            <==> CallAlike(leq, Moved(leq, true, s, calls[..i]), Moved(leq, false, s, calls[..i]), calls[i])
  {
    Prefix(calls, i);
    MovedIds(leq, s, calls[..i]);
    StepStaysIff(leq, Moved(leq, true, s, calls[..i]), Moved(leq, false, s, calls[..i]), calls[i]);
  }

  lemma {:induction false} AlikeUpTo(leq: (Row, Row) -> bool, s: Shelf, calls: seq<Call>, n: nat)
    requires TotalPreorder(leq) && IdsOk(s.rows, s.next) && n <= |calls|
    requires forall j :: 0 <= j < |calls| ==> PlainIds(calls[j])
    requires AllCallsAlike(leq, s, calls)
    ensures Sort(leq, Moved(leq, true, s, calls[..n]).rows) == Sort(leq, Moved(leq, false, s, calls[..n]).rows)
  {
    if n > 0 {
      AlikeUpTo(leq, s, calls, n - 1);
      NextStaysIff(leq, s, calls, n - 1);
    }
  }

  lemma {:induction false} AlikeIffCallsAlike(leq: (Row, Row) -> bool, s: Shelf, calls: seq<Call>)
    requires TotalPreorder(leq) && IdsOk(s.rows, s.next)
    requires forall j :: 0 <= j < |calls| ==> PlainIds(calls[j])
    ensures AlikeThroughout(leq, s, calls) <==> AllCallsAlike(leq, s, calls)
  {
    if AlikeThroughout(leq, s, calls) {
      forall i | 0 <= i < |calls|
        ensures CallAlike(leq, Moved(leq, true, s, calls[..i]), Moved(leq, false, s, calls[..i]), calls[i])
      {
        NextStaysIff(leq, s, calls, i);
      }
    }
    if AllCallsAlike(leq, s, calls) {
      forall n | 0 <= n <= |calls|
        ensures Sort(leq, Moved(leq, true, s, calls[..n]).rows) == Sort(leq, Moved(leq, false, s, calls[..n]).rows)
      {
        AlikeUpTo(leq, s, calls, n);
      }
    }
  }

  // ---- Pages ----

  /** The first n pages, one after the other. */
  function Pages<T>(s: seq<T>, size: int, n: nat): seq<T> {
    if n == 0 then [] else Pages(s, size, n - 1) + Page(s, n, size)
  }

  function Least(a: int, b: int): int {
    if a < b then a else b
  }

  lemma {:induction false} SliceAt<T>(s: seq<T>, lo: nat, size: nat)
    ensures Least(|s|, lo) <= Least(|s|, lo + size)
    ensures Slice(s, lo, lo + size) == s[Least(|s|, lo)..Least(|s|, lo + size)]
  {
  }

  lemma {:induction false} PageStart(page: int, size: int)
    requires size >= 1 && page >= 1
    ensures 0 <= (page - 1) * size == page * size - size
  {
    assert (page - 1) * size >= 0;
  }

  lemma {:induction false} PageAt<T>(s: seq<T>, page: int, size: int)
    requires size >= 1 && page >= 1
    ensures 0 <= (page - 1) * size == page * size - size
    ensures Least(|s|, (page - 1) * size) <= Least(|s|, page * size)
    ensures Page(s, page, size) == s[Least(|s|, (page - 1) * size)..Least(|s|, page * size)]
  {
    PageStart(page, size);
    SliceAt(s, (page - 1) * size, size);
  }

  lemma {:induction false} PagesArePrefix<T>(s: seq<T>, size: int, n: nat)
    requires size >= 1
    ensures Pages(s, size, n) == s[..Least(|s|, n * size)]
  {
    if n > 0 {
      PagesArePrefix(s, size, n - 1);
      PageAt(s, n, size);
    }
  }

  /** Paging is a partition: the pages up to the last give every row once, in order, and the pages after
      it are empty. */
  lemma {:induction false} PagesPartition<T>(s: seq<T>, size: int, n: nat, beyond: nat)
    requires size >= 1 && n == (|s| + size - 1) / size && beyond > n
    ensures Pages(s, size, n) == s
    ensures Page(s, beyond, size) == []
  {
    PagesArePrefix(s, size, n);
    LastPage(|s|, size, n, beyond);
    SliceAt(s, (beyond - 1) * size, size);
  }

  lemma {:induction false} LastPage(total: nat, size: int, n: nat, beyond: nat)
    requires size >= 1 && n == (total + size - 1) / size && beyond > n
    ensures total <= n * size <= (beyond - 1) * size
  {
    assert (total + size - 1) == n * size + (total + size - 1) % size;
    assert (beyond - 1 - n) * size >= 0;
    assert (beyond - 1) * size == (beyond - 1 - n) * size + n * size;
  }

  // ---- What all answers together tell of a table ----

  /** Every list, with any filters, page and page size, answers alike on both tables. */
  ghost predicate AnswersAlike(leq: (Row, Row) -> bool, a: seq<Row>, b: seq<Row>) {
    forall q :: Answered(leq, q, a) == Answered(leq, q, b)
  }

  function Unfiltered(page: int): Query {
    Query([], Some(page), Some(20))
  }

  lemma {:induction false} SamePages<T>(s: seq<T>, t: seq<T>, size: int, n: nat)
    requires forall i :: 1 <= i <= n ==> Page(s, i, size) == Page(t, i, size)
    ensures Pages(s, size, n) == Pages(t, size, n)
  {
    if n > 0 { SamePages(s, t, size, n - 1); }
  }

  /** The answers tell tables apart exactly by their stable sorts. */
  lemma {:induction false} AnswersAlikeIff(leq: (Row, Row) -> bool, a: seq<Row>, b: seq<Row>)
    requires TotalPreorder(leq)
    ensures AnswersAlike(leq, a, b) <==> Sort(leq, a) == Sort(leq, b)
  {
    if Sort(leq, a) == Sort(leq, b) {
      forall q ensures Answered(leq, q, a) == Answered(leq, q, b) { AnswerBySort(leq, q, a, b); }
    }
    if AnswersAlike(leq, a, b) {
      var s, t := Sort(leq, a), Sort(leq, b);
      forall i | i >= 1 ensures Page(s, i, 20) == Page(t, i, 20) && |a| == |b| {
        assert Answered(leq, Unfiltered(i), a) == Answered(leq, Unfiltered(i), b);
      }
      assert Answered(leq, Unfiltered(1), a) == Answered(leq, Unfiltered(1), b);
      SortPermutes(leq, a);
      SortPermutes(leq, b);
      var n := (|s| + 19) / 20;
      SamePages(s, t, 20, n);
      PagesPartition(s, 20, n, n + 1);
      PagesPartition(t, 20, n, n + 1);
    }
  }

  /** Runs with edits of any fields but the id, sort keys included. At every point of the run every list answers as
      in a store that never sorts its tables if and only if each edit finds as many rows that tie with its new
      row ahead of the old one in the live table as in the other. */
  lemma {:induction false} EditsInvisibleIff(leq: (Row, Row) -> bool, s: Shelf, calls: seq<Call>)
    requires TotalPreorder(leq) && IdsOk(s.rows, s.next)
    requires forall j :: 0 <= j < |calls| ==> PlainIds(calls[j])
    ensures (forall n :: 0 <= n <= |calls|
               ==> AnswersAlike(leq, Moved(leq, true, s, calls[..n]).rows, Moved(leq, false, s, calls[..n]).rows))
            <==> AllCallsAlike(leq, s, calls)
  {
    AlikeIffCallsAlike(leq, s, calls);
    forall n | 0 <= n <= |calls|
      ensures AnswersAlike(leq, Moved(leq, true, s, calls[..n]).rows, Moved(leq, false, s, calls[..n]).rows)
              <==> Sort(leq, Moved(leq, true, s, calls[..n]).rows) == Sort(leq, Moved(leq, false, s, calls[..n]).rows)
    {
      AnswersAlikeIff(leq, Moved(leq, true, s, calls[..n]).rows, Moved(leq, false, s, calls[..n]).rows);
    }
  }
}
