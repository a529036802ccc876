/** Order handlers of `src/routes/api_v1/orders.ts`, `admin/orders.ts` and `me/orders.ts` over
    `src/storage/repositories/orders.ts`: order states and the log of their changes. */
module OrderLog {
  import opened Values
  import opened Seqs
  import opened Tables
  import opened StoreSpec
  import opened Machines

  const PENDING := Str("PENDING_PAYMENT")
  const CANCELLED := Str("CANCELLED")

  function HasNo(no: string): Row -> bool {
    r => Get(r, OrderNo) == Str(no)
  }

  function FindOrder(d: Data, no: string): Option<Row> {
    Find(HasNo(no), Rows(d, Orders))
  }

  /** The record orders.create inserts for an order placed by a user. */
  function NewOrder(data: Row, no: string, user: int): Row {
    Spread(Spread(data, map[UserId := Num(user)]),
           map[OrderNo := Str(no), Status := PENDING, TotalAmount := Num(0), Version := Num(0)])
  }

  function LogRow(no: string, field: string, before: Value, after: Value, operator: string): Row {
    map[OrderNo := Str(no), FieldName := Str(field), OldValue := before, NewValue := after, Operator := Str(operator)]
  }

  /** updateStatus or update, then logChange with the value read before. */
  function ChangeOps(order: Row, no: string, field: string, updates: Row, before: Value, after: Value,
                     operator: string, now: string): seq<Mutation> {
    [Update(Orders, IdOf(order), updates, now),
     Insert(OrderChangeLogs, LogRow(no, field, before, after, operator), now)]
  }

  datatype OrderCall =
    | Place(no: string, user: int, data: Row, now: string)
    | Cancel(no: string, user: int, now: string)
    | SetStatus(no: string, status: Value, now: string)
    | SetRemark(no: string, remark: Value, now: string)
    | Drop(no: string)
    | Browse(leq: (Row, Row) -> bool, filtered: bool)

  function OrderOps(d: Data, c: OrderCall): seq<Mutation> {
    match c
    case Place(no, user, data, now) => [Insert(Orders, NewOrder(data, no, user), now)]
    case Cancel(no, user, now) =>
      var order := FindOrder(d, no);
      if order.None? || Get(order.value, UserId) != Num(user) || Get(order.value, Status) != PENDING then []
      else ChangeOps(order.value, no, "status", map[Status := CANCELLED], Get(order.value, Status), CANCELLED, "user",
                     now)
    case SetStatus(no, status, now) =>
      var order := FindOrder(d, no);
      if order.None? then []
      else ChangeOps(order.value, no, "status", map[Status := status], Get(order.value, Status), status, "admin", now)
    case SetRemark(no, remark, now) =>
      var order := FindOrder(d, no);
      if order.None? then []
      else ChangeOps(order.value, no, "remark", map[Remark := remark], Or(Get(order.value, Remark), Str("")),
                     Or(remark, Str("")), "admin", now)
    case Drop(no) =>
      var order := FindOrder(d, no);
      if order.None? then []
      else [RemoveWhere(OrderItems, Pointing(OrderNo, Str(no))), Remove(Orders, IdOf(order.value))]
    case Browse(leq, filtered) => if filtered then [] else [SortInPlace(Orders, leq)]
  }

  function OrderBody(c: OrderCall): Data -> Effects {
    d => Effects(OrderOps(d, c), false)
  }

  function AfterCall(d: Data, c: OrderCall): Data {
    ApplyAll(d, OrderOps(d, c))
  }

  /** The cancel route of `me/orders.ts`, which writes no log entry. */
  function UnloggedCancelOps(d: Data, no: string, user: int, now: string): seq<Mutation> {
    var order := FindOrder(d, no);
    if order.None? || Get(order.value, UserId) != Num(user) || Get(order.value, Status) != PENDING then []
    else [Update(Orders, IdOf(order.value), map[Status := CANCELLED], now)]
  }

  // ---- The log as a chain ----

  function StatusEntry(no: string): Row -> bool {
    r => Get(r, OrderNo) == Str(no) && Get(r, FieldName) == Str("status")
  }

  function Entries(d: Data, no: string): seq<Row> {
    Filter(StatusEntry(no), Rows(d, OrderChangeLogs))
  }

  /** The entries lead from `start` to `now`, each beginning where the one before ended. */
  predicate Chain(entries: seq<Row>, start: Value, now: Value) {
    if entries == [] then start == now
    else
      var last := entries[|entries| - 1];
      Get(last, NewValue) == now && Chain(entries[..|entries| - 1], start, Get(last, OldValue))
  }

  lemma {:induction false} ChainEndsOnce(entries: seq<Row>, start: Value, a: Value, b: Value)
    requires Chain(entries, start, a) && Chain(entries, start, b)
    ensures a == b
  {
  }

  /** A number is a string, and no two orders share one. */
  predicate DistinctNos(rows: seq<Row>) {
    && (forall i :: 0 <= i < |rows| ==> Get(rows[i], OrderNo).Str?)
    && (forall i, j :: 0 <= i < j < |rows| ==> Get(rows[i], OrderNo) != Get(rows[j], OrderNo))
  }

  // ---- The trail of one order ----

  /** The status entries of an order and its present status. */
  datatype Trail = Trail(entries: seq<Row>, status: Value)

  function TrailOf(d: Data, no: string): Option<Trail> {
    var order := FindOrder(d, no);
    if order.None? then None else Some(Trail(Entries(d, no), Get(order.value, Status)))
  }

  /** The chain is whole. */
  predicate TrailOk(t: Trail) {
    Chain(t.entries, PENDING, t.status)
  }

  ghost predicate OrdersOk(d: Data) {
    Complete(d) && IdsOk(Rows(d, Orders), Counter(d, Orders)) && DistinctNos(Rows(d, Orders))
  }

  ghost predicate LogsOk(d: Data) {
    OrdersOk(d) && forall no :: TrailOf(d, no).Some? ==> TrailOk(TrailOf(d, no).value)
  }

  /** No order has the number, and the status entries that a deleted one may have left lead back to PENDING.
      A number not used before is one. */
  predicate MayPlace(d: Data, no: string) {
    FindOrder(d, no).None? && Chain(Entries(d, no), PENDING, PENDING)
  }

  // ---- Finding an order after a change ----

  lemma {:induction false} FoundOrder(d: Data, no: string)
    requires OrdersOk(d) && FindOrder(d, no).Some?
    ensures
      var rows := Rows(d, Orders);
      var i := IndexWhere(HasNo(no), rows);
      && i < |rows| && FindOrder(d, no) == Some(rows[i]) && Get(rows[i], OrderNo) == Str(no)
      && IndexWhere(ById(IdOf(rows[i])), rows) == i && Get(rows[i], Id) == Num(IdOf(rows[i]))
  {
    var rows := Rows(d, Orders);
    var i := IndexWhere(HasNo(no), rows);
    assert ValidId(rows[i], Counter(d, Orders));
    var j := IndexWhere(ById(IdOf(rows[i])), rows);
    assert ById(IdOf(rows[i]))(rows[i]);
    assert j <= i;
    assert forall k :: 0 <= k < i ==> Get(rows[k], Id) != Get(rows[i], Id);
  }

  /** Numbers identify orders. */
  lemma {:induction false} FindUnique(rows: seq<Row>, no: string, k: nat)
    requires DistinctNos(rows) && k < |rows| && Get(rows[k], OrderNo) == Str(no)
    ensures Find(HasNo(no), rows) == Some(rows[k])
  {
    var i := IndexWhere(HasNo(no), rows);
    assert HasNo(no)(rows[k]);
    assert forall j :: 0 <= j < k ==> Get(rows[j], OrderNo) != Get(rows[k], OrderNo);
  }

  /** The same numbers in the same places. */
  predicate SameNos(a: seq<Row>, b: seq<Row>) {
    |a| == |b| && forall i :: 0 <= i < |a| ==> Get(a[i], OrderNo) == Get(b[i], OrderNo)
  }

  lemma {:induction false} SameNosFind(a: seq<Row>, b: seq<Row>, no: string)
    requires SameNos(a, b)
    ensures IndexWhere(HasNo(no), a) == IndexWhere(HasNo(no), b)
    ensures DistinctNos(a) ==> DistinctNos(b)
  {
    var i, j := IndexWhere(HasNo(no), a), IndexWhere(HasNo(no), b);
    assert i < |a| ==> HasNo(no)(b[i]);
    assert j < |b| ==> HasNo(no)(a[j]);
  }

  lemma {:induction false} FilterNos(p: Row -> bool, rows: seq<Row>)
    requires DistinctNos(rows)
    ensures DistinctNos(Filter(p, rows))
  {
    if rows != [] {
      var n := |rows| - 1;
      FilterNos(p, rows[..n]);
      var kept := Filter(p, rows[..n]);
      forall k | 0 <= k < |kept| ensures Get(kept[k], OrderNo) != Get(rows[n], OrderNo) {
        FilterMember(p, rows[..n], kept[k]);
      }
    }
  }

  /** Filtering the orders keeps an order that passes, and loses one that does not. */
  lemma {:induction false} FilterFind(p: Row -> bool, rows: seq<Row>, no: string)
    requires DistinctNos(rows)
    ensures
      var r := Find(HasNo(no), rows);
      Find(HasNo(no), Filter(p, rows)) == if r.Some? && p(r.value) then r else None
  {
    var kept := Filter(p, rows);
    var r := Find(HasNo(no), rows);
    FilterNos(p, rows);
    var k := IndexWhere(HasNo(no), kept);
    if k < |kept| {
      FilterMember(p, rows, kept[k]);
      var l :| 0 <= l < |rows| && rows[l] == kept[k];
      FindUnique(rows, no, l);
    }
    if r.Some? && p(r.value) {
      var i := IndexWhere(HasNo(no), rows);
      FilterMember(p, rows, rows[i]);
      var l :| 0 <= l < |kept| && kept[l] == rows[i];
      FindUnique(kept, no, l);
    }
  }

  lemma {:induction false} SortedNos(rows: seq<Row>, leq: (Row, Row) -> bool)
    requires DistinctNos(rows)
    ensures DistinctNos(Sort(leq, rows))
    ensures forall i :: 0 <= i < |rows| ==> Sort(leq, rows)[i] in rows
  {
    var s := Sort(leq, rows);
    SortPermutes(leq, rows);
    forall i | 0 <= i < |s| ensures s[i] in rows && Get(s[i], OrderNo).Str? {
      PermutationMember(s, rows, s[i]);
      var k :| 0 <= k < |rows| && rows[k] == s[i];
    }
    forall i, j | 0 <= i < j < |s| ensures Get(s[i], OrderNo) != Get(s[j], OrderNo) {
      var k :| 0 <= k < |rows| && rows[k] == s[i];
      var l :| 0 <= l < |rows| && rows[l] == s[j];
      if s[i] == s[j] {
        TwoCopies(s, i, j);
        var a, b := TwoPositions(rows, s[i]);
        assert false;
      } else if k < l {
        assert Get(rows[k], OrderNo) != Get(rows[l], OrderNo);
      } else {
        assert Get(rows[l], OrderNo) != Get(rows[k], OrderNo);
      }
    }
  }

  lemma {:induction false} SortFind(leq: (Row, Row) -> bool, rows: seq<Row>, no: string)
    requires DistinctNos(rows)
    ensures DistinctNos(Sort(leq, rows)) && Find(HasNo(no), Sort(leq, rows)) == Find(HasNo(no), rows)
  {
    var s := Sort(leq, rows);
    SortedNos(rows, leq);
    SortPermutes(leq, rows);
    var i := IndexWhere(HasNo(no), rows);
    if i < |rows| {
      PermutationMember(s, rows, rows[i]);
      var l :| 0 <= l < |s| && s[l] == rows[i];
      FindUnique(s, no, l);
    } else {
      forall k | 0 <= k < |s| ensures !HasNo(no)(s[k]) {
        var l :| 0 <= l < |rows| && rows[l] == s[k];
      }
    }
  }

  // ---- The log ----

  lemma {:induction false} OtherEntries(d: Data, e: Data, log: Row, no: string)
    requires Rows(e, OrderChangeLogs) == Rows(d, OrderChangeLogs) + [log]
    ensures Entries(e, no) == Entries(d, no) + if StatusEntry(no)(log) then [log] else []
  {
    FilterPush(StatusEntry(no), Rows(d, OrderChangeLogs), log);
  }

  lemma {:induction false} LogRowGets(no: string, field: string, before: Value, after: Value, operator: string)
    ensures
      var r := LogRow(no, field, before, after, operator);
      && Get(r, OrderNo) == Str(no) && Get(r, FieldName) == Str(field)
      && Get(r, OldValue) == before && Get(r, NewValue) == after
  {
  }

  lemma {:induction false} LogRowFields(no: string, field: string, before: Value, after: Value, operator: string,
                                        id: int, now: string)
    ensures
      var r := NewRow(LogRow(no, field, before, after, operator), id, now);
      && Get(r, OrderNo) == Str(no) && Get(r, FieldName) == Str(field)
      && Get(r, OldValue) == before && Get(r, NewValue) == after
  {
    var row := LogRow(no, field, before, after, operator);
    var r := NewRow(row, id, now);
    LogRowGets(no, field, before, after, operator);
    assert Get(r, OrderNo) == Get(row, OrderNo) && Get(r, FieldName) == Get(row, FieldName);
    assert Get(r, OldValue) == Get(row, OldValue) && Get(r, NewValue) == Get(row, NewValue);
  }

  lemma {:induction false} ChainPush(entries: seq<Row>, e: Row, start: Value, now: Value)
    ensures Chain(entries + [e], start, now) <==> Get(e, NewValue) == now && Chain(entries, start, Get(e, OldValue))
  {
    assert (entries + [e])[..|entries|] == entries;
  }

  /** Where a chain ends, if it is one. */
  function EndOf(entries: seq<Row>, start: Value): Value {
    if entries == [] then start else Get(entries[|entries| - 1], NewValue)
  }

  // ---- What each logged call does to the trail of each order ----

  /** The entry a status change adds. */
  function StatusLog(d: Data, no: string, before: Value, after: Value, operator: string, now: string): Row {
    NewRow(LogRow(no, "status", before, after, operator), Counter(d, OrderChangeLogs), now)
  }

  function Advance(d: Data, t: Trail, no: string, after: Value, operator: string, now: string): Trail {
    Trail(t.entries + [StatusLog(d, no, t.status, after, operator, now)], after)
  }

  predicate MayCancel(d: Data, no: string, user: int) {
    var order := FindOrder(d, no);
    order.Some? && Get(order.value, UserId) == Num(user) && Get(order.value, Status) == PENDING
  }

  function TrailAfter(d: Data, c: OrderCall, no: string): Option<Trail> {
    var t := TrailOf(d, no);
    match c
    case Place(n, _, _, _) => if n == no then Some(Trail(Entries(d, no), PENDING)) else t
    case Cancel(n, user, now) =>
      if n == no && MayCancel(d, no, user) then Some(Advance(d, t.value, no, CANCELLED, "user", now)) else t
    case SetStatus(n, status, now) =>
      if n == no && t.Some? then Some(Advance(d, t.value, no, status, "admin", now)) else t
    case SetRemark(_, _, _) => t
    case Drop(n) => if n == no then None else t
    case Browse(_, _) => t
  }

  /** The store after a logged change of the order found at i: one row replaced, one entry added. */
  lemma {:induction false} ChangeShape(d: Data, no: string, i: nat, field: string, updates: Row, before: Value,
                                       after: Value, operator: string, now: string)
    requires OrdersOk(d) && Id !in updates && OrderNo !in updates
    requires i < |Rows(d, Orders)| && IndexWhere(ById(IdOf(Rows(d, Orders)[i])), Rows(d, Orders)) == i
    ensures
      var order := Rows(d, Orders)[i];
      var e := ApplyAll(d, ChangeOps(order, no, field, updates, before, after, operator, now));
      var log := NewRow(LogRow(no, field, before, after, operator), Counter(d, OrderChangeLogs), now);
      && Complete(e)
      && IdsOk(Rows(e, Orders), Counter(e, Orders))
      && Rows(e, Orders) == Rows(d, Orders)[i := Touch(order, updates, now)]
      && Rows(e, OrderChangeLogs) == Rows(d, OrderChangeLogs) + [log]
  {
    var id := IdOf(Rows(d, Orders)[i]);
    var row := LogRow(no, field, before, after, operator);
    var d1 := ApplyData(d, Update(Orders, id, updates, now));
    var e := ApplyData(d1, Insert(OrderChangeLogs, row, now));
    ApplyTwo(d, Update(Orders, id, updates, now), Insert(OrderChangeLogs, row, now));
    UpdateStep(d, Orders, id, i, updates, now, OrderChangeLogs, d1);
    InsertStep(d1, OrderChangeLogs, row, now, Orders, e);
    MutationKeepsTableIds(d, Update(Orders, id, updates, now));
  }

  /** Replacing the order numbered n by a row of the same number. */
  lemma {:induction false} ReplacedFind(rows: seq<Row>, n: string, i: nat, x: Row, no: string)
    requires DistinctNos(rows) && i == IndexWhere(HasNo(n), rows) < |rows| && Get(x, OrderNo) == Get(rows[i], OrderNo)
    ensures DistinctNos(rows[i := x])
    ensures Find(HasNo(no), rows[i := x]) == if no == n then Some(x) else Find(HasNo(no), rows)
  {
    var rows' := rows[i := x];
    assert SameNos(rows, rows');
    SameNosFind(rows, rows', no);
    SameNosFind(rows, rows', n);
  }

  lemma {:induction false} MovedTrail(d: Data, e: Data, n: string, x: Row, entries: seq<Row>, no: string)
    requires OrdersOk(d) && Complete(e) && IdsOk(Rows(e, Orders), Counter(e, Orders))
    requires
      var rows, i := Rows(d, Orders), IndexWhere(HasNo(n), Rows(d, Orders));
      i < |rows| && Rows(e, Orders) == rows[i := x] && Get(x, OrderNo) == Get(rows[i], OrderNo)
    requires Entries(e, no) == if no == n then entries else Entries(d, no)
    ensures OrdersOk(e)
    ensures TrailOf(e, no) == if no == n then Some(Trail(entries, Get(x, Status))) else TrailOf(d, no)
  {
    ReplacedFind(Rows(d, Orders), n, IndexWhere(HasNo(n), Rows(d, Orders)), x, no);
  }

  lemma {:induction false} TouchedFields(r: Row, updates: Row, now: string)
    requires OrderNo !in updates
    ensures
      var x := Touch(r, updates, now);
      && Get(x, OrderNo) == Get(r, OrderNo)
      && Get(x, Status) == if Status in updates then updates[Status] else Get(r, Status)
  {
  }

  lemma {:induction false} EntriesAfterChange(d: Data, e: Data, n: string, field: string, before: Value, after: Value,
                                              operator: string, now: string, no: string)
    requires
      var log := NewRow(LogRow(n, field, before, after, operator), Counter(d, OrderChangeLogs), now);
      Rows(e, OrderChangeLogs) == Rows(d, OrderChangeLogs) + [log]
    ensures
      var log := NewRow(LogRow(n, field, before, after, operator), Counter(d, OrderChangeLogs), now);
      Entries(e, no) == if no == n && field == "status" then Entries(d, no) + [log] else Entries(d, no)
  {
    var log := NewRow(LogRow(n, field, before, after, operator), Counter(d, OrderChangeLogs), now);
    LogRowFields(n, field, before, after, operator, Counter(d, OrderChangeLogs), now);
    OtherEntries(d, e, log, no);
    Whole(Entries(d, no));
  }

  /** What a logged change of the order numbered n does to the trail of any order. */
  lemma {:induction false} ChangeTrail(d: Data, n: string, field: string, updates: Row, before: Value, after: Value,
                                       operator: string, now: string, no: string)
    requires OrdersOk(d) && FindOrder(d, n).Some? && Id !in updates && OrderNo !in updates
    ensures
      var order := FindOrder(d, n).value;
      var e := ApplyAll(d, ChangeOps(order, n, field, updates, before, after, operator, now));
      var log := NewRow(LogRow(n, field, before, after, operator), Counter(d, OrderChangeLogs), now);
      && OrdersOk(e)
      && TrailOf(e, no) == if no != n then TrailOf(d, no)
                           else Some(Trail(if field == "status" then Entries(d, n) + [log] else Entries(d, n),
                                           if Status in updates then updates[Status] else Get(order, Status)))
  {
    FoundOrder(d, n);
    var rows := Rows(d, Orders);
    var i := IndexWhere(HasNo(n), rows);
    var e := ApplyAll(d, ChangeOps(rows[i], n, field, updates, before, after, operator, now));
    ChangeShape(d, n, i, field, updates, before, after, operator, now);
    TouchedFields(rows[i], updates, now);
    EntriesAfterChange(d, e, n, field, before, after, operator, now, no);
    var log := NewRow(LogRow(n, field, before, after, operator), Counter(d, OrderChangeLogs), now);
    MovedTrail(d, e, n, Touch(rows[i], updates, now),
               if field == "status" then Entries(d, n) + [log] else Entries(d, n), no);
  }

  lemma {:induction false} NewOrderGets(data: Row, no: string, user: int)
    ensures Get(NewOrder(data, no, user), OrderNo) == Str(no) && Get(NewOrder(data, no, user), Status) == PENDING
  {
  }

  lemma {:induction false} NewOrderFields(data: Row, no: string, user: int, id: int, now: string)
    ensures
      var x := NewRow(NewOrder(data, no, user), id, now);
      Get(x, OrderNo) == Str(no) && Get(x, Status) == PENDING
  {
    var x := NewRow(NewOrder(data, no, user), id, now);
    NewOrderGets(data, no, user);
    assert Get(x, OrderNo) == Get(NewOrder(data, no, user), OrderNo);
    assert Get(x, Status) == Get(NewOrder(data, no, user), Status);
  }

  lemma {:induction false} PushedNos(rows: seq<Row>, x: Row, no: string)
    requires DistinctNos(rows) && Find(HasNo(no), rows).None? && Get(x, OrderNo) == Str(no)
    ensures DistinctNos(rows + [x])
  {
    var rows' := rows + [x];
    forall i, j | 0 <= i < j < |rows'| ensures Get(rows'[i], OrderNo) != Get(rows'[j], OrderNo) {
      assert !HasNo(no)(rows[i]);
    }
  }

  lemma {:induction false} PlaceTrail(d: Data, n: string, user: int, data: Row, now: string, no: string)
    requires OrdersOk(d) && FindOrder(d, n).None?
    ensures
      var e := AfterCall(d, Place(n, user, data, now));
      OrdersOk(e) && TrailOf(e, no) == if no == n then Some(Trail(Entries(d, no), PENDING)) else TrailOf(d, no)
  {
    var row := NewOrder(data, n, user);
    var op := Insert(Orders, row, now);
    var e := ApplyData(d, op);
    var x := NewRow(row, Counter(d, Orders), now);
    ApplyOne(d, op);
    InsertStep(d, Orders, row, now, OrderChangeLogs, e);
    MutationKeepsTableIds(d, op);
    NewOrderFields(data, n, user, Counter(d, Orders), now);
    PushedNos(Rows(d, Orders), x, n);
    FindAfterAppend(HasNo(no), Rows(d, Orders), x);
  }

  lemma {:induction false} DropShape(d: Data, no: string, id: int)
    requires OrdersOk(d)
    ensures
      var e := ApplyAll(d, [RemoveWhere(OrderItems, Pointing(OrderNo, Str(no))), Remove(Orders, id)]);
      && Complete(e) && Counter(e, Orders) == Counter(d, Orders)
      && Rows(e, Orders) == Filter(Except(ById(id)), Rows(d, Orders))
      && Rows(e, OrderChangeLogs) == Rows(d, OrderChangeLogs)
  {
    var a, b := RemoveWhere(OrderItems, Pointing(OrderNo, Str(no))), Remove(Orders, id);
    ApplyTwo(d, a, b);
    var d1 := ApplyData(d, a);
    ApplyRows(d, a, Orders);
    ApplyRows(d, a, OrderChangeLogs);
    ApplyRows(d1, b, Orders);
    ApplyRows(d1, b, OrderChangeLogs);
    RemoveIsFilter(Rows(d, Orders), id);
  }

  lemma {:induction false} IdOfNumber(d: Data, n: string, no: string)
    requires OrdersOk(d) && FindOrder(d, n).Some? && FindOrder(d, no).Some?
    ensures ById(IdOf(FindOrder(d, n).value))(FindOrder(d, no).value) <==> n == no
  {
    FoundOrder(d, n);
    FoundOrder(d, no);
  }

  lemma {:induction false} DropTrail(d: Data, n: string, no: string)
    requires OrdersOk(d)
    ensures
      var e := AfterCall(d, Drop(n));
      OrdersOk(e) && TrailOf(e, no) == if n == no then None else TrailOf(d, no)
  {
    if FindOrder(d, n).None? {
      assert ApplyAll(d, []) == d;
    } else {
      var id := IdOf(FindOrder(d, n).value);
      var rows := Rows(d, Orders);
      assert OrderOps(d, Drop(n)) == [RemoveWhere(OrderItems, Pointing(OrderNo, Str(n))), Remove(Orders, id)];
      DropShape(d, n, id);
      FilterKeepsIds(rows, Counter(d, Orders), Except(ById(id)));
      FilterNos(Except(ById(id)), rows);
      FilterFind(Except(ById(id)), rows, no);
      if FindOrder(d, no).Some? { IdOfNumber(d, n, no); }
    }
  }

  lemma {:induction false} BrowseTrail(d: Data, leq: (Row, Row) -> bool, filtered: bool, no: string)
    requires OrdersOk(d)
    ensures
      var e := AfterCall(d, Browse(leq, filtered));
      OrdersOk(e) && TrailOf(e, no) == TrailOf(d, no)
  {
    if filtered {
      assert ApplyAll(d, []) == d;
    } else {
      var op := SortInPlace(Orders, leq);
      ApplyOne(d, op);
      SortTrail(d, leq, no, ApplyData(d, op));
    }
  }

  lemma {:induction false} SortTrail(d: Data, leq: (Row, Row) -> bool, no: string, e: Data)
    requires OrdersOk(d) && e == ApplyData(d, SortInPlace(Orders, leq))
    ensures OrdersOk(e) && TrailOf(e, no) == TrailOf(d, no)
  {
    ApplyRows(d, SortInPlace(Orders, leq), Orders);
    ApplyRows(d, SortInPlace(Orders, leq), OrderChangeLogs);
    MutationKeepsTableIds(d, SortInPlace(Orders, leq));
    SortFind(leq, Rows(d, Orders), no);
  }

  /** A logged change of the status. */
  lemma {:induction false} StatusTrail(d: Data, n: string, status: Value, operator: string, now: string, no: string,
                                       e: Data)
    requires OrdersOk(d) && FindOrder(d, n).Some?
    requires
      var order := FindOrder(d, n).value;
      e == ApplyAll(d, ChangeOps(order, n, "status", map[Status := status], Get(order, Status), status, operator, now))
    ensures OrdersOk(e)
    ensures TrailOf(e, no)
            == if no == n then Some(Advance(d, TrailOf(d, n).value, n, status, operator, now)) else TrailOf(d, no)
  {
    var updates: Row := map[Status := status];
    assert Status in updates && updates[Status] == status && Id !in updates && OrderNo !in updates;
    ChangeTrail(d, n, "status", updates, Get(FindOrder(d, n).value, Status), status, operator, now, no);
  }

  lemma {:induction false} CancelTrail(d: Data, n: string, user: int, now: string, no: string)
    requires OrdersOk(d)
    ensures OrdersOk(AfterCall(d, Cancel(n, user, now)))
    ensures TrailOf(AfterCall(d, Cancel(n, user, now)), no) == TrailAfter(d, Cancel(n, user, now), no)
  {
    if MayCancel(d, n, user) {
      StatusTrail(d, n, CANCELLED, "user", now, no, AfterCall(d, Cancel(n, user, now)));
    } else {
      assert ApplyAll(d, []) == d;
    }
  }

  lemma {:induction false} SetStatusTrail(d: Data, n: string, status: Value, now: string, no: string)
    requires OrdersOk(d)
    ensures OrdersOk(AfterCall(d, SetStatus(n, status, now)))
    ensures TrailOf(AfterCall(d, SetStatus(n, status, now)), no) == TrailAfter(d, SetStatus(n, status, now), no)
  {
    if FindOrder(d, n).Some? {
      StatusTrail(d, n, status, "admin", now, no, AfterCall(d, SetStatus(n, status, now)));
    } else {
      assert ApplyAll(d, []) == d;
    }
  }

  lemma {:induction false} RemarkTrail(d: Data, n: string, updates: Row, before: Value, after: Value, now: string,
                                       no: string, e: Data)
    requires OrdersOk(d) && FindOrder(d, n).Some? && Status !in updates && Id !in updates && OrderNo !in updates
    requires e == ApplyAll(d, ChangeOps(FindOrder(d, n).value, n, "remark", updates, before, after, "admin", now))
    ensures OrdersOk(e) && TrailOf(e, no) == TrailOf(d, no)
  {
    ChangeTrail(d, n, "remark", updates, before, after, "admin", now, no);
  }

  lemma {:induction false} SetRemarkTrail(d: Data, n: string, remark: Value, now: string, no: string)
    requires OrdersOk(d)
    ensures OrdersOk(AfterCall(d, SetRemark(n, remark, now)))
    ensures TrailOf(AfterCall(d, SetRemark(n, remark, now)), no) == TrailOf(d, no)
  {
    if FindOrder(d, n).Some? {
      var before, after := Or(Get(FindOrder(d, n).value, Remark), Str("")), Or(remark, Str(""));
      RemarkTrail(d, n, map[Remark := remark], before, after, now, no, AfterCall(d, SetRemark(n, remark, now)));
    } else {
      assert ApplyAll(d, []) == d;
    }
  }

  /** What each logged call does to the trail of each order, in any store with good ids and distinct numbers. */
  lemma {:induction false} CallTrail(d: Data, c: OrderCall, no: string)
    requires OrdersOk(d) && (c.Place? ==> FindOrder(d, c.no).None?)
    ensures OrdersOk(AfterCall(d, c)) && TrailOf(AfterCall(d, c), no) == TrailAfter(d, c, no)
  {
    match c
    case Place(n, user, data, now) => PlaceTrail(d, n, user, data, now, no);
    case Cancel(n, user, now) => CancelTrail(d, n, user, now, no);
    case SetStatus(n, status, now) => SetStatusTrail(d, n, status, now, no);
    case SetRemark(n, remark, now) => SetRemarkTrail(d, n, remark, now, no);
    case Drop(n) => DropTrail(d, n, no);
    case Browse(leq, filtered) => BrowseTrail(d, leq, filtered, no);
  }

  /** One more entry, from the status before to the status after, leaves the chain whole exactly when it was. */
  lemma {:induction false} AdvanceOk(d: Data, t: Trail, no: string, after: Value, operator: string, now: string)
    ensures TrailOk(Advance(d, t, no, after, operator, now)) <==> TrailOk(t)
  {
    var log := StatusLog(d, no, t.status, after, operator, now);
    LogRowFields(no, "status", t.status, after, operator, Counter(d, OrderChangeLogs), now);
    ChainPush(t.entries, log, PENDING, after);
  }

  /** No logged call mends or breaks the chain of an order, whatever state the other orders are in: it is
      whole after the call exactly when it was whole before. */
  lemma {:induction false} LoggedChangeMendsNothing(d: Data, c: OrderCall, no: string)
    requires OrdersOk(d) && TrailOf(d, no).Some? && (c.Place? ==> FindOrder(d, c.no).None?) && (c.Drop? ==> c.no != no)
    ensures
      var t, t' := TrailOf(d, no), TrailOf(AfterCall(d, c), no);
      t'.Some? && (TrailOk(t'.value) <==> TrailOk(t.value))
  {
    var t := TrailOf(d, no).value;
    CallTrail(d, c, no);
    if c.Cancel? { AdvanceOk(d, t, no, CANCELLED, "user", c.now); }
    if c.SetStatus? { AdvanceOk(d, t, no, c.status, "admin", c.now); }
  }

  lemma {:induction false} CallKeepsLogs(d: Data, c: OrderCall)
    requires LogsOk(d) && (c.Place? ==> MayPlace(d, c.no))
    ensures LogsOk(AfterCall(d, c))
  {
    CallTrail(d, c, "");
    forall no | TrailOf(AfterCall(d, c), no).Some? ensures TrailOk(TrailOf(AfterCall(d, c), no).value) {
      CallTrail(d, c, no);
      if TrailOf(d, no).Some? { LoggedChangeMendsNothing(d, c, no); }
    }
  }

  /** An order placed under a number that another has breaks the numbers. */
  lemma {:induction false} PlaceTaken(d: Data, n: string, user: int, data: Row, now: string)
    requires OrdersOk(d) && FindOrder(d, n).Some?
    ensures !OrdersOk(AfterCall(d, Place(n, user, data, now)))
  {
    var row := NewOrder(data, n, user);
    ApplyOne(d, Insert(Orders, row, now));
    NewOrderGets(data, n, user);
    NumberTwice(d, n, row, now, ApplyData(d, Insert(Orders, row, now)));
  }

  lemma {:induction false} NumberTwice(d: Data, n: string, row: Row, now: string, e: Data)
    requires FindOrder(d, n).Some? && Get(row, OrderNo) == Str(n) && e == ApplyData(d, Insert(Orders, row, now))
    ensures !DistinctNos(Rows(e, Orders))
  {
    var rows, x := Rows(d, Orders), NewRow(row, Counter(d, Orders), now);
    InsertStep(d, Orders, row, now, OrderChangeLogs, e);
    assert Get(x, OrderNo) == Get(row, OrderNo);
    SharedNumber(rows, x, n, Rows(e, Orders));
  }

  lemma {:induction false} SharedNumber(rows: seq<Row>, x: Row, n: string, after: seq<Row>)
    requires Find(HasNo(n), rows).Some? && Get(x, OrderNo) == Str(n) && after == rows + [x]
    ensures !DistinctNos(after)
  {
    var i := IndexWhere(HasNo(n), rows);
    assert HasNo(n)(rows[i]);
    assert Get(after[i], OrderNo) == Get(after[|rows|], OrderNo);
  }

  /** The log stays whole through each call, except where an order is placed under a number that it may not
      have. */
  lemma {:induction false} CallKeepsLogsIff(d: Data, c: OrderCall)
    requires LogsOk(d)
    ensures LogsOk(AfterCall(d, c)) <==> (c.Place? ==> MayPlace(d, c.no))
  {
    if c.Place? && FindOrder(d, c.no).Some? {
      PlaceTaken(d, c.no, c.user, c.data, c.now);
    } else {
      if c.Place? ==> MayPlace(d, c.no) { CallKeepsLogs(d, c); }
      if c.Place? { CallTrail(d, c, c.no); }
    }
  }

  // ---- Other handlers ----

  /** A change that touches no order's number or status and adds no status entry. It may remove orders. */
  predicate LogNeutral(m: Mutation) {
    match m.t
    case Orders =>
      !m.Insert? && (m.Update? || m.UpdateWhere? ==> Id !in m.updates && OrderNo !in m.updates && Status !in m.updates)
    case OrderChangeLogs => m.Bump? || (m.Insert? && Get(m.row, FieldName) != Str("status"))
    case _ => true
  }

  predicate RemovesOrders(m: Mutation) {
    m.t == Orders && (m.Remove? || m.RemoveWhere?)
  }

  predicate SameStatus(a: seq<Row>, b: seq<Row>) {
    SameNos(a, b) && forall i :: 0 <= i < |a| ==> Get(a[i], Status) == Get(b[i], Status)
  }

  lemma {:induction false} UpdatedStatus(rows: seq<Row>, updates: Row, now: string, after: seq<Row>)
    requires |after| == |rows| && OrderNo !in updates && Status !in updates
    requires forall i :: 0 <= i < |rows| ==> after[i] == rows[i] || after[i] == Touch(rows[i], updates, now)
    ensures SameStatus(rows, after)
  {
    forall i | 0 <= i < |rows|
      ensures Get(after[i], OrderNo) == Get(rows[i], OrderNo) && Get(after[i], Status) == Get(rows[i], Status)
    {
      TouchedFields(rows[i], updates, now);
    }
  }

  lemma {:induction false} UpdateRowStatus(rows: seq<Row>, id: int, updates: Row, now: string)
    requires OrderNo !in updates && Status !in updates
    ensures SameStatus(rows, UpdateRow(rows, id, updates, now))
  {
    var i := IndexWhere(ById(id), rows);
    if i < |rows| {
      TouchedFields(rows[i], updates, now);
      ReplacedStatus(rows, i, Touch(rows[i], updates, now));
    }
  }

  lemma {:induction false} ReplacedStatus(rows: seq<Row>, i: nat, x: Row)
    requires i < |rows| && Get(x, OrderNo) == Get(rows[i], OrderNo) && Get(x, Status) == Get(rows[i], Status)
    ensures SameStatus(rows, rows[i := x])
  {
  }

  lemma {:induction false} SameStatusFind(a: seq<Row>, b: seq<Row>, no: string)
    requires SameStatus(a, b) && DistinctNos(a)
    ensures DistinctNos(b) && StatusAt(b, no) == StatusAt(a, no)
  {
    SameNosFind(a, b, no);
  }

  /** The status of the order of a number. */
  function StatusAt(rows: seq<Row>, no: string): Option<Value> {
    var r := Find(HasNo(no), rows);
    if r.Some? then Some(Get(r.value, Status)) else None
  }

  lemma {:induction false} FilterStatus(p: Row -> bool, rows: seq<Row>, no: string)
    requires DistinctNos(rows)
    ensures DistinctNos(Filter(p, rows))
    ensures StatusAt(Filter(p, rows), no) == StatusAt(rows, no) || StatusAt(Filter(p, rows), no).None?
  {
    FilterNos(p, rows);
    FilterFind(p, rows, no);
  }

  /** What a neutral change of the orders does to an order. */
  lemma {:induction false} NeutralOrders(d: Data, m: Mutation, no: string)
    requires OrdersOk(d) && LogNeutral(m) && m.t == Orders
    ensures DistinctNos(NewRows(d, m))
    ensures StatusAt(NewRows(d, m), no) == StatusAt(Rows(d, Orders), no)
            || (RemovesOrders(m) && StatusAt(NewRows(d, m), no).None?)
  {
    var rows, rows' := Rows(d, Orders), NewRows(d, m);
    if m.Update? {
      UpdateRowStatus(rows, m.id, m.updates, m.now);
      SameStatusFind(rows, rows', no);
    } else if m.UpdateWhere? {
      UpdatedStatus(rows, m.updates, m.now, UpdateRows(rows, m.p, m.updates, m.now));
      SameStatusFind(rows, rows', no);
    } else if m.Remove? {
      RemoveIsFilter(rows, m.id);
      FilterStatus(Except(ById(m.id)), rows, no);
    } else if m.RemoveWhere? {
      FilterStatus(Except(m.p), rows, no);
    } else if m.SortInPlace? {
      SortFind(m.leq, rows, no);
    }
  }

  lemma {:induction false} NeutralEntries(d: Data, m: Mutation, no: string)
    requires LogNeutral(m)
    ensures Entries(ApplyData(d, m), no) == Entries(d, no)
  {
    ApplyRows(d, m, OrderChangeLogs);
    if m.t == OrderChangeLogs && m.Insert? {
      var log := NewRow(m.row, Counter(d, OrderChangeLogs), m.now);
      assert Get(log, FieldName) == Get(m.row, FieldName);
      OtherEntries(d, ApplyData(d, m), log, no);
      Whole(Entries(d, no));
    }
  }

  /** A neutral change leaves the trail of every order that is still there as it was. */
  lemma {:induction false} NeutralTrail(d: Data, m: Mutation, no: string)
    requires OrdersOk(d) && LogNeutral(m)
    ensures OrdersOk(ApplyData(d, m))
    ensures TrailOf(ApplyData(d, m), no) == TrailOf(d, no) || (RemovesOrders(m) && TrailOf(ApplyData(d, m), no).None?)
  {
    ApplyRows(d, m, Orders);
    NeutralEntries(d, m, no);
    if m.t == Orders {
      MutationKeepsTableIds(d, m);
      NeutralOrders(d, m, no);
    }
  }

  lemma {:induction false} NeutralAll(d: Data, ops: seq<Mutation>, no: string)
    requires OrdersOk(d) && forall i :: 0 <= i < |ops| ==> LogNeutral(ops[i])
    ensures OrdersOk(ApplyAll(d, ops))
    ensures TrailOf(ApplyAll(d, ops), no) == TrailOf(d, no) || TrailOf(ApplyAll(d, ops), no).None?
    ensures (forall i :: 0 <= i < |ops| ==> !RemovesOrders(ops[i])) ==> TrailOf(ApplyAll(d, ops), no) == TrailOf(d, no)
  {
    if ops != [] {
      NeutralAll(d, ops[..|ops| - 1], no);
      NeutralTrail(ApplyAll(d, ops[..|ops| - 1]), ops[|ops| - 1], no);
    }
  }

  lemma {:induction false} NeutralKeepsLogs(d: Data, ops: seq<Mutation>)
    requires LogsOk(d) && forall i :: 0 <= i < |ops| ==> LogNeutral(ops[i])
    ensures LogsOk(ApplyAll(d, ops))
  {
    NeutralAll(d, ops, "");
    forall no | TrailOf(ApplyAll(d, ops), no).Some? ensures TrailOk(TrailOf(ApplyAll(d, ops), no).value) {
      NeutralAll(d, ops, no);
    }
  }

  /** A logged order handler, which places an order under a number that it may have, or any handler whose
      changes are neutral. */
  ghost predicate LoggedHandler(a: Action, d: Data) {
    a.Handle? ==> (exists c: OrderCall :: a.body == OrderBody(c) && (c.Place? ==> MayPlace(d, c.no)))
                  || forall i :: 0 <= i < |a.body(d).ops| ==> LogNeutral(a.body(d).ops[i])
  }

  lemma {:induction false} LoggedHandlerKeeps(a: Action, d: Data)
    requires LogsOk(d) && a.Handle? && LoggedHandler(a, d)
    ensures LogsOk(ApplyAll(d, a.body(d).ops))
  {
    if c: OrderCall :| a.body == OrderBody(c) && (c.Place? ==> MayPlace(d, c.no)) {
      CallKeepsLogs(d, c);
    } else {
      NeutralKeepsLogs(d, a.body(d).ops);
    }
  }

  /** In every run of the logged handlers and of any others that leave numbers, statuses and status entries
      alone, with crashes and rollbacks, the status entries of every order lead from its creation status to
      its present one, in memory, on disk and after every recovery. */
  lemma {:induction false} LogsOverRuns(m: Machine, es: seq<Event>)
    requires Inv(m) && Everywhere(d => LogsOk(d), m)
    requires forall i :: 0 <= i < |es| ==> LoggedHandler(es[i].a, Memory(Run(m, es[..i]))) && !es[i].a.ClearAll?
    ensures Everywhere(d => LogsOk(d), Run(m, es))
  {
    var P := d => LogsOk(d);
    forall i | 0 <= i < |es| ensures KeepsHere(P, Run(m, es[..i]), es[i].a) {
      var a, d := es[i].a, Memory(Run(m, es[..i]));
      assert LoggedHandler(a, d);
      if a.Handle? && P(d) { LoggedHandlerKeeps(a, d); }
    }
    assert Everywhere(P, m);
    InvariantAlongRun(P, m, es);
  }

  // ---- Cancelling ----

  /** A user's cancel changes an order only if it is the user's own and still waits for payment, and then
      moves just that order to CANCELLED. */
  lemma {:induction false} CancelOnlyPending(d: Data, no: string, user: int, now: string)
    requires OrdersOk(d)
    ensures
      var rows, i := Rows(d, Orders), IndexWhere(HasNo(no), Rows(d, Orders));
      var e := AfterCall(d, Cancel(no, user, now));
      if i < |rows| && Get(rows[i], UserId) == Num(user) && Get(rows[i], Status) == PENDING
      then Rows(e, Orders) == rows[i := Touch(rows[i], map[Status := CANCELLED], now)]
      else e == d
  {
    if MayCancel(d, no, user) {
      var order := FindOrder(d, no).value;
      var updates := map[Status := CANCELLED];
      var ops := ChangeOps(order, no, "status", updates, Get(order, Status), CANCELLED, "user", now);
      assert OrderOps(d, Cancel(no, user, now)) == ops;
      assert Id !in updates && OrderNo !in updates;
      ChangedOrders(d, no, "status", updates, CANCELLED, "user", now, ApplyAll(d, ops));
    } else {
      assert ApplyAll(d, []) == d;
    }
  }

  lemma {:induction false} ChangedOrders(d: Data, no: string, field: string, updates: Row, after: Value,
                                         operator: string, now: string, e: Data)
    requires OrdersOk(d) && FindOrder(d, no).Some? && Id !in updates && OrderNo !in updates
    requires e == ApplyAll(d,
                           ChangeOps(FindOrder(d, no).value, no, field, updates, Get(FindOrder(d, no).value, Status),
                                     after, operator, now))
    ensures
      var rows, i := Rows(d, Orders), IndexWhere(HasNo(no), Rows(d, Orders));
      i < |rows| && FindOrder(d, no) == Some(rows[i]) && Rows(e, Orders) == rows[i := Touch(rows[i], updates, now)]
  {
    FoundOrder(d, no);
    var i := IndexWhere(HasNo(no), Rows(d, Orders));
    ChangeShape(d, no, i, field, updates, Get(Rows(d, Orders)[i], Status), after, operator, now);
  }

  /** Moving the status of the order numbered n and adding no entry. */
  lemma {:induction false} SilentTrail(d: Data, n: string, updates: Row, now: string, no: string, e: Data)
    requires OrdersOk(d) && FindOrder(d, n).Some? && Id !in updates && OrderNo !in updates && Status in updates
    requires e == ApplyData(d, Update(Orders, IdOf(FindOrder(d, n).value), updates, now))
    ensures OrdersOk(e)
    ensures TrailOf(e, no) == if no == n then Some(Trail(Entries(d, no), updates[Status])) else TrailOf(d, no)
  {
    FoundOrder(d, n);
    var rows := Rows(d, Orders);
    var i := IndexWhere(HasNo(n), rows);
    UpdateStep(d, Orders, IdOf(rows[i]), i, updates, now, OrderChangeLogs, e);
    MutationKeepsTableIds(d, Update(Orders, IdOf(rows[i]), updates, now));
    TouchedFields(rows[i], updates, now);
    MovedTrail(d, e, n, Touch(rows[i], updates, now), Entries(d, n), no);
  }

  /** What the unlogged cancel does to the trail of each order: the status moves and no entry is added. */
  lemma {:induction false} UnloggedTrail(d: Data, n: string, user: int, now: string, no: string)
    requires OrdersOk(d)
    ensures
      var e := ApplyAll(d, UnloggedCancelOps(d, n, user, now));
      && OrdersOk(e)
      && TrailOf(e, no)
         == if n == no && MayCancel(d, no, user) then Some(Trail(Entries(d, no), CANCELLED)) else TrailOf(d, no)
  {
    if MayCancel(d, n, user) {
      var op := Update(Orders, IdOf(FindOrder(d, n).value), map[Status := CANCELLED], now);
      ApplyOne(d, op);
      SilentTrail(d, n, map[Status := CANCELLED], now, no, ApplyData(d, op));
    } else {
      assert ApplyAll(d, []) == d;
    }
  }

  /** The unlogged cancel breaks a whole chain every time it cancels, and only then. */
  lemma {:induction false} UnloggedCancelBreaks(d: Data, no: string, user: int, now: string)
    requires OrdersOk(d) && TrailOf(d, no).Some? && TrailOk(TrailOf(d, no).value)
    ensures
      var t := TrailOf(ApplyAll(d, UnloggedCancelOps(d, no, user, now)), no);
      t.Some? && (TrailOk(t.value) <==> !MayCancel(d, no, user))
  {
    UnloggedTrail(d, no, user, now, no);
    if MayCancel(d, no, user) && Chain(Entries(d, no), PENDING, CANCELLED) {
      ChainEndsOnce(Entries(d, no), PENDING, PENDING, CANCELLED);
    }
  }

  lemma {:induction false} UnloggedKeepsLogsIff(d: Data, no: string, user: int, now: string)
    requires LogsOk(d)
    ensures LogsOk(ApplyAll(d, UnloggedCancelOps(d, no, user, now))) <==> !MayCancel(d, no, user)
  {
    if MayCancel(d, no, user) {
      UnloggedCancelBreaks(d, no, user, now);
    } else {
      assert ApplyAll(d, []) == d;
    }
  }

  // ---- Runs with both cancels ----

  datatype OrderStep =
    | Logged(c: OrderCall)
    | Unlogged(no: string, user: int, now: string)
    | Other(body: Body)

  function StepBody(s: OrderStep): Body {
    match s
    case Logged(c) => OrderBody(c)
    case Unlogged(no, user, now) => d => Effects(UnloggedCancelOps(d, no, user, now), false)
    case Other(body) => body
  }

  function AfterStep(d: Data, s: OrderStep): Data {
    ApplyAll(d, StepBody(s)(d).ops)
  }

  function AfterSteps(d: Data, steps: seq<OrderStep>): Data {
    if steps == [] then d else AfterStep(AfterSteps(d, steps[..|steps| - 1]), steps[|steps| - 1])
  }

  function Bodies(steps: seq<OrderStep>): seq<Body> {
    if steps == [] then [] else Bodies(steps[..|steps| - 1]) + [StepBody(steps[|steps| - 1])]
  }

  predicate Allowed(d: Data, s: OrderStep) {
    match s
    case Logged(c) => c.Place? ==> MayPlace(d, c.no)
    case Unlogged(_, _, _) => true
    case Other(body) => forall i :: 0 <= i < |body(d).ops| ==> LogNeutral(body(d).ops[i])
  }

  predicate AllAllowed(d: Data, steps: seq<OrderStep>) {
    steps == []
    || (AllAllowed(d, steps[..|steps| - 1]) && Allowed(AfterSteps(d, steps[..|steps| - 1]), steps[|steps| - 1]))
  }

  /** An unlogged cancel has taken effect on the order since it was placed. */
  predicate CancelledUnlogged(d: Data, steps: seq<OrderStep>, no: string) {
    steps != []
    && var init, last := steps[..|steps| - 1], steps[|steps| - 1];
       if last.Logged? && last.c.Place? && last.c.no == no then false
       else || (last.Unlogged? && last.no == no && MayCancel(AfterSteps(d, init), no, last.user))
            || CancelledUnlogged(d, init, no)
  }

  /** The trail after an unlogged cancel: the entries still end at PENDING_PAYMENT, or they are no chain at all. */
  predicate Adrift(t: Trail) {
    Chain(t.entries, PENDING, EndOf(t.entries, PENDING))
    ==> EndOf(t.entries, PENDING) == PENDING && t.status == CANCELLED
  }

  lemma {:induction false} ChainEnd(entries: seq<Row>, start: Value, v: Value)
    requires Chain(entries, start, v)
    ensures v == EndOf(entries, start)
  {
  }

  lemma {:induction false} AdriftNotOk(t: Trail)
    requires Adrift(t)
    ensures !TrailOk(t)
  {
    if TrailOk(t) { ChainEnd(t.entries, PENDING, t.status); }
  }

  lemma {:induction false} AdvanceAdrift(d: Data, t: Trail, no: string, after: Value, operator: string, now: string)
    requires Adrift(t)
    ensures Adrift(Advance(d, t, no, after, operator, now))
  {
    var log := StatusLog(d, no, t.status, after, operator, now);
    AdriftNotOk(t);
    LogRowFields(no, "status", t.status, after, operator, Counter(d, OrderChangeLogs), now);
    ChainPush(t.entries, log, PENDING, after);
  }

  lemma {:induction false} StepTrail(d: Data, s: OrderStep, no: string)
    requires OrdersOk(d) && Allowed(d, s)
    ensures OrdersOk(AfterStep(d, s))
    ensures
      var t, t' := TrailOf(d, no), TrailOf(AfterStep(d, s), no);
      match s
      case Logged(c) => t' == TrailAfter(d, c, no)
      case Unlogged(n, user, _) =>
        t' == if n == no && MayCancel(d, no, user) then Some(Trail(Entries(d, no), CANCELLED)) else t
      case Other(_) => t' == t || t'.None?
  {
    match s
    case Logged(c) => CallTrail(d, c, no);
    case Unlogged(n, user, now) => UnloggedTrail(d, n, user, now, no);
    case Other(body) => NeutralAll(d, body(d).ops, no);
  }

  /** What is known of a trail: whole, or adrift after an unlogged cancel. */
  predicate Known(t: Option<Trail>, cancelled: bool) {
    t.Some? ==> if cancelled then Adrift(t.value) else TrailOk(t.value)
  }

  lemma {:induction false} LoggedKnown(d: Data, c: OrderCall, no: string, cancelled: bool)
    requires OrdersOk(d) && (c.Place? ==> MayPlace(d, c.no)) && Known(TrailOf(d, no), cancelled)
    ensures Known(TrailAfter(d, c, no), if c.Place? && c.no == no then false else cancelled)
  {
    if TrailOf(d, no).Some? {
      var t := TrailOf(d, no).value;
      if c.Cancel? {
        AdvanceOk(d, t, no, CANCELLED, "user", c.now);
        if cancelled { AdvanceAdrift(d, t, no, CANCELLED, "user", c.now); }
      }
      if c.SetStatus? {
        AdvanceOk(d, t, no, c.status, "admin", c.now);
        if cancelled { AdvanceAdrift(d, t, no, c.status, "admin", c.now); }
      }
    }
  }

  lemma {:induction false} UnloggedKnown(d: Data, no: string, cancelled: bool)
    requires TrailOf(d, no).Some? && TrailOf(d, no).value.status == PENDING && Known(TrailOf(d, no), cancelled)
    ensures Adrift(Trail(Entries(d, no), CANCELLED))
  {
    if !cancelled { ChainEnd(Entries(d, no), PENDING, PENDING); }
  }

  lemma {:induction false} StepsKnown(d: Data, steps: seq<OrderStep>, no: string)
    requires OrdersOk(d) && AllAllowed(d, steps) && Known(TrailOf(d, no), false)
    ensures OrdersOk(AfterSteps(d, steps))
    ensures Known(TrailOf(AfterSteps(d, steps), no), CancelledUnlogged(d, steps, no))
  {
    if steps != [] {
      var init, last := steps[..|steps| - 1], steps[|steps| - 1];
      StepsKnown(d, init, no);
      var e, cancelled := AfterSteps(d, init), CancelledUnlogged(d, init, no);
      StepTrail(e, last, no);
      if last.Logged? { LoggedKnown(e, last.c, no, cancelled); }
      if last.Unlogged? && last.no == no && MayCancel(e, no, last.user) { UnloggedKnown(e, no, cancelled); }
    }
  }

  /** Over every sequence of logged handlers, unlogged cancels and neutral handlers, the chain of an order is
      whole if and only if no unlogged cancel has taken effect on it since it was placed. */
  lemma {:induction false} WholeIffNoUnloggedCancel(d: Data, steps: seq<OrderStep>, no: string)
    requires OrdersOk(d) && AllAllowed(d, steps)
    requires TrailOf(d, no).Some? ==> TrailOk(TrailOf(d, no).value)
    ensures
      var t := TrailOf(AfterSteps(d, steps), no);
      t.Some? ==> (TrailOk(t.value) <==> !CancelledUnlogged(d, steps, no))
  {
    StepsKnown(d, steps, no);
    var t := TrailOf(AfterSteps(d, steps), no);
    if t.Some? && CancelledUnlogged(d, steps, no) { AdriftNotOk(t.value); }
  }

  lemma {:induction false} StepsAreReplay(d: Data, steps: seq<OrderStep>)
    ensures Replay(d, Bodies(steps)) == AfterSteps(d, steps)
  {
    if steps != [] {
      StepsAreReplay(d, steps[..|steps| - 1]);
      ReplayPush(d, Bodies(steps[..|steps| - 1]), StepBody(steps[|steps| - 1]));
    }
  }

  /** The same of the running system: of the handlers whose changes are in memory after a run with timers,
      transactions and crashes, and of those whose changes are on disk. */
  lemma {:induction false} WholeIffOverRuns(m: Machine, es: seq<Event>, memory: seq<OrderStep>, disk: seq<OrderStep>,
                                            no: string)
    requires Inv(m) && m.s.cache.None? && OrdersOk(Memory(m))
    requires forall i :: 0 <= i < |es| ==> !es[i].a.ClearAll?
    requires HistoryOf(m, es).memory == Bodies(memory) && AllAllowed(Memory(m), memory)
    requires HistoryOf(m, es).disk == Bodies(disk) && AllAllowed(Memory(m), disk)
    requires TrailOf(Memory(m), no).Some? ==> TrailOk(TrailOf(Memory(m), no).value)
    ensures
      var r := Run(m, es);
      var t, kept := TrailOf(Memory(r), no), TrailOf(Durable(r), no);
      && (t.Some? ==> (TrailOk(t.value) <==> !CancelledUnlogged(Memory(m), memory, no)))
      && (kept.Some? ==> (TrailOk(kept.value) <==> !CancelledUnlogged(Memory(m), disk, no)))
  {
    RunsAreReplays(m, es);
    StepsAreReplay(Memory(m), memory);
    StepsAreReplay(Memory(m), disk);
    WholeIffNoUnloggedCancel(Memory(m), memory, no);
    WholeIffNoUnloggedCancel(Memory(m), disk, no);
  }
}
