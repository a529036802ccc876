/** `scripts/migrate_welfare_note_to_buyer_note.ts`: copies the notes of consumed welfare codes to their
    orders in one transaction, and then checks its own work against snapshots. SQL NULL is None; two NULLs
    are not equal in a join. */
module NoteMigration {
  import opened Values
  import opened Seqs

  datatype Welfare = Welfare(code: Option<string>, note: Option<string>, orderNo: Option<string>, status: int,
                             productId: int)

  datatype Order = Order(orderNo: string, invite: Option<string>, buyerNote: Option<string>)

  datatype Item = Item(id: int, orderNo: string, skuId: int, title: string, quantity: int, salePrice: int,
                       totalPrice: int, skuAttrs: Option<string>)

  datatype Cell = Text(text: string) | Number(number: int)

  /** The fields that must come out of the migration as they went in. */
  function Compared(it: Item): seq<Cell> {
    [Text(it.orderNo), Number(it.skuId), Text(it.title), Number(it.quantity), Number(it.salePrice),
     Number(it.totalPrice)]
  }

  /** The condition of every query: product 1, consumed, with an order number. */
  predicate Target(w: Welfare) {
    w.productId == 1 && w.status == 2 && w.orderNo.Some? && w.orderNo.value != ""
  }

  /** `JOIN orders o ON o.order_no = w.consumed_order_no` */
  predicate Consumes(w: Welfare, o: Order) {
    Target(w) && w.orderNo == Some(o.orderNo)
  }

  /** The same with `o.invite_code = w.code`, as the updates ask. */
  function Named(o: Order): Welfare -> bool {
    (w: Welfare) => Consumes(w, o) && o.invite.Some? && o.invite == w.code
  }

  function Match(codes: seq<Welfare>, o: Order): Option<Welfare> {
    Find(Named(o), codes)
  }

  // ---- The two updates ----

  /** An order takes the note of the code that names it. MySQL updates a row once, from one match. */
  function Noted(codes: seq<Welfare>, o: Order): Order {
    var w := Match(codes, o);
    if w.Some? then o.(buyerNote := w.value.note) else o
  }

  function NotedOrders(codes: seq<Welfare>, orders: seq<Order>): seq<Order> {
    seq(|orders|, i requires 0 <= i < |orders| => Noted(codes, orders[i]))
  }

  predicate OrderNamed(codes: seq<Welfare>, orders: seq<Order>, no: string) {
    exists k :: 0 <= k < |orders| && orders[k].orderNo == no && Match(codes, orders[k]).Some?
  }

  function Bared(codes: seq<Welfare>, orders: seq<Order>, it: Item): Item {
    if it.skuId == 1 && OrderNamed(codes, orders, it.orderNo) then it.(skuAttrs := None) else it
  }

  function BaredItems(codes: seq<Welfare>, orders: seq<Order>, items: seq<Item>): seq<Item> {
    seq(|items|, i requires 0 <= i < |items| => Bared(codes, orders, items[i]))
  }

  // ---- The snapshots ----

  datatype Shot = Shot(orderNo: string, invite: Option<string>, buyerNote: Option<string>, note: Option<string>)

  function ShotOf(w: Welfare, o: Order): Shot {
    Shot(o.orderNo, o.invite, o.buyerNote, w.note)
  }

  function OrderShots(codes: seq<Welfare>, orders: seq<Order>): seq<Shot> {
    if codes == [] then []
    else OrderShots(codes[..|codes| - 1], orders) + ShotsOf(codes[|codes| - 1], orders)
  }

  function ShotsOf(w: Welfare, orders: seq<Order>): seq<Shot> {
    if orders == [] then []
    else ShotsOf(w, orders[..|orders| - 1])
         + if Consumes(w, orders[|orders| - 1]) then [ShotOf(w, orders[|orders| - 1])] else []
  }

  function OfOrder(no: string): Item -> bool {
    (it: Item) => it.orderNo == no
  }

  function ItemShots(codes: seq<Welfare>, orders: seq<Order>, items: seq<Item>): seq<Item> {
    if codes == [] then []
    else ItemShots(codes[..|codes| - 1], orders, items) + ItemsOf(codes[|codes| - 1], orders, items)
  }

  function ItemsOf(w: Welfare, orders: seq<Order>, items: seq<Item>): seq<Item> {
    if orders == [] then []
    else ItemsOf(w, orders[..|orders| - 1], items)
         + if Consumes(w, orders[|orders| - 1]) then Filter(OfOrder(orders[|orders| - 1].orderNo), items) else []
  }

  predicate ShotWith(w: Welfare, orders: seq<Order>, s: Shot) {
    exists j :: 0 <= j < |orders| && Consumes(w, orders[j]) && s == ShotOf(w, orders[j])
  }

  predicate ShotFrom(codes: seq<Welfare>, orders: seq<Order>, s: Shot) {
    exists i :: 0 <= i < |codes| && ShotWith(codes[i], orders, s)
  }

  lemma {:induction false} InShotsOf(w: Welfare, orders: seq<Order>, s: Shot)
    ensures s in ShotsOf(w, orders) <==> ShotWith(w, orders, s)
  {
    if orders != [] {
      var n := |orders| - 1;
      InShotsOf(w, orders[..n], s);
      if ShotWith(w, orders, s) {
        var j :| 0 <= j < |orders| && Consumes(w, orders[j]) && s == ShotOf(w, orders[j]);
        assert j < n ==> orders[..n][j] == orders[j];
      }
    }
  }

  lemma {:induction false} ShotFromLast(codes: seq<Welfare>, orders: seq<Order>, s: Shot)
    requires codes != []
    ensures ShotFrom(codes, orders, s)
            <==> ShotFrom(codes[..|codes| - 1], orders, s) || ShotWith(codes[|codes| - 1], orders, s)
  {
    var n := |codes| - 1;
    if ShotFrom(codes, orders, s) {
      var i :| 0 <= i < |codes| && ShotWith(codes[i], orders, s);
      if i < n {
        assert codes[..n][i] == codes[i];
      }
    }
    if ShotFrom(codes[..n], orders, s) {
      var i :| 0 <= i < n && ShotWith(codes[..n][i], orders, s);
      assert codes[i] == codes[..n][i];
    }
  }

  /** The order snapshot has a row for every consumed pair, and no other. */
  lemma {:induction false} InOrderShots(codes: seq<Welfare>, orders: seq<Order>, s: Shot)
    ensures s in OrderShots(codes, orders) <==> ShotFrom(codes, orders, s)
  {
    if codes != [] {
      var n := |codes| - 1;
      InOrderShots(codes[..n], orders, s);
      InShotsOf(codes[n], orders, s);
      ShotFromLast(codes, orders, s);
    }
  }

  predicate ConsumedBy(w: Welfare, orders: seq<Order>, no: string) {
    exists j :: 0 <= j < |orders| && Consumes(w, orders[j]) && orders[j].orderNo == no
  }

  /** Some code was consumed by the order of this number. */
  predicate Consumed(codes: seq<Welfare>, orders: seq<Order>, no: string) {
    exists i :: 0 <= i < |codes| && ConsumedBy(codes[i], orders, no)
  }

  lemma {:induction false} InItemsOf(w: Welfare, orders: seq<Order>, items: seq<Item>, x: Item)
    ensures x in ItemsOf(w, orders, items) <==> x in items && ConsumedBy(w, orders, x.orderNo)
  {
    if orders != [] {
      var n := |orders| - 1;
      InItemsOf(w, orders[..n], items, x);
      FilterMember(OfOrder(orders[n].orderNo), items, x);
      if ConsumedBy(w, orders, x.orderNo) {
        var j :| 0 <= j < |orders| && Consumes(w, orders[j]) && orders[j].orderNo == x.orderNo;
        assert j < n ==> orders[..n][j] == orders[j];
      }
    }
  }

  lemma {:induction false} ConsumedLast(codes: seq<Welfare>, orders: seq<Order>, no: string)
    requires codes != []
    ensures Consumed(codes, orders, no)
            <==> Consumed(codes[..|codes| - 1], orders, no) || ConsumedBy(codes[|codes| - 1], orders, no)
  {
    var n := |codes| - 1;
    if Consumed(codes, orders, no) {
      var i :| 0 <= i < |codes| && ConsumedBy(codes[i], orders, no);
      if i < n {
        assert codes[..n][i] == codes[i];
      }
    }
    if Consumed(codes[..n], orders, no) {
      var i :| 0 <= i < n && ConsumedBy(codes[..n][i], orders, no);
      assert codes[i] == codes[..n][i];
    }
  }

  /** The item snapshot has the items of consumed orders, and no other. */
  lemma {:induction false} InItemShots(codes: seq<Welfare>, orders: seq<Order>, items: seq<Item>, x: Item)
    ensures x in ItemShots(codes, orders, items) <==> x in items && Consumed(codes, orders, x.orderNo)
  {
    if codes != [] {
      var n := |codes| - 1;
      InItemShots(codes[..n], orders, items, x);
      InItemsOf(codes[n], orders, items, x);
      ConsumedLast(codes, orders, x.orderNo);
    }
  }

  // ---- The verification step ----

  datatype Error =
    | OrderMissing(no: string) | NoteDiffers(no: string) | InviteChanged(no: string)
    | ItemMissing(id: int) | FieldChanged(id: int, field: nat) | AttrsLeft(id: int) | AttrsChanged(id: int)

  function OrEmpty(s: Option<string>): string {
    if s.Some? then s.value else ""
  }

  /** rowsToMap: of rows with one key, the last stays. */
  function ByNo(shots: seq<Shot>): map<string, Shot> {
    if shots == [] then map[] else ByNo(shots[..|shots| - 1])[shots[|shots| - 1].orderNo := shots[|shots| - 1]]
  }

  function ById(items: seq<Item>): map<int, Item> {
    if items == [] then map[] else ById(items[..|items| - 1])[items[|items| - 1].id := items[|items| - 1]]
  }

  function OrderErrors(before: map<string, Shot>, o: Shot): seq<Error> {
    if o.orderNo !in before then [OrderMissing(o.orderNo)]
    else (if o.buyerNote != o.note then [NoteDiffers(o.orderNo)] else [])
         + (if OrEmpty(before[o.orderNo].invite) != OrEmpty(o.invite) then [InviteChanged(o.orderNo)] else [])
  }

  function FieldErrors(id: int, before: seq<Cell>, after: seq<Cell>): seq<Error>
    requires |before| == |after|
  {
    if after == [] then []
    else
      var k := |after| - 1;
      FieldErrors(id, before[..k], after[..k]) + if before[k] != after[k] then [FieldChanged(id, k)] else []
  }

  function ItemErrors(before: map<int, Item>, it: Item): seq<Error> {
    if it.id !in before then [ItemMissing(it.id)]
    else
      var b := before[it.id];
      FieldErrors(it.id, Compared(b), Compared(it))
      + (if it.skuId == 1 then (if it.skuAttrs != None then [AttrsLeft(it.id)] else [])
         else if OrEmpty(b.skuAttrs) != OrEmpty(it.skuAttrs) then [AttrsChanged(it.id)] else [])
  }

  function AllOrderErrors(before: map<string, Shot>, shots: seq<Shot>): seq<Error> {
    if shots == [] then [] else AllOrderErrors(before, shots[..|shots| - 1]) + OrderErrors(before, shots[|shots| - 1])
  }

  function AllItemErrors(before: map<int, Item>, items: seq<Item>): seq<Error> {
    if items == [] then [] else AllItemErrors(before, items[..|items| - 1]) + ItemErrors(before, items[|items| - 1])
  }

  function Errors(orders: seq<Shot>, items: seq<Item>, orders': seq<Shot>, items': seq<Item>): seq<Error> {
    AllOrderErrors(ByNo(orders), orders') + AllItemErrors(ById(items), items')
  }

  lemma {:induction false} PushOrderErrors(before: map<string, Shot>, shots: seq<Shot>, k: nat)
    requires k < |shots|
    ensures AllOrderErrors(before, shots[..k + 1]) == AllOrderErrors(before, shots[..k]) + OrderErrors(before, shots[k])
  {
    assert shots[..k + 1][..k] == shots[..k];
  }

  lemma {:induction false} PushItemErrors(before: map<int, Item>, items: seq<Item>, k: nat)
    requires k < |items|
    ensures AllItemErrors(before, items[..k + 1]) == AllItemErrors(before, items[..k]) + ItemErrors(before, items[k])
  {
    assert items[..k + 1][..k] == items[..k];
  }

  /** The loop over the orders after the migration. */
  method CheckOrders(before: map<string, Shot>, shots: seq<Shot>) returns (errors: seq<Error>)
    ensures errors == AllOrderErrors(before, shots)
  {
    errors := [];
    for k := 0 to |shots|
      invariant errors == AllOrderErrors(before, shots[..k])
    {
      var o := shots[k];
      PushOrderErrors(before, shots, k);
      if o.orderNo !in before {
        errors := errors + [OrderMissing(o.orderNo)];
        continue;
      }
      var found: seq<Error> := [];
      if o.buyerNote != o.note { found := found + [NoteDiffers(o.orderNo)]; }
      if OrEmpty(before[o.orderNo].invite) != OrEmpty(o.invite) { found := found + [InviteChanged(o.orderNo)]; }
      errors := errors + found;
    }
    assert shots[..|shots|] == shots;
  }

  /** The loop over the compared fields of one item. */
  method CheckFields(id: int, before: seq<Cell>, after: seq<Cell>) returns (errors: seq<Error>)
    requires |before| == |after|
    ensures errors == FieldErrors(id, before, after)
  {
    errors := [];
    for k := 0 to |after|
      invariant errors == FieldErrors(id, before[..k], after[..k])
    {
      assert before[..k + 1][..k] == before[..k] && after[..k + 1][..k] == after[..k];
      if before[k] != after[k] { errors := errors + [FieldChanged(id, k)]; }
    }
    assert before[..|after|] == before && after[..|after|] == after;
  }

  /** One round of the loop over the items. */
  method CheckItem(before: map<int, Item>, it: Item) returns (errors: seq<Error>)
    ensures errors == ItemErrors(before, it)
  {
    if it.id !in before { return [ItemMissing(it.id)]; }
    var b := before[it.id];
    errors := CheckFields(it.id, Compared(b), Compared(it));
    if it.skuId == 1 {
      if it.skuAttrs != None { errors := errors + [AttrsLeft(it.id)]; }
    } else {
      if OrEmpty(b.skuAttrs) != OrEmpty(it.skuAttrs) { errors := errors + [AttrsChanged(it.id)]; }
    }
  }

  /** The loop over the items after the migration. */
  method CheckItems(before: map<int, Item>, items: seq<Item>) returns (errors: seq<Error>)
    ensures errors == AllItemErrors(before, items)
  {
    errors := [];
    Whole(items);
    for k := 0 to |items|
      invariant errors == AllItemErrors(before, items[..k])
    {
      PushItemErrors(before, items, k);
      var found := CheckItem(before, items[k]);
      errors := errors + found;
    }
  }

  /** The verification step: maps of the rows before, then both loops. */
  method Verify(orders: seq<Shot>, items: seq<Item>, orders': seq<Shot>, items': seq<Item>) returns (errors: seq<Error>)
    ensures errors == Errors(orders, items, orders', items')
  {
    var beforeOrders: map<string, Shot> := map[];
    for k := 0 to |orders|
      invariant beforeOrders == ByNo(orders[..k])
    {
      assert orders[..k + 1][..k] == orders[..k];
      beforeOrders := beforeOrders[orders[k].orderNo := orders[k]];
    }
    assert orders[..|orders|] == orders;
    var beforeItems: map<int, Item> := map[];
    for k := 0 to |items|
      invariant beforeItems == ById(items[..k])
    {
      assert items[..k + 1][..k] == items[..k];
      beforeItems := beforeItems[items[k].id := items[k]];
    }
    assert items[..|items|] == items;
    errors := CheckOrders(beforeOrders, orders');
    var more := CheckItems(beforeItems, items');
    errors := errors + more;
  }

  lemma {:induction false} NoOrderErrors(before: map<string, Shot>, shots: seq<Shot>)
    ensures AllOrderErrors(before, shots) == [] <==> forall s :: s in shots ==> OrderErrors(before, s) == []
  {
    if shots != [] {
      NoOrderErrors(before, shots[..|shots| - 1]);
      forall s ensures s in shots <==> s in shots[..|shots| - 1] || s == shots[|shots| - 1] { Member(shots, s); }
    }
  }

  lemma {:induction false} NoFieldErrors(id: int, before: seq<Cell>, after: seq<Cell>)
    requires |before| == |after|
    ensures FieldErrors(id, before, after) == [] <==> before == after
  {
    if after != [] {
      var k := |after| - 1;
      NoFieldErrors(id, before[..k], after[..k]);
      assert before == before[..k] + [before[k]] && after == after[..k] + [after[k]];
    }
  }

  lemma {:induction false} NoItemErrors(before: map<int, Item>, items: seq<Item>)
    ensures AllItemErrors(before, items) == [] <==> forall x :: x in items ==> ItemErrors(before, x) == []
  {
    if items != [] {
      NoItemErrors(before, items[..|items| - 1]);
      forall x ensures x in items <==> x in items[..|items| - 1] || x == items[|items| - 1] { Member(items, x); }
    }
  }

  lemma {:induction false} ByNoMeaning(shots: seq<Shot>, no: string)
    ensures no in ByNo(shots) ==> ByNo(shots)[no] in shots && ByNo(shots)[no].orderNo == no
    ensures forall s :: s in shots ==> s.orderNo in ByNo(shots)
  {
    if shots != [] {
      ByNoMeaning(shots[..|shots| - 1], no);
      assert shots == shots[..|shots| - 1] + [shots[|shots| - 1]];
    }
  }

  lemma {:induction false} ByIdMeaning(items: seq<Item>, id: int)
    ensures id in ById(items) ==> ById(items)[id] in items && ById(items)[id].id == id
    ensures forall x :: x in items ==> x.id in ById(items)
  {
    if items != [] {
      ByIdMeaning(items[..|items| - 1], id);
      assert items == items[..|items| - 1] + [items[|items| - 1]];
    }
  }

  /** What a verification with no error says of any two pairs of snapshots. */
  lemma {:induction false} ZeroErrorsMeans(orders: seq<Shot>, items: seq<Item>, orders': seq<Shot>, items': seq<Item>)
    requires Errors(orders, items, orders', items') == []
    ensures forall s :: s in orders'
              ==> && s.buyerNote == s.note
                  && exists b :: b in orders && b.orderNo == s.orderNo && OrEmpty(b.invite) == OrEmpty(s.invite)
    ensures forall x :: x in items' ==>
              && (x.skuId == 1 ==> x.skuAttrs == None)
              && exists b :: b in items && b.id == x.id && Compared(b) == Compared(x)
                             && (x.skuId != 1 ==> OrEmpty(b.skuAttrs) == OrEmpty(x.skuAttrs))
  {
    NoOrderErrors(ByNo(orders), orders');
    NoItemErrors(ById(items), items');
    forall s | s in orders'
      ensures s.buyerNote == s.note
              && exists b :: b in orders && b.orderNo == s.orderNo && OrEmpty(b.invite) == OrEmpty(s.invite)
    {
      assert OrderErrors(ByNo(orders), s) == [];
      ByNoMeaning(orders, s.orderNo);
      assert ByNo(orders)[s.orderNo] in orders;
    }
    forall x | x in items'
      ensures (x.skuId == 1 ==> x.skuAttrs == None)
      ensures exists b :: b in items && b.id == x.id && Compared(b) == Compared(x)
                          && (x.skuId != 1 ==> OrEmpty(b.skuAttrs) == OrEmpty(x.skuAttrs))
    {
      assert ItemErrors(ById(items), x) == [];
      ByIdMeaning(items, x.id);
      NoFieldErrors(x.id, Compared(ById(items)[x.id]), Compared(x));
      assert ById(items)[x.id] in items;
    }
  }

  // ---- The migration passes its own check ----

  /** Order numbers and item ids are unique in the database. */
  predicate Keyed(orders: seq<Order>, items: seq<Item>) {
    && (forall i, j :: 0 <= i < j < |orders| ==> orders[i].orderNo != orders[j].orderNo)
    && (forall i, j :: 0 <= i < j < |items| ==> items[i].id != items[j].id)
  }

  /** What a consumed pair needs before the migration: an order that a code names gets that code's note, so
      it must be this one's; an order that no code names stays as it is, so it must be migrated already. */
  predicate Ready(codes: seq<Welfare>, items: seq<Item>, w: Welfare, o: Order) {
    match Match(codes, o)
    case Some(m) => m.note == w.note
    case None =>
      && o.buyerNote == w.note
      && forall k :: 0 <= k < |items| && items[k].orderNo == o.orderNo && items[k].skuId == 1
           ==> items[k].skuAttrs == None
  }

  predicate AllReady(codes: seq<Welfare>, orders: seq<Order>, items: seq<Item>) {
    forall i, j :: 0 <= i < |codes| && 0 <= j < |orders| && Consumes(codes[i], orders[j])
      ==> Ready(codes, items, codes[i], orders[j])
  }

  function Report(codes: seq<Welfare>, orders: seq<Order>, items: seq<Item>): seq<Error> {
    var orders', items' := NotedOrders(codes, orders), BaredItems(codes, NotedOrders(codes, orders), items);
    Errors(OrderShots(codes, orders), ItemShots(codes, orders, items), OrderShots(codes, orders'),
           ItemShots(codes, orders', items'))
  }

  lemma {:induction false} NotedMatches(codes: seq<Welfare>, o: Order, w: Welfare)
    ensures Match(codes, Noted(codes, o)) == Match(codes, o) && (Consumes(w, Noted(codes, o)) <==> Consumes(w, o))
  {
    var o' := Noted(codes, o);
    SameIndex(Named(o), Named(o'), codes);
  }

  lemma {:induction false} SameIndex<T(!new)>(p: T -> bool, q: T -> bool, s: seq<T>)
    requires forall x :: p(x) == q(x)
    ensures IndexWhere(p, s) == IndexWhere(q, s)
  {
    if s != [] { SameIndex(p, q, s[1..]); }
  }

  lemma {:induction false} SameNamed(codes: seq<Welfare>, orders: seq<Order>, no: string)
    ensures OrderNamed(codes, NotedOrders(codes, orders), no) == OrderNamed(codes, orders, no)
  {
    forall k | 0 <= k < |orders| ensures Match(codes, NotedOrders(codes, orders)[k]) == Match(codes, orders[k]) {
      NotedMatches(codes, orders[k], Welfare(None, None, None, 0, 0));
    }
    if k :| 0 <= k < |orders| && orders[k].orderNo == no && Match(codes, orders[k]).Some? {
      assert NotedOrders(codes, orders)[k].orderNo == no;
    }
  }

  lemma {:induction false} OwnNamed(codes: seq<Welfare>, orders: seq<Order>, items: seq<Item>, j: nat)
    requires Keyed(orders, items) && j < |orders|
    ensures OrderNamed(codes, orders, orders[j].orderNo) <==> Match(codes, orders[j]).Some?
  {
    if k :| 0 <= k < |orders| && orders[k].orderNo == orders[j].orderNo && Match(codes, orders[k]).Some? {
      assert k == j;
    }
  }

  /** The errors of one order row after the migration: none but a note that differs. */
  lemma {:induction false} OrderRowErrors(codes: seq<Welfare>, orders: seq<Order>, items: seq<Item>, i: nat, j: nat)
    requires Keyed(orders, items) && i < |codes| && j < |orders| && Consumes(codes[i], orders[j])
    ensures OrderErrors(ByNo(OrderShots(codes, orders)), ShotOf(codes[i], Noted(codes, orders[j]))) == []
            <==> Noted(codes, orders[j]).buyerNote == codes[i].note
  {
    var shots := OrderShots(codes, orders);
    var before := ShotOf(codes[i], orders[j]);
    assert ShotWith(codes[i], orders, before);
    InOrderShots(codes, orders, before);
    ByNoMeaning(shots, orders[j].orderNo);
    var b := ByNo(shots)[orders[j].orderNo];
    InOrderShots(codes, orders, b);
    var k :| 0 <= k < |codes| && ShotWith(codes[k], orders, b);
    var l :| 0 <= l < |orders| && Consumes(codes[k], orders[l]) && b == ShotOf(codes[k], orders[l]);
    assert l == j;
  }

  /** The errors of one item row after the migration: none but attributes left on a sku-1 row. */
  lemma {:induction false} ItemRowErrors(codes: seq<Welfare>, orders: seq<Order>, items: seq<Item>, k: nat)
    requires Keyed(orders, items) && k < |items| && items[k] in ItemShots(codes, orders, items)
    ensures
      var x := Bared(codes, NotedOrders(codes, orders), items[k]);
      ItemErrors(ById(ItemShots(codes, orders, items)), x) == [] <==> (x.skuId == 1 ==> x.skuAttrs == None)
  {
    var shots := ItemShots(codes, orders, items);
    ByIdMeaning(shots, items[k].id);
    var b := ById(shots)[items[k].id];
    InItemShots(codes, orders, items, b);
    var l :| 0 <= l < |items| && items[l] == b;
    assert l == k;
    NoFieldErrors(b.id, Compared(b), Compared(Bared(codes, NotedOrders(codes, orders), items[k])));
  }

  lemma {:induction false} OrderRowAfter(codes: seq<Welfare>, orders: seq<Order>, s: Shot)
    requires s in OrderShots(codes, NotedOrders(codes, orders))
    ensures exists i, j :: 0 <= i < |codes| && 0 <= j < |orders| && Consumes(codes[i], orders[j])
                                  && s == ShotOf(codes[i], Noted(codes, orders[j]))
  {
    var orders' := NotedOrders(codes, orders);
    InOrderShots(codes, orders', s);
    var i :| 0 <= i < |codes| && ShotWith(codes[i], orders', s);
    var j :| 0 <= j < |orders'| && Consumes(codes[i], orders'[j]) && s == ShotOf(codes[i], orders'[j]);
    NotedMatches(codes, orders[j], codes[i]);
    assert orders'[j] == Noted(codes, orders[j]);
  }

  lemma {:induction false} OrderRowPresent(codes: seq<Welfare>, orders: seq<Order>, i: nat, j: nat)
    requires i < |codes| && j < |orders| && Consumes(codes[i], orders[j])
    ensures ShotOf(codes[i], Noted(codes, orders[j])) in OrderShots(codes, NotedOrders(codes, orders))
  {
    var orders' := NotedOrders(codes, orders);
    NotedMatches(codes, orders[j], codes[i]);
    assert orders'[j] == Noted(codes, orders[j]);
    assert ShotWith(codes[i], orders', ShotOf(codes[i], orders'[j]));
    InOrderShots(codes, orders', ShotOf(codes[i], orders'[j]));
  }

  predicate NoteLands(codes: seq<Welfare>, w: Welfare, o: Order) {
    Consumes(w, o) ==> Noted(codes, o).buyerNote == w.note
  }

  predicate NotesLand(codes: seq<Welfare>, orders: seq<Order>) {
    forall i, j :: 0 <= i < |codes| && 0 <= j < |orders| ==> NoteLands(codes, codes[i], orders[j])
  }

  lemma {:induction false} OrdersPassIff(codes: seq<Welfare>, orders: seq<Order>, items: seq<Item>)
    requires Keyed(orders, items)
    ensures AllOrderErrors(ByNo(OrderShots(codes, orders)), OrderShots(codes, NotedOrders(codes, orders))) == []
            <==> NotesLand(codes, orders)
  {
    var before := ByNo(OrderShots(codes, orders));
    var shots := OrderShots(codes, NotedOrders(codes, orders));
    NoOrderErrors(before, shots);
    if AllOrderErrors(before, shots) == [] {
      forall i, j | 0 <= i < |codes| && 0 <= j < |orders| ensures NoteLands(codes, codes[i], orders[j]) {
        if Consumes(codes[i], orders[j]) {
          OrderRowPresent(codes, orders, i, j);
          OrderRowErrors(codes, orders, items, i, j);
        }
      }
    }
    if NotesLand(codes, orders) {
      forall s | s in shots ensures OrderErrors(before, s) == [] {
        OrderRowAfter(codes, orders, s);
        var i, j :| 0 <= i < |codes| && 0 <= j < |orders| && Consumes(codes[i], orders[j])
          && s == ShotOf(codes[i], Noted(codes, orders[j]));
        assert NoteLands(codes, codes[i], orders[j]);
        OrderRowErrors(codes, orders, items, i, j);
      }
    }
  }

  lemma {:induction false} SameConsumed(codes: seq<Welfare>, orders: seq<Order>, no: string)
    ensures Consumed(codes, NotedOrders(codes, orders), no) <==> Consumed(codes, orders, no)
  {
    forall w: Welfare ensures ConsumedBy(w, NotedOrders(codes, orders), no) <==> ConsumedBy(w, orders, no) {
      SameConsumedBy(codes, orders, no, w);
    }
  }

  lemma {:induction false} SameConsumedBy(codes: seq<Welfare>, orders: seq<Order>, no: string, w: Welfare)
    ensures ConsumedBy(w, NotedOrders(codes, orders), no) <==> ConsumedBy(w, orders, no)
  {
    var orders' := NotedOrders(codes, orders);
    if ConsumedBy(w, orders, no) {
      var j :| 0 <= j < |orders| && Consumes(w, orders[j]) && orders[j].orderNo == no;
      NotedMatches(codes, orders[j], w);
      assert Consumes(w, orders'[j]) && orders'[j].orderNo == no;
    }
    if ConsumedBy(w, orders', no) {
      var j :| 0 <= j < |orders'| && Consumes(w, orders'[j]) && orders'[j].orderNo == no;
      NotedMatches(codes, orders[j], w);
      assert Consumes(w, orders[j]) && orders[j].orderNo == no;
    }
  }

  lemma {:induction false} ItemsPassIff(codes: seq<Welfare>, orders: seq<Order>, items: seq<Item>)
    requires Keyed(orders, items)
    ensures
      var orders' := NotedOrders(codes, orders);
      AllItemErrors(ById(ItemShots(codes, orders, items)),
                    ItemShots(codes, orders', BaredItems(codes, orders', items))) == []
      <==> forall k :: 0 <= k < |items| && Consumed(codes, orders, items[k].orderNo) && items[k].skuId == 1
                       ==> items[k].skuAttrs == None || OrderNamed(codes, orders, items[k].orderNo)
  {
    var orders' := NotedOrders(codes, orders);
    var items' := BaredItems(codes, orders', items);
    var before := ById(ItemShots(codes, orders, items));
    NoItemErrors(before, ItemShots(codes, orders', items'));
    forall k | 0 <= k < |items| && Consumed(codes, orders, items[k].orderNo)
      ensures items'[k] in ItemShots(codes, orders', items')
      ensures ItemErrors(before, items'[k]) == []
              <==> (items[k].skuId == 1 ==> items[k].skuAttrs == None || OrderNamed(codes, orders, items[k].orderNo))
    {
      SameConsumed(codes, orders, items[k].orderNo);
      InItemShots(codes, orders', items', items'[k]);
      InItemShots(codes, orders, items, items[k]);
      ItemRowErrors(codes, orders, items, k);
      SameNamed(codes, orders, items[k].orderNo);
    }
    forall x | x in ItemShots(codes, orders', items')
      ensures exists k :: 0 <= k < |items| && Consumed(codes, orders, items[k].orderNo) && x == items'[k]
    {
      InItemShots(codes, orders', items', x);
      var k :| 0 <= k < |items'| && items'[k] == x;
      SameConsumed(codes, orders, items[k].orderNo);
    }
  }

  /** The check after the migration finds nothing exactly when every consumed pair was ready for it. */
  lemma {:induction false} MigrationPassesIff(codes: seq<Welfare>, orders: seq<Order>, items: seq<Item>)
    requires Keyed(orders, items)
    ensures Report(codes, orders, items) == [] <==> AllReady(codes, orders, items)
  {
    OrdersPassIff(codes, orders, items);
    ItemsPassIff(codes, orders, items);
    if Report(codes, orders, items) == [] {
      forall i, j | 0 <= i < |codes| && 0 <= j < |orders| && Consumes(codes[i], orders[j])
        ensures Ready(codes, items, codes[i], orders[j])
      {
        OwnNamed(codes, orders, items, j);
        assert NoteLands(codes, codes[i], orders[j]);
        assert ConsumedBy(codes[i], orders, orders[j].orderNo);
      }
    }
    if AllReady(codes, orders, items) {
      forall i, j | 0 <= i < |codes| && 0 <= j < |orders| ensures NoteLands(codes, codes[i], orders[j]) {
        assert Consumes(codes[i], orders[j]) ==> Ready(codes, items, codes[i], orders[j]);
      }
      forall k | 0 <= k < |items| && Consumed(codes, orders, items[k].orderNo) && items[k].skuId == 1
        ensures items[k].skuAttrs == None || OrderNamed(codes, orders, items[k].orderNo)
      {
        var i :| 0 <= i < |codes| && ConsumedBy(codes[i], orders, items[k].orderNo);
        var j :| 0 <= j < |orders| && Consumes(codes[i], orders[j]) && orders[j].orderNo == items[k].orderNo;
        assert Ready(codes, items, codes[i], orders[j]);
        OwnNamed(codes, orders, items, j);
      }
    }
  }

  // ---- The precheck ----

  predicate PrecheckFails(codes: seq<Welfare>, orders: seq<Order>) {
    exists i, j :: 0 <= i < |codes| && 0 <= j < |orders| && Consumes(codes[i], orders[j])
      && OrEmpty(orders[j].invite) != OrEmpty(codes[i].code)
  }

  /** The codes an order consumed carry one note. */
  predicate OneNote(codes: seq<Welfare>, o: Order) {
    forall i, k :: 0 <= i < |codes| && 0 <= k < |codes| && Consumes(codes[i], o) && Consumes(codes[k], o)
      ==> codes[i].note == codes[k].note
  }

  /** No code that an order consumed is NULL, nor is that order's invite code. */
  predicate NoNulls(codes: seq<Welfare>, orders: seq<Order>) {
    forall i, j :: 0 <= i < |codes| && 0 <= j < |orders| && Consumes(codes[i], orders[j])
      ==> codes[i].code.Some? && orders[j].invite.Some?
  }

  /** Where the precheck passes and no consumed pair has a NULL, the check passes exactly when the codes of
      each order agree on the note; with one code for each consumed order it always passes. */
  lemma {:induction false} PrecheckedPassesIff(codes: seq<Welfare>, orders: seq<Order>, items: seq<Item>)
    requires Keyed(orders, items) && !PrecheckFails(codes, orders)
    requires NoNulls(codes, orders)
    ensures Report(codes, orders, items) == [] <==> forall j :: 0 <= j < |orders| ==> OneNote(codes, orders[j])
  {
    MigrationPassesIff(codes, orders, items);
    forall i, j | 0 <= i < |codes| && 0 <= j < |orders| && Consumes(codes[i], orders[j])
      ensures Named(orders[j])(codes[i]) && Match(codes, orders[j]).Some?
    {
      assert OrEmpty(orders[j].invite) == OrEmpty(codes[i].code);
    }
    if Report(codes, orders, items) == [] {
      forall j | 0 <= j < |orders| ensures OneNote(codes, orders[j]) {
        forall i, k | 0 <= i < |codes| && 0 <= k < |codes| && Consumes(codes[i], orders[j])
          && Consumes(codes[k], orders[j])
          ensures codes[i].note == codes[k].note
        {
          assert Ready(codes, items, codes[i], orders[j]) && Ready(codes, items, codes[k], orders[j]);
        }
      }
    }
    if forall j :: 0 <= j < |orders| ==> OneNote(codes, orders[j]) {
      forall i, j | 0 <= i < |codes| && 0 <= j < |orders| && Consumes(codes[i], orders[j])
        ensures Ready(codes, items, codes[i], orders[j])
      {
        assert OneNote(codes, orders[j]);
        var k := IndexWhere(Named(orders[j]), codes);
        assert Consumes(codes[k], orders[j]);
      }
    }
  }

  /** A NULL code passes the precheck against a NULL invite, but no update joins on it: the note is not
      copied and the check reports it. */
  lemma {:induction false} NullCodeIsReported(note: string)
    ensures
      var codes := [Welfare(None, Some(note), Some("1"), 2, 1)];
      var orders := [Order("1", None, None)];
      !PrecheckFails(codes, orders) && Keyed(orders, []) && Report(codes, orders, []) != []
  {
    var codes := [Welfare(None, Some(note), Some("1"), 2, 1)];
    var orders := [Order("1", None, None)];
    MigrationPassesIff(codes, orders, []);
    assert Consumes(codes[0], orders[0]) && Match(codes, orders[0]) == None;
    assert !Ready(codes, [], codes[0], orders[0]);
  }

  /** A second run changes nothing. */
  lemma {:induction false} SecondRunChangesNothing(codes: seq<Welfare>, orders: seq<Order>, items: seq<Item>)
    ensures
      var orders' := NotedOrders(codes, orders);
      var items' := BaredItems(codes, orders', items);
      NotedOrders(codes, orders') == orders' && BaredItems(codes, NotedOrders(codes, orders'), items') == items'
  {
    var orders' := NotedOrders(codes, orders);
    var items' := BaredItems(codes, orders', items);
    forall j | 0 <= j < |orders| ensures Noted(codes, orders'[j]) == orders'[j] {
      NotedMatches(codes, orders[j], Welfare(None, None, None, 0, 0));
    }
    assert NotedOrders(codes, orders') == orders';
    forall k | 0 <= k < |items| ensures Bared(codes, orders', items'[k]) == items'[k] {
    }
  }

  // ---- The script ----

  /** The statements of the transaction: either update or the commit may throw. */
  datatype Statement = NoteUpdate | AttrsUpdate | Commit

  datatype Outcome = Refused | DryRun | RolledBack | Failed(errors: seq<Error>) | Migrated

  class Database {
    var codes: seq<Welfare>
    var orders: seq<Order>
    var items: seq<Item>

    /** The transaction: both updates, or after an error the tables as they were. */
    method Transact(failAt: Option<Statement>) returns (ok: bool)
      modifies this`orders, this`items
      ensures ok <==> failAt.None?
      ensures ok ==> orders == NotedOrders(codes, old(orders)) && items == BaredItems(codes, orders, old(items))
      ensures !ok ==> orders == old(orders) && items == old(items)
    {
      var orders0, items0 := orders, items;
      if failAt == Some(NoteUpdate) { return false; }
      orders := NotedOrders(codes, orders);
      if failAt != Some(AttrsUpdate) { items := BaredItems(codes, orders, items); }
      if failAt.Some? {
        orders, items := orders0, items0;
        return false;
      }
      ok := true;
    }

    /** main: precheck, snapshots, the two updates in one transaction, verification. `failAt` is the statement
        of the transaction that throws, if one does. */
    method Migrate(apply: bool, failAt: Option<Statement>) returns (outcome: Outcome)
      modifies this`orders, this`items
      ensures PrecheckFails(codes, old(orders)) <==> outcome == Refused
      ensures outcome == Refused || outcome == DryRun || outcome == RolledBack
              ==> orders == old(orders) && items == old(items)
      ensures !PrecheckFails(codes, old(orders)) ==> (outcome == DryRun <==> !apply)
      ensures !PrecheckFails(codes, old(orders)) && apply ==> (outcome == RolledBack <==> failAt.Some?)
      ensures !PrecheckFails(codes, old(orders)) && apply && failAt.None? ==>
                && orders == NotedOrders(codes, old(orders))
                && items == BaredItems(codes, orders, old(items))
                && outcome == (if Report(codes, old(orders), old(items)) == [] then Migrated
                               else Failed(Report(codes, old(orders), old(items))))
    {
      if PrecheckFails(codes, orders) { return Refused; }
      var beforeOrders, beforeItems := OrderShots(codes, orders), ItemShots(codes, orders, items);
      if !apply { return DryRun; }
      var ok := Transact(failAt);
      if !ok { return RolledBack; }
      var errors := Verify(beforeOrders, beforeItems, OrderShots(codes, orders), ItemShots(codes, orders, items));
      outcome := if errors != [] then Failed(errors) else Migrated;
    }
  }
}
