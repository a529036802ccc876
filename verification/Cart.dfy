/** The shopping cart of the mini program, `miniapp/utils/cart.js`: a stored array of items that stands for a
    map from (product, sku) to a quantity. */
module Carts {
  import opened Values
  import opened Seqs

  // ---- Keys ----

  function Digit(n: nat): char
    requires n < 10
  {
    ['0', '1', '2', '3', '4', '5', '6', '7', '8', '9'][n]
  }

  function Digits(n: nat): string {
    if n < 10 then [Digit(n)] else Digits(n / 10) + [Digit(n % 10)]
  }

  /** The decimal text of an integer. */
  function Decimal(n: int): string {
    if n < 0 then "-" + Digits(-n) else Digits(n)
  }

  /** `${Number(productId)}:${Number(skuId || 0)}` */
  function MakeKey(product: int, sku: int): string {
    Decimal(product) + ":" + Decimal(sku)
  }

  predicate IsDigit(c: char) {
    '0' <= c <= '9'
  }

  lemma {:induction false} DigitsAreDigits(n: nat)
    ensures Digits(n) != "" && forall i :: 0 <= i < |Digits(n)| ==> IsDigit(Digits(n)[i])
  {
    if n >= 10 { DigitsAreDigits(n / 10); }
  }

  lemma {:induction false} DigitsInjective(a: nat, b: nat)
    requires Digits(a) == Digits(b)
    ensures a == b
    decreases a
  {
    var s, t := Digits(a), Digits(b);
    DigitsAreDigits(a / 10);
    DigitsAreDigits(b / 10);
    if a >= 10 && b >= 10 {
      assert s[..|s| - 1] == Digits(a / 10) && t[..|t| - 1] == Digits(b / 10);
      assert s[|s| - 1] == Digit(a % 10) && t[|t| - 1] == Digit(b % 10);
      DigitsInjective(a / 10, b / 10);
    } else {
      assert a < 10 ==> |s| == 1;
      assert a >= 10 ==> |s| >= 2;
      assert b >= 10 ==> |t| >= 2;
      assert s[0] == Digit(a) && t[0] == Digit(b);
    }
  }

  lemma {:induction false} Sign(n: int)
    ensures Decimal(n) != "" && (Decimal(n)[0] == '-' <==> n < 0)
  {
    if n >= 0 { DigitsAreDigits(n); }
  }

  lemma {:induction false} DecimalInjective(a: int, b: int)
    requires Decimal(a) == Decimal(b)
    ensures a == b
  {
    Sign(a);
    Sign(b);
    if a < 0 {
      assert Decimal(a)[1..] == Digits(-a) && Decimal(b)[1..] == Digits(-b);
      DigitsInjective(-a, -b);
    } else {
      DigitsInjective(a, b);
    }
  }

  lemma {:induction false} NoColon(n: int)
    ensures ':' !in Decimal(n)
  {
    if n < 0 {
      DigitsAreDigits(-n);
    } else {
      DigitsAreDigits(n);
    }
  }

  /** Different (product, sku) pairs have different keys. */
  lemma {:induction false} KeysInjective(p: int, s: int, q: int, t: int)
    ensures MakeKey(p, s) == MakeKey(q, t) <==> p == q && s == t
  {
    if MakeKey(p, s) == MakeKey(q, t) {
      NoColon(p);
      NoColon(q);
      CutAt(Decimal(p), Decimal(s), Decimal(q), Decimal(t), ':');
      DecimalInjective(p, q);
      DecimalInjective(s, t);
    }
  }

  // ---- The stored cart ----

  datatype Details = Details(title: string, skuTitle: string, coverUrl: string, priceCent: int)

  datatype Item = Item(key: string, productId: int, skuId: Option<int>, qty: int, details: Details, isWelfare: int)

  datatype Payload = Payload(productId: int, skuId: Option<int>, qty: Option<int>, details: Details,
                             isWelfare: Option<int>)

  /** `x || d` on an optional number */
  function OrElse(x: Option<int>, d: int): int {
    if x.Some? && x.value != 0 then x.value else d
  }

  function AtLeast1(n: int): int {
    if n < 1 then 1 else n
  }

  function HasKey(key: string): Item -> bool {
    (x: Item) => x.key == key
  }

  function OtherKey(key: string): Item -> bool {
    (x: Item) => x.key != key
  }

  class CartStorage {
    var items: seq<Item>

    constructor ()
      ensures items == []
    {
      items := [];
    }

    method AddToCart(payload: Payload) returns (cart: seq<Item>)
      modifies this
      ensures items == Next(old(items), Add(payload)) && cart == items
    {
      var sku := OrElse(payload.skuId, 0);
      var qty := AtLeast1(OrElse(payload.qty, 1));
      var key := MakeKey(payload.productId, sku);
      if OrElse(payload.isWelfare, 0) == 1 { return items; }
      cart := items;
      var idx := IndexWhere(HasKey(key), cart);
      var item := Item(key, payload.productId, if sku != 0 then Some(sku) else None, qty, payload.details, 0);
      if idx < |cart| {
        var merged := AtLeast1(cart[idx].qty + item.qty);
        cart := cart[idx := item.(qty := merged)];
      } else {
        cart := cart + [item];
      }
      items := cart;
    }

    method UpdateQty(key: string, qty: Option<int>) returns (cart: seq<Item>)
      modifies this
      ensures items == Next(old(items), SetQty(key, qty)) && cart == items
    {
      cart := items;
      var idx := IndexWhere(HasKey(key), cart);
      if idx == |cart| { return cart; }
      var nextQty := AtLeast1(OrElse(qty, 1));
      var isWelfare := cart[idx].isWelfare == 1;
      cart := cart[idx := cart[idx].(qty := if isWelfare then 1 else nextQty)];
      items := cart;
    }

    method RemoveItem(key: string) returns (cart: seq<Item>)
      modifies this
      ensures items == Next(old(items), Take(key)) && cart == items
    {
      cart := Filter(OtherKey(key), items);
      items := cart;
    }
  }

  datatype Call = Add(payload: Payload) | SetQty(key: string, qty: Option<int>) | Take(key: string)

  function Amount(p: Payload): int {
    AtLeast1(OrElse(p.qty, 1))
  }

  function KeyOf(p: Payload): string {
    MakeKey(p.productId, OrElse(p.skuId, 0))
  }

  function ItemOf(p: Payload, qty: int): Item {
    Item(KeyOf(p), p.productId, if OrElse(p.skuId, 0) != 0 then Some(OrElse(p.skuId, 0)) else None, qty, p.details, 0)
  }

  predicate Welfare(p: Payload) {
    OrElse(p.isWelfare, 0) == 1
  }

  function Next(items: seq<Item>, c: Call): seq<Item> {
    match c
    case Add(p) =>
      var i := IndexWhere(HasKey(KeyOf(p)), items);
      if Welfare(p) then items else Placed(items, i, ItemOf(p, Merged(items, i, p)))
    case SetQty(key, qty) =>
      var i := IndexWhere(HasKey(key), items);
      if i == |items| then items
      else items[i := Requantified(items[i], qty)]
    case Take(key) => Filter(OtherKey(key), items)
  }

  function Requantified(x: Item, qty: Option<int>): Item {
    x.(qty := if x.isWelfare == 1 then 1 else AtLeast1(OrElse(qty, 1)))
  }

  /** The quantity an add leaves: on top of what is there, and at least 1. */
  function Merged(items: seq<Item>, i: nat, p: Payload): int {
    if i < |items| then AtLeast1(items[i].qty + Amount(p)) else Amount(p)
  }

  function Placed(items: seq<Item>, i: nat, x: Item): seq<Item> {
    if i < |items| then items[i := x] else items + [x]
  }

  function Run(items: seq<Item>, calls: seq<Call>): seq<Item> {
    if calls == [] then items else Next(Run(items, calls[..|calls| - 1]), calls[|calls| - 1])
  }

  // ---- The map it stands for ----

  type Basket = map<(int, int), int>

  function Change(b: Basket, c: Call): Basket {
    match c
    case Add(p) =>
      var pair := (p.productId, OrElse(p.skuId, 0));
      if Welfare(p) then b else b[pair := (if pair in b then b[pair] else 0) + Amount(p)]
    case SetQty(key, qty) =>
      WithQty(b, key, AtLeast1(OrElse(qty, 1)))
    case Take(key) => map pair | pair in b && MakeKey(pair.0, pair.1) != key :: b[pair]
  }

  function Changes(b: Basket, calls: seq<Call>): Basket {
    if calls == [] then b else Change(Changes(b, calls[..|calls| - 1]), calls[|calls| - 1])
  }

  function PairOf(x: Item): (int, int) {
    (x.productId, if x.skuId.Some? then x.skuId.value else 0)
  }

  predicate ItemOk(x: Item) {
    x.key == MakeKey(PairOf(x).0, PairOf(x).1) && x.qty >= 1 && x.isWelfare == 0
  }

  predicate Fits(items: seq<Item>, b: Basket) {
    forall i :: 0 <= i < |items| ==> FitsAt(items[i], b)
  }

  predicate FitsAt(x: Item, b: Basket) {
    ItemOk(x) && PairOf(x) in b && b[PairOf(x)] == x.qty
  }

  predicate DistinctPairs(items: seq<Item>) {
    forall i, j :: 0 <= i < j < |items| ==> PairOf(items[i]) != PairOf(items[j])
  }

  predicate Present(items: seq<Item>, pair: (int, int)) {
    exists i :: 0 <= i < |items| && PairOf(items[i]) == pair
  }

  /** One item for each pair of the map, with its quantity, and no others. */
  ghost predicate Stands(items: seq<Item>, b: Basket) {
    Fits(items, b) && DistinctPairs(items) && forall pair :: pair in b ==> Present(items, pair)
  }

  lemma {:induction false} SamePair(x: Item, p: int, s: int)
    requires ItemOk(x)
    ensures x.key == MakeKey(p, s) <==> PairOf(x) == (p, s)
  {
    KeysInjective(PairOf(x).0, PairOf(x).1, p, s);
  }

  /** Keys are unique. */
  lemma {:induction false} KeysUnique(items: seq<Item>, b: Basket, i: nat, j: nat)
    requires Stands(items, b) && i < j < |items|
    ensures items[i].key != items[j].key
  {
    assert FitsAt(items[i], b) && FitsAt(items[j], b);
    SamePair(items[i], PairOf(items[j]).0, PairOf(items[j]).1);
  }

  /** A key is found at the item of its pair. */
  lemma {:induction false} FoundPair(items: seq<Item>, b: Basket, p: int, s: int)
    requires Stands(items, b)
    ensures
      var i := IndexWhere(HasKey(MakeKey(p, s)), items);
      && (i < |items| <==> (p, s) in b)
      && (i < |items| ==> PairOf(items[i]) == (p, s) && FitsAt(items[i], b))
  {
    var i := IndexWhere(HasKey(MakeKey(p, s)), items);
    if i < |items| {
      assert FitsAt(items[i], b);
      SamePair(items[i], p, s);
    }
    if (p, s) in b {
      assert Present(items, (p, s));
      var k :| 0 <= k < |items| && PairOf(items[k]) == (p, s);
      assert FitsAt(items[k], b);
      SamePair(items[k], p, s);
      assert HasKey(MakeKey(p, s))(items[k]);
    }
  }

  /** Replacing item i by one for the same pair sets that pair's quantity. */
  lemma {:induction false} ReplaceStands(items: seq<Item>, b: Basket, i: nat, x: Item)
    requires Stands(items, b) && i < |items| && ItemOk(x) && PairOf(x) == PairOf(items[i])
    ensures Stands(items[i := x], b[PairOf(x) := x.qty])
  {
    var items', b' := items[i := x], b[PairOf(x) := x.qty];
    forall j | 0 <= j < |items'| ensures FitsAt(items'[j], b') {
      assert FitsAt(items[j], b);
      if j < i { assert PairOf(items[j]) != PairOf(items[i]); }
      if i < j { assert PairOf(items[i]) != PairOf(items[j]); }
    }
    forall j, k | 0 <= j < k < |items'| ensures PairOf(items'[j]) != PairOf(items'[k]) {
      assert PairOf(items[j]) != PairOf(items[k]);
    }
    assert FitsAt(items[i], b);
    forall pair | pair in b' ensures Present(items', pair) {
      assert Present(items, pair);
      var k :| 0 <= k < |items| && PairOf(items[k]) == pair;
      assert PairOf(items'[k]) == pair;
    }
  }

  lemma {:induction false} PushStands(items: seq<Item>, b: Basket, x: Item)
    requires Stands(items, b) && ItemOk(x) && PairOf(x) !in b
    ensures Stands(items + [x], b[PairOf(x) := x.qty])
  {
    var items', b' := items + [x], b[PairOf(x) := x.qty];
    forall j | 0 <= j < |items'| ensures FitsAt(items'[j], b') {
      assert j < |items| ==> FitsAt(items[j], b);
    }
    forall j, k | 0 <= j < k < |items'| ensures PairOf(items'[j]) != PairOf(items'[k]) {
      assert FitsAt(items[j], b);
    }
    forall pair | pair in b' ensures Present(items', pair) {
      if pair == PairOf(x) {
        assert PairOf(items'[|items|]) == pair;
      } else {
        assert Present(items, pair);
        var k :| 0 <= k < |items| && PairOf(items[k]) == pair;
        assert PairOf(items'[k]) == pair;
      }
    }
  }

  lemma {:induction false} ItemOfOk(p: Payload, qty: int)
    requires qty >= 1
    ensures ItemOk(ItemOf(p, qty)) && PairOf(ItemOf(p, qty)) == (p.productId, OrElse(p.skuId, 0))
            && ItemOf(p, qty).qty == qty
  {
  }

  lemma {:induction false} PlacedStands(items: seq<Item>, b: Basket, i: nat, x: Item, pair: (int, int), qty: int)
    requires Stands(items, b) && ItemOk(x) && PairOf(x) == pair && x.qty == qty
    requires if i < |items| then PairOf(items[i]) == pair else pair !in b
    ensures Stands(Placed(items, i, x), b[pair := qty])
  {
    if i < |items| { ReplaceStands(items, b, i, x); } else { PushStands(items, b, x); }
  }

  lemma {:induction false} AddChanges(b: Basket, p: Payload, pair: (int, int), qty: int)
    requires !Welfare(p) && pair == (p.productId, OrElse(p.skuId, 0))
    requires qty == (if pair in b then b[pair] else 0) + Amount(p)
    ensures Change(b, Add(p)) == b[pair := qty]
  {
  }

  lemma {:induction false} AddPlaces(items: seq<Item>, p: Payload, i: nat)
    requires !Welfare(p) && i == IndexWhere(HasKey(KeyOf(p)), items)
    ensures Next(items, Add(p)) == Placed(items, i, ItemOf(p, Merged(items, i, p)))
  {
  }

  lemma {:induction false} AddStands(items: seq<Item>, b: Basket, p: Payload, items': seq<Item>, b': Basket)
    requires Stands(items, b) && items' == Next(items, Add(p)) && b' == Change(b, Add(p))
    ensures Stands(items', b')
  {
    if !Welfare(p) {
      var i := IndexWhere(HasKey(KeyOf(p)), items);
      MergedQty(items, b, p);
      AddPlaces(items, p, i);
      AddChanges(b, p, (p.productId, OrElse(p.skuId, 0)), Merged(items, i, p));
      MergedStands(items, b, p, (p.productId, OrElse(p.skuId, 0)), Merged(items, i, p));
    }
  }

  lemma {:induction false} MergedStands(items: seq<Item>, b: Basket, p: Payload, pair: (int, int), qty: int)
    requires Stands(items, b) && pair == (p.productId, OrElse(p.skuId, 0))
    requires qty >= 1 && qty == Merged(items, IndexWhere(HasKey(KeyOf(p)), items), p)
    ensures Stands(Placed(items, IndexWhere(HasKey(KeyOf(p)), items), ItemOf(p, qty)), b[pair := qty])
  {
    FoundPair(items, b, pair.0, pair.1);
    ItemOfOk(p, qty);
    PlacedStands(items, b, IndexWhere(HasKey(KeyOf(p)), items), ItemOf(p, qty), pair, qty);
  }

  lemma {:induction false} MergedQty(items: seq<Item>, b: Basket, p: Payload)
    requires Stands(items, b)
    ensures
      var pair := (p.productId, OrElse(p.skuId, 0));
      var qty := Merged(items, IndexWhere(HasKey(KeyOf(p)), items), p);
      qty >= 1 && qty == (if pair in b then b[pair] else 0) + Amount(p)
  {
    FoundPair(items, b, p.productId, OrElse(p.skuId, 0));
  }

  lemma {:induction false} KeyOfPair(items: seq<Item>, b: Basket, i: nat, key: string, pair: (int, int))
    requires Stands(items, b) && i == IndexWhere(HasKey(key), items) && pair in b
    ensures MakeKey(pair.0, pair.1) == key <==> i < |items| && pair == PairOf(items[i])
  {
    if i < |items| {
      assert FitsAt(items[i], b);
      SamePair(items[i], pair.0, pair.1);
    } else {
      FoundPair(items, b, pair.0, pair.1);
    }
  }

  /** The map with the quantity of every pair of the given key set. */
  function WithQty(b: Basket, key: string, q: int): Basket {
    map pair | pair in b :: if MakeKey(pair.0, pair.1) == key then q else b[pair]
  }

  lemma {:induction false} WithQtyAt(b: Basket, key: string, q: int, at: (int, int))
    requires at in b && forall pair :: pair in b ==> (MakeKey(pair.0, pair.1) == key <==> pair == at)
    ensures WithQty(b, key, q) == b[at := q]
  {
  }

  lemma {:induction false} WithQtyNowhere(b: Basket, key: string, q: int)
    requires forall pair :: pair in b ==> MakeKey(pair.0, pair.1) != key
    ensures WithQty(b, key, q) == b
  {
  }

  lemma {:induction false} SetStands(items: seq<Item>, b: Basket, key: string, qty: Option<int>)
    requires Stands(items, b)
    ensures Stands(Next(items, SetQty(key, qty)), Change(b, SetQty(key, qty)))
  {
    var i := IndexWhere(HasKey(key), items);
    var q := AtLeast1(OrElse(qty, 1));
    forall pair | pair in b ensures MakeKey(pair.0, pair.1) == key <==> i < |items| && pair == PairOf(items[i]) {
      KeyOfPair(items, b, i, key, pair);
    }
    if i < |items| {
      assert FitsAt(items[i], b);
      WithQtyAt(b, key, q, PairOf(items[i]));
      ReplaceStands(items, b, i, Requantified(items[i], qty));
    } else {
      WithQtyNowhere(b, key, q);
    }
  }

  lemma {:induction false} KeptPairs(items: seq<Item>, p: Item -> bool)
    requires DistinctPairs(items)
    ensures DistinctPairs(Filter(p, items))
  {
    if items != [] {
      var t, x := items[..|items| - 1], items[|items| - 1];
      KeptPairs(t, p);
      var kept := Filter(p, t);
      forall i | 0 <= i < |kept| ensures PairOf(kept[i]) != PairOf(x) {
        FilterMember(p, t, kept[i]);
        var k :| 0 <= k < |t| && t[k] == kept[i];
        assert PairOf(items[k]) != PairOf(items[|items| - 1]);
      }
    }
  }

  lemma {:induction false} TakeStands(items: seq<Item>, b: Basket, key: string)
    requires Stands(items, b)
    ensures Stands(Next(items, Take(key)), Change(b, Take(key)))
  {
    KeptPairs(items, OtherKey(key));
    var kept, b' := Filter(OtherKey(key), items), Change(b, Take(key));
    forall j | 0 <= j < |kept| ensures FitsAt(kept[j], b') {
      FilterMember(OtherKey(key), items, kept[j]);
      var k :| 0 <= k < |items| && items[k] == kept[j];
      assert FitsAt(items[k], b);
    }
    forall pair | pair in b' ensures Present(kept, pair) {
      assert Present(items, pair);
      var k :| 0 <= k < |items| && PairOf(items[k]) == pair;
      assert FitsAt(items[k], b);
      FilterMember(OtherKey(key), items, items[k]);
      var j :| 0 <= j < |kept| && kept[j] == items[k];
      assert PairOf(kept[j]) == pair;
    }
  }

  /** After every run of calls the stored array stands for the map the calls make: keys stay unique, every
      quantity is at least 1, and no welfare item gets in. */
  lemma {:induction false} CartRefinesBasket(calls: seq<Call>)
    ensures Stands(Run([], calls), Changes(map[], calls))
  {
    if calls != [] {
      var init, c := calls[..|calls| - 1], calls[|calls| - 1];
      CartRefinesBasket(init);
      var items, b := Run([], init), Changes(map[], init);
      match c
      case Add(p) => AddStands(items, b, p, Next(items, c), Change(b, c));
      case SetQty(key, qty) => SetStands(items, b, key, qty);
      case Take(key) => TakeStands(items, b, key);
    }
  }

  /** What a run of adds has put in for one pair. */
  function Added(calls: seq<Call>, product: int, sku: int): int {
    if calls == [] then 0
    else
      var c := calls[|calls| - 1];
      Added(calls[..|calls| - 1], product, sku)
      + if c.Add? && !Welfare(c.payload) && c.payload.productId == product && OrElse(c.payload.skuId, 0) == sku
        then Amount(c.payload) else 0
  }

  lemma {:induction false} BasketOfAdds(calls: seq<Call>, product: int, sku: int)
    requires forall i :: 0 <= i < |calls| ==> calls[i].Add?
    ensures var b := Changes(map[], calls);
            Added(calls, product, sku) == if (product, sku) in b then b[(product, sku)] else 0
  {
    if calls != [] { BasketOfAdds(calls[..|calls| - 1], product, sku); }
  }

  /** After any run of adds, the item of a pair has the sum of the amounts added for it. */
  lemma {:induction false} AddsAreSummed(calls: seq<Call>, product: int, sku: int)
    requires forall i :: 0 <= i < |calls| ==> calls[i].Add?
    ensures
      var items := Run([], calls);
      var i := IndexWhere(HasKey(MakeKey(product, sku)), items);
      Added(calls, product, sku) == if i < |items| then items[i].qty else 0
  {
    CartRefinesBasket(calls);
    BasketOfAdds(calls, product, sku);
    FoundPair(Run([], calls), Changes(map[], calls), product, sku);
  }
}
