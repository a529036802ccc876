/** `scripts/migrate_welfare_codes_to_multi_sku.ts`: gives every welfare code that has no item one item of
    the default SKU, in one transaction. */
module MultiSku {
  import opened Values
  import opened Seqs

  const DEFAULT_CODE := "WELFARE_DEFAULT"
  const DEFAULT_TITLE := "福利商品（默认）"

  datatype Sku = Sku(id: int, code: string, title: string, price: int)

  /** `kept` stands for the columns the script does not name. */
  datatype Code = Code(id: int, price: Option<int>, originalPrice: Option<int>, kept: seq<string>)

  datatype Item = Item(id: int, codeId: int, skuId: int, skuCode: string, skuTitle: string, quantity: int, price: int)

  /** The tables, and the ids the next two inserts get. */
  datatype Db = Db(skus: seq<Sku>, codes: seq<Code>, items: seq<Item>, nextSku: int, nextItem: int)

  /** `Number(x || 0)` */
  function OrZero(x: Option<int>): int {
    if x.Some? then x.value else 0
  }

  function HasSkuCode(code: string): Sku -> bool {
    (s: Sku) => s.code == code
  }

  function OfCode(id: int): Item -> bool {
    (it: Item) => it.codeId == id
  }

  /** `LEFT JOIN welfare_code_items wci ON wci.welfare_code_id = wc.id WHERE wci.id IS NULL` */
  function Lacks(items: seq<Item>): Code -> bool {
    (c: Code) => forall k :: 0 <= k < |items| ==> items[k].codeId != c.id
  }

  function Pending(db: Db): seq<Code> {
    Filter(Lacks(db.items), db.codes)
  }

  // ---- What a run does ----

  function WithSku(db: Db): Db {
    if Find(HasSkuCode(DEFAULT_CODE), db.skus).Some? then db
    else db.(skus := db.skus + [Sku(db.nextSku, DEFAULT_CODE, DEFAULT_TITLE, 0)], nextSku := db.nextSku + 1)
  }

  function DefaultSku(db: Db): int {
    var s := Find(HasSkuCode(DEFAULT_CODE), db.skus);
    if s.Some? then s.value.id else db.nextSku
  }

  function NewItem(c: Code, sku: int, id: int): Item {
    Item(id, c.id, sku, DEFAULT_CODE, DEFAULT_TITLE, 1, OrZero(c.price))
  }

  function NewItems(rows: seq<Code>, sku: int, next: int): seq<Item> {
    if rows == [] then []
    else NewItems(rows[..|rows| - 1], sku, next) + [NewItem(rows[|rows| - 1], sku, next + |rows| - 1)]
  }

  /** An original price that is missing or 0 becomes the price. */
  function Priced(c: Code): Code {
    if OrZero(c.originalPrice) == 0 then c.(originalPrice := Some(OrZero(c.price))) else c
  }

  function PricedAmong(rows: seq<Code>, codes: seq<Code>): seq<Code> {
    seq(|codes|, i requires 0 <= i < |codes| => if codes[i] in rows then Priced(codes[i]) else codes[i])
  }

  function Migrated(db: Db): Db {
    var rows := Pending(db);
    WithSku(db).(codes := PricedAmong(rows, db.codes), items := db.items + NewItems(rows, DefaultSku(db), db.nextItem),
                 nextItem := db.nextItem + |rows|)
  }

  /** `id` is the primary key of welfare_codes. */
  predicate Keyed(codes: seq<Code>) {
    forall i, j :: 0 <= i < j < |codes| ==> codes[i].id != codes[j].id
  }

  // ---- What it means ----

  predicate HasItem(items: seq<Item>, id: int) {
    exists k :: 0 <= k < |items| && items[k].codeId == id
  }

  lemma {:induction false} FilterKeyed(p: Code -> bool, codes: seq<Code>)
    requires Keyed(codes)
    ensures Keyed(Filter(p, codes))
  {
    if codes != [] {
      var n := |codes| - 1;
      FilterKeyed(p, codes[..n]);
      forall k | 0 <= k < |Filter(p, codes[..n])| ensures Filter(p, codes[..n])[k].id != codes[n].id {
        FilterMember(p, codes[..n], Filter(p, codes[..n])[k]);
      }
    }
  }

  /** What one more row adds to the items of an id. */
  lemma {:induction false} NextNewItem(rows: seq<Code>, sku: int, next: int, id: int)
    requires rows != []
    ensures
      var n := |rows| - 1;
      Filter(OfCode(id), NewItems(rows, sku, next))
      == if rows[n].id == id then Filter(OfCode(id), NewItems(rows[..n], sku, next)) + [NewItem(rows[n], sku, next + n)]
         else Filter(OfCode(id), NewItems(rows[..n], sku, next))
  {
    var n := |rows| - 1;
    FilterPush(OfCode(id), NewItems(rows[..n], sku, next), NewItem(rows[n], sku, next + n));
  }

  /** Of rows with different ids, one item has the id of a given row. */
  lemma {:induction false} OneNewItem(rows: seq<Code>, sku: int, next: int, k: nat, c: Code)
    requires Keyed(rows) && k < |rows| && rows[k] == c
    ensures Filter(OfCode(c.id), NewItems(rows, sku, next)) == [NewItem(c, sku, next + k)]
  {
    var n := |rows| - 1;
    KeyedParts(rows, k);
    if k < n {
      OneNewItem(rows[..n], sku, next, k, c);
      OtherNewItem(rows, sku, next, c.id);
    } else {
      NoNewItem(rows[..n], sku, next, rows[n].id);
      LastNewItem(rows, sku, next);
    }
  }

  lemma {:induction false} OtherNewItem(rows: seq<Code>, sku: int, next: int, id: int)
    requires rows != [] && rows[|rows| - 1].id != id
    ensures Filter(OfCode(id), NewItems(rows, sku, next)) == Filter(OfCode(id), NewItems(rows[..|rows| - 1], sku, next))
  {
    NextNewItem(rows, sku, next, id);
  }

  lemma {:induction false} KeyedParts(rows: seq<Code>, k: nat)
    requires Keyed(rows) && k < |rows|
    ensures
      var n := |rows| - 1;
      && Keyed(rows[..n])
      && (k < n ==> rows[..n][k] == rows[k] && rows[n].id != rows[k].id)
      && forall j :: 0 <= j < n ==> rows[..n][j].id != rows[n].id
  {
  }

  lemma {:induction false} LastNewItem(rows: seq<Code>, sku: int, next: int)
    requires rows != []
    requires Filter(OfCode(rows[|rows| - 1].id), NewItems(rows[..|rows| - 1], sku, next)) == []
    ensures Filter(OfCode(rows[|rows| - 1].id), NewItems(rows, sku, next))
            == [NewItem(rows[|rows| - 1], sku, next + |rows| - 1)]
  {
    NextNewItem(rows, sku, next, rows[|rows| - 1].id);
    Whole([NewItem(rows[|rows| - 1], sku, next + |rows| - 1)]);
  }

  lemma {:induction false} NoNewItem(rows: seq<Code>, sku: int, next: int, id: int)
    requires forall k :: 0 <= k < |rows| ==> rows[k].id != id
    ensures Filter(OfCode(id), NewItems(rows, sku, next)) == []
  {
    if rows != [] {
      NoNewItem(rows[..|rows| - 1], sku, next, id);
      NextNewItem(rows, sku, next, id);
    }
  }

  /** Which items a code has afterwards: those it had, or else one of quantity 1 at its price, of the
      default SKU. */
  lemma {:induction false} ItemsAfter(db: Db, i: nat)
    requires Keyed(db.codes) && i < |db.codes|
    ensures
      var c := db.codes[i];
      var after := Filter(OfCode(c.id), Migrated(db).items);
      if HasItem(db.items, c.id) then after == Filter(OfCode(c.id), db.items) && after != []
      else
        && |after| == 1 && after[0].quantity == 1 && after[0].price == OrZero(c.price)
        && after[0].skuId == DefaultSku(db)
  {
    var c, rows := db.codes[i], Pending(db);
    var sku := DefaultSku(db);
    FilterAppend(OfCode(c.id), db.items, NewItems(rows, sku, db.nextItem));
    FilterMember(Lacks(db.items), db.codes, c);
    FilterKeyed(Lacks(db.items), db.codes);
    if HasItem(db.items, c.id) {
      var k :| 0 <= k < |db.items| && db.items[k].codeId == c.id;
      FilterMember(OfCode(c.id), db.items, db.items[k]);
      forall j | 0 <= j < |rows| ensures rows[j].id != c.id { FilterMember(Lacks(db.items), db.codes, rows[j]); }
      NoNewItem(rows, sku, db.nextItem, c.id);
    } else {
      var k :| 0 <= k < |rows| && rows[k] == c;
      OneNewItem(rows, sku, db.nextItem, k, c);
      FilterNone(OfCode(c.id), db.items);
    }
  }

  /** Codes that had items are untouched; of the others only a missing or zero original price changes, and
      it becomes the price. Old items stay where they were. */
  lemma {:induction false} OnlyAdds(db: Db, i: nat)
    requires i < |db.codes|
    ensures db.items <= Migrated(db).items && db.skus <= Migrated(db).skus
    ensures |Migrated(db).codes| == |db.codes|
    ensures
      var c, c' := db.codes[i], Migrated(db).codes[i];
      && c' == c.(originalPrice := c'.originalPrice)
      && (c' == c || (!HasItem(db.items, c.id) && OrZero(c.originalPrice) == 0))
      && (!HasItem(db.items, c.id) && OrZero(c.originalPrice) == 0 ==> c'.originalPrice == Some(OrZero(c.price)))
  {
    FilterMember(Lacks(db.items), db.codes, db.codes[i]);
  }

  /** The item that joins a code to the default SKU points at a SKU that is there. */
  lemma {:induction false} SkuIsThere(db: Db)
    ensures Find(HasSkuCode(DEFAULT_CODE), WithSku(db).skus).Some?
    ensures exists s :: s in WithSku(db).skus && s.id == DefaultSku(db) && s.code == DEFAULT_CODE
  {
    var skus := db.skus;
    var i := IndexWhere(HasSkuCode(DEFAULT_CODE), skus);
    if i < |skus| {
      assert skus[i] in WithSku(db).skus;
    } else {
      var added := WithSku(db).skus;
      assert HasSkuCode(DEFAULT_CODE)(added[|skus|]);
      assert added[|skus|] in added;
    }
  }

  lemma {:induction false} NonePending(db: Db)
    ensures Pending(db) == [] <==> forall i :: 0 <= i < |db.codes| ==> HasItem(db.items, db.codes[i].id)
  {
    forall i | 0 <= i < |db.codes|
      ensures db.codes[i] in Pending(db) <==> !HasItem(db.items, db.codes[i].id)
    {
      FilterMember(Lacks(db.items), db.codes, db.codes[i]);
    }
    if Pending(db) != [] {
      FilterMember(Lacks(db.items), db.codes, Pending(db)[0]);
    }
  }

  lemma {:induction false} EveryCodeHasAnItem(db: Db)
    requires Keyed(db.codes)
    ensures forall i :: 0 <= i < |db.codes| ==> HasItem(Migrated(db).items, Migrated(db).codes[i].id)
  {
    forall i | 0 <= i < |db.codes| ensures HasItem(Migrated(db).items, Migrated(db).codes[i].id) {
      var id := db.codes[i].id;
      ItemsAfter(db, i);
      OnlyAdds(db, i);
      var x := Filter(OfCode(id), Migrated(db).items)[0];
      FilterMember(OfCode(id), Migrated(db).items, x);
    }
  }

  /** A second run changes nothing. */
  lemma {:induction false} SecondRunChangesNothing(db: Db)
    requires Keyed(db.codes)
    ensures Migrated(Migrated(db)) == Migrated(db)
  {
    var db' := Migrated(db);
    EveryCodeHasAnItem(db);
    NonePending(db');
    SkuIsThere(db);
    assert db'.items + [] == db'.items;
    assert NewItems([], DefaultSku(db'), db'.nextItem) == [];
    assert PricedAmong([], db'.codes) == db'.codes;
  }

  // ---- The script ----

  datatype Outcome = NothingToDo | RolledBack | Done(inserted: nat, repriced: nat)

  /** How many rows have their original price filled. */
  function Unpriced(rows: seq<Code>): nat {
    if rows == [] then 0
    else Unpriced(rows[..|rows| - 1]) + if OrZero(rows[|rows| - 1].originalPrice) == 0 then 1 else 0
  }

  class Database {
    var skus: seq<Sku>
    var codes: seq<Code>
    var items: seq<Item>
    var nextSku: int
    var nextItem: int

    ghost function View(): Db
      reads this
    {
      Db(skus, codes, items, nextSku, nextItem)
    }

    /** Finds or creates the default SKU, outside the transaction. */
    method EnsureSku() returns (id: int)
      modifies this`skus, this`nextSku
      ensures View() == WithSku(old(View())) && id == DefaultSku(old(View()))
    {
      var i := 0;
      while i < |skus| && skus[i].code != DEFAULT_CODE
        invariant i <= |skus| && forall j :: 0 <= j < i ==> skus[j].code != DEFAULT_CODE
      {
        i := i + 1;
      }
      assert i == IndexWhere(HasSkuCode(DEFAULT_CODE), skus);
      if i < |skus| { return skus[i].id; }
      id := nextSku;
      skus := skus + [Sku(id, DEFAULT_CODE, DEFAULT_TITLE, 0)];
      nextSku := nextSku + 1;
    }

    /** One round: inserts the item and fills the original price if it is missing or 0. */
    method MigrateCode(wc: Code, sku: int) returns (filled: bool)
      modifies this`codes, this`items, this`nextItem
      ensures items == old(items) + [NewItem(wc, sku, old(nextItem))] && nextItem == old(nextItem) + 1
      ensures filled <==> OrZero(wc.originalPrice) == 0
      ensures codes == Repriced(old(codes), wc)
    {
      items := items + [NewItem(wc, sku, nextItem)];
      nextItem := nextItem + 1;
      filled := OrZero(wc.originalPrice) == 0;
      if filled {
        codes := SetOriginal(codes, wc.id, OrZero(wc.price));
      }
    }

    /** The transaction. `failAt` is the round of the loop in which a query throws, if one does; ids that
        were given out are not given again after the rollback. */
    method Transact(rows: seq<Code>, sku: int, failAt: Option<nat>) returns (ok: bool, repriced: nat)
      requires Keyed(codes) && forall k :: 0 <= k < |rows| ==> rows[k] in codes
      modifies this`codes, this`items, this`nextItem
      ensures ok <==> !(failAt.Some? && failAt.value < |rows|)
      ensures !ok ==> codes == old(codes) && items == old(items)
      ensures ok ==>
                && codes == PricedAmong(rows, old(codes)) && items == old(items) + NewItems(rows, sku, old(nextItem))
                && nextItem == old(nextItem) + |rows| && repriced == Unpriced(rows)
    {
      var codes0, items0 := codes, items;
      ghost var next := nextItem;
      var k := 0;
      repriced := 0;
      assert PricedAmong([], codes) == codes && rows[..0] == [];
      while k < |rows|
        invariant k <= |rows| && repriced == Unpriced(rows[..k])
        invariant failAt.Some? ==> failAt.value >= k
        invariant codes == PricedAmong(rows[..k], codes0)
        invariant items == items0 + NewItems(rows[..k], sku, next)
        invariant nextItem == next + k
      {
        if failAt == Some(k) {
          codes, items := codes0, items0;
          return false, repriced;
        }
        OneMore(rows, codes0, k, sku, next);
        var filled := MigrateCode(rows[k], sku);
        repriced := repriced + if filled then 1 else 0;
        k := k + 1;
      }
      assert rows[..|rows|] == rows;
      ok := true;
    }

    /** main */
    method Migrate(failAt: Option<nat>) returns (outcome: Outcome)
      requires Keyed(codes)
      modifies this
      ensures outcome == NothingToDo <==> Pending(old(View())) == []
      ensures outcome == RolledBack <==> failAt.Some? && failAt.value < |Pending(old(View()))|
      ensures outcome != RolledBack ==> View() == Migrated(old(View()))
      ensures outcome == RolledBack ==> View() == WithSku(old(View())).(nextItem := nextItem)
      ensures outcome.Done?
              ==> outcome.inserted == |Pending(old(View()))| && outcome.repriced == Unpriced(Pending(old(View())))
    {
      var sku := EnsureSku();
      var rows := Filter(Lacks(items), codes);
      if rows == [] {
        assert items + NewItems(rows, sku, nextItem) == items && PricedAmong(rows, codes) == codes;
        return NothingToDo;
      }
      forall k | 0 <= k < |rows| ensures rows[k] in codes { FilterMember(Lacks(items), codes, rows[k]); }
      var ok, repriced := Transact(rows, sku, failAt);
      outcome := if ok then Done(|rows|, repriced) else RolledBack;
    }
  }

  /** `UPDATE welfare_codes SET original_price_cent = ? WHERE id = ?` */
  function SetOriginal(codes: seq<Code>, id: int, price: int): seq<Code> {
    seq(|codes|, i requires 0 <= i < |codes| =>
          if codes[i].id == id then codes[i].(originalPrice := Some(price)) else codes[i])
  }

  function Repriced(codes: seq<Code>, wc: Code): seq<Code> {
    if OrZero(wc.originalPrice) == 0 then SetOriginal(codes, wc.id, OrZero(wc.price)) else codes
  }

  /** One round of the loop. */
  lemma {:induction false} OneMore(rows: seq<Code>, codes: seq<Code>, k: nat, sku: int, next: int)
    requires k < |rows| && Keyed(codes) && rows[k] in codes
    ensures NewItems(rows[..k + 1], sku, next) == NewItems(rows[..k], sku, next) + [NewItem(rows[k], sku, next + k)]
    ensures Unpriced(rows[..k + 1]) == Unpriced(rows[..k]) + if OrZero(rows[k].originalPrice) == 0 then 1 else 0
    ensures PricedAmong(rows[..k + 1], codes) == Repriced(PricedAmong(rows[..k], codes), rows[k])
  {
    assert rows[..k + 1] == rows[..k] + [rows[k]] && rows[..k + 1][..k] == rows[..k];
    var n :| 0 <= n < |codes| && codes[n] == rows[k];
    forall i | 0 <= i < |codes| ensures codes[i].id == rows[k].id ==> i == n {
    }
  }
}
