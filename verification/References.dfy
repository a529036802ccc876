/** Deletes and the rows that point at what they delete: `orders.ts`, `products.ts`, `welfare_codes.ts` and
    the guarded delete of `src/routes/api_v1/admin/categories.ts`. */
module References {
  import opened Values
  import opened Seqs
  import opened Tables
  import opened StoreSpec
  import opened Machines
  import opened OrderLog

  predicate Holds(rows: seq<Row>, f: Field, v: Value) {
    exists i :: 0 <= i < |rows| && Get(rows[i], f) == v
  }

  /** Every row that has a value in `f` points at a row of `parents` with that value in `key`. */
  predicate Resolved(children: seq<Row>, f: Field, parents: seq<Row>, key: Field) {
    forall i :: 0 <= i < |children| ==> Points(children[i], f, parents, key)
  }

  predicate Points(r: Row, f: Field, parents: seq<Row>, key: Field) {
    Get(r, f) == Undefined || Get(r, f) == Null || Holds(parents, key, Get(r, f))
  }

  /** Four references: order items to orders, SKUs to products, code items to welfare codes, and properties to
      categories. They resolve, and all ids are in order. */
  ghost predicate RefsOk(d: Data) {
    && DataOk(d)
    && Resolved(Rows(d, OrderItems), OrderNo, Rows(d, Orders), OrderNo)
    && Resolved(Rows(d, ProductSkus), ProductId, Rows(d, Products), Id)
    && Resolved(Rows(d, WelfareCodeItems), WelfareCodeId, Rows(d, WelfareCodes), Id)
    && Resolved(Rows(d, Properties), CategoryId, Rows(d, Categories), Id)
  }

  datatype DeleteCall =
    | DeleteOrder(no: string)
    | DeleteProduct(id: int)
    | DeleteCode(id: int)
    | DeleteCategory(id: int)
    | DeleteProperty(id: int)

  function DeleteOps(d: Data, c: DeleteCall): seq<Mutation> {
    match c
    case DeleteOrder(no) =>
      var order := FindOrder(d, no);
      if order.None? then []
      else [RemoveWhere(OrderItems, Pointing(OrderNo, Str(no))), Remove(Orders, IdOf(order.value))]
    case DeleteProduct(id) => [RemoveWhere(ProductSkus, Pointing(ProductId, Num(id))), Remove(Products, id)]
    case DeleteCode(id) => [RemoveWhere(WelfareCodeItems, Pointing(WelfareCodeId, Num(id))), Remove(WelfareCodes, id)]
    case DeleteCategory(id) =>
      if Find(Pointing(CategoryId, Num(id)), Rows(d, Properties)).Some? then [] else [Remove(Categories, id)]
    case DeleteProperty(id) => [Remove(Properties, id)]
  }

  function DeleteBody(c: DeleteCall): Data -> Effects {
    d => Effects(DeleteOps(d, c), false)
  }

  function AfterDelete(d: Data, c: DeleteCall): Data {
    ApplyAll(d, DeleteOps(d, c))
  }

  /** A parent other than the one removed is still there. */
  lemma {:induction false} ParentStays(parents: seq<Row>, next: int, id: int, key: Field, v: Value, w: Value)
    requires IdsOk(parents, next) && Holds(parents, key, w) && w != v
    requires var i := IndexWhere(ById(id), parents); i < |parents| ==> Get(parents[i], key) == v
    ensures Holds(RemoveRow(parents, id), key, w)
  {
    var i := IndexWhere(ById(id), parents);
    var k :| 0 <= k < |parents| && Get(parents[k], key) == w;
    if i < |parents| {
      assert k != i;
      SpliceKeeps(parents, i, k);
    }
  }

  lemma {:induction false} SpliceKeeps<T>(s: seq<T>, i: nat, k: nat)
    requires i < |s| && k < |s| && k != i
    ensures var j := if k < i then k else k - 1; j < |SpliceOut(s, i)| && SpliceOut(s, i)[j] == s[k]
  {
  }

  /** Removing a parent after the rows that point at it leaves nothing dangling. */
  lemma {:induction false} CascadeResolved(children: seq<Row>, f: Field, parents: seq<Row>, key: Field, next: int,
                                           id: int, v: Value)
    requires IdsOk(parents, next) && Resolved(children, f, parents, key)
    requires var i := IndexWhere(ById(id), parents); i < |parents| ==> Get(parents[i], key) == v
    ensures Resolved(Filter(Except(Pointing(f, v)), children), f, RemoveRow(parents, id), key)
  {
    var kept := Filter(Except(Pointing(f, v)), children);
    forall i | 0 <= i < |kept| ensures Points(kept[i], f, RemoveRow(parents, id), key) {
      FilterMember(Except(Pointing(f, v)), children, kept[i]);
      var k :| 0 <= k < |children| && children[k] == kept[i];
      assert Points(children[k], f, parents, key);
      if Holds(parents, key, Get(kept[i], f)) {
        ParentStays(parents, next, id, key, v, Get(kept[i], f));
      }
    }
  }

  /** The tables after a cascading delete: the children without those that pointed at v, in order, the
      parents without the row of the id, and every other table as before. */
  lemma {:induction false} CascadeShape(d: Data, child: Table, f: Field, v: Value, parent: Table, id: int, t: Table)
    requires DataOk(d) && child != parent
    ensures
      var e := ApplyAll(d, [RemoveWhere(child, Pointing(f, v)), Remove(parent, id)]);
      && DataOk(e)
      && Rows(e, child) == Filter(Except(Pointing(f, v)), Rows(d, child))
      && Rows(e, parent) == RemoveRow(Rows(d, parent), id)
      && (t != child && t != parent ==> Rows(e, t) == Rows(d, t))
  {
    var a, b := RemoveWhere(child, Pointing(f, v)), Remove(parent, id);
    ApplyTwo(d, a, b);
    MutationKeepsIds(d, a);
    MutationKeepsIds(ApplyData(d, a), b);
    ApplyRows(d, a, child);
    ApplyRows(d, a, parent);
    ApplyRows(d, a, t);
    ApplyRows(ApplyData(d, a), b, child);
    ApplyRows(ApplyData(d, a), b, parent);
    ApplyRows(ApplyData(d, a), b, t);
  }

  lemma {:induction false} CascadeAll(d: Data, child: Table, f: Field, v: Value, parent: Table, id: int)
    requires DataOk(d) && child != parent
    ensures
      var e := ApplyAll(d, [RemoveWhere(child, Pointing(f, v)), Remove(parent, id)]);
      && DataOk(e)
      && Rows(e, child) == Filter(Except(Pointing(f, v)), Rows(d, child))
      && Rows(e, parent) == RemoveRow(Rows(d, parent), id)
      && forall t: Table :: t != child && t != parent ==> Rows(e, t) == Rows(d, t)
  {
    forall t: Table { CascadeShape(d, child, f, v, parent, id, t); }
    CascadeShape(d, child, f, v, parent, id, child);
  }

  lemma {:induction false} KeyById(parents: seq<Row>, id: int)
    ensures var i := IndexWhere(ById(id), parents); i < |parents| ==> Get(parents[i], Id) == Num(id)
  {
  }

  lemma {:induction false} CascadeById(children: seq<Row>, f: Field, parents: seq<Row>, next: int, id: int)
    requires IdsOk(parents, next) && Resolved(children, f, parents, Id)
    ensures Resolved(Filter(Except(Pointing(f, Num(id))), children), f, RemoveRow(parents, id), Id)
  {
    KeyById(parents, id);
    CascadeResolved(children, f, parents, Id, next, id, Num(id));
  }

  lemma {:induction false} OrderKey(d: Data, no: string)
    requires DataOk(d) && FindOrder(d, no).Some?
    ensures
      var orders := Rows(d, Orders);
      var i := IndexWhere(ById(IdOf(FindOrder(d, no).value)), orders);
      i < |orders| ==> Get(orders[i], OrderNo) == Str(no)
  {
    var orders := Rows(d, Orders);
    var k := IndexWhere(HasNo(no), orders);
    assert IdsOk(orders, Counter(d, Orders)) && ValidId(orders[k], Counter(d, Orders));
    var i := IndexWhere(ById(IdOf(orders[k])), orders);
    assert ById(IdOf(orders[k]))(orders[k]) && i <= k;
    assert forall j :: 0 <= j < k ==> Get(orders[j], Id) != Get(orders[k], Id);
  }

  lemma {:induction false} OrderDeleteKeeps(d: Data, no: string)
    requires RefsOk(d) && FindOrder(d, no).Some?
    ensures RefsOk(AfterDelete(d, DeleteOrder(no)))
  {
    var id := IdOf(FindOrder(d, no).value);
    OrderKey(d, no);
    CascadeAll(d, OrderItems, OrderNo, Str(no), Orders, id);
    assert IdsOk(Rows(d, Orders), Counter(d, Orders));
    CascadeResolved(Rows(d, OrderItems), OrderNo, Rows(d, Orders), OrderNo, Counter(d, Orders), id, Str(no));
  }

  lemma {:induction false} ProductDeleteKeeps(d: Data, id: int)
    requires RefsOk(d)
    ensures RefsOk(AfterDelete(d, DeleteProduct(id)))
  {
    CascadeAll(d, ProductSkus, ProductId, Num(id), Products, id);
    CascadeById(Rows(d, ProductSkus), ProductId, Rows(d, Products), Counter(d, Products), id);
  }

  lemma {:induction false} CodeDeleteKeeps(d: Data, id: int)
    requires RefsOk(d)
    ensures RefsOk(AfterDelete(d, DeleteCode(id)))
  {
    CascadeAll(d, WelfareCodeItems, WelfareCodeId, Num(id), WelfareCodes, id);
    CascadeById(Rows(d, WelfareCodeItems), WelfareCodeId, Rows(d, WelfareCodes), Counter(d, WelfareCodes), id);
  }

  /** No delete of an order, product, welfare code or property, and no guarded delete of a category, leaves one
      of the four references dangling. */
  lemma {:induction false} DeletesLeaveNothingDangling(d: Data, c: DeleteCall)
    requires RefsOk(d)
    ensures RefsOk(AfterDelete(d, c))
  {
    match c
    case DeleteOrder(no) =>
      if FindOrder(d, no).Some? { OrderDeleteKeeps(d, no); } else { assert ApplyAll(d, []) == d; }
    case DeleteProduct(id) => ProductDeleteKeeps(d, id);
    case DeleteCode(id) => CodeDeleteKeeps(d, id);
    case DeleteCategory(id) => CategoryDeleteKeeps(d, id);
    case DeleteProperty(id) => PropertyDeleteKeeps(d, id);
  }

  lemma {:induction false} PropertyShape(d: Data, id: int, t: Table)
    requires DataOk(d)
    ensures
      var e := AfterDelete(d, DeleteProperty(id));
      DataOk(e) && Rows(e, t) == if t == Properties then RemoveRow(Rows(d, t), id) else Rows(d, t)
  {
    var op := Remove(Properties, id);
    ApplyOne(d, op);
    MutationKeepsIds(d, op);
    ApplyRows(d, op, t);
  }

  lemma {:induction false} PropertyDeleteKeeps(d: Data, id: int)
    requires RefsOk(d)
    ensures RefsOk(AfterDelete(d, DeleteProperty(id)))
  {
    forall t: Table { PropertyShape(d, id, t); }
    PropertyShape(d, id, Properties);
    RemovedResolved(Rows(d, Properties), id, CategoryId, Rows(d, Categories), Id);
  }

  lemma {:induction false} CategoryShape(d: Data, id: int, t: Table)
    requires DataOk(d)
    ensures
      var e := AfterDelete(d, DeleteCategory(id));
      && DataOk(e)
      && (t != Categories ==> Rows(e, t) == Rows(d, t))
      && Rows(e, Categories) == if Find(Pointing(CategoryId, Num(id)), Rows(d, Properties)).Some?
                                then Rows(d, Categories)
                                else RemoveRow(Rows(d, Categories), id)
  {
    var op := Remove(Categories, id);
    ApplyOne(d, op);
    assert ApplyAll(d, []) == d;
    MutationKeepsIds(d, op);
    ApplyRows(d, op, t);
    ApplyRows(d, op, Categories);
  }

  lemma {:induction false} CategoryDeleteKeeps(d: Data, id: int)
    requires RefsOk(d)
    ensures RefsOk(AfterDelete(d, DeleteCategory(id)))
  {
    forall t: Table { CategoryShape(d, id, t); }
    CategoryShape(d, id, Categories);
    var homes := Rows(d, Properties);
    if Find(Pointing(CategoryId, Num(id)), homes).None? {
      KeyById(Rows(d, Categories), id);
      CascadeResolved(homes, CategoryId, Rows(d, Categories), Id, Counter(d, Categories), id, Num(id));
      FilterAll(Except(Pointing(CategoryId, Num(id))), homes);
    }
  }

  // ---- References that no delete looks at ----

  lemma {:induction false} ValueGone(parents: seq<Row>, id: int, key: Field, v: Value)
    requires var i := IndexWhere(ById(id), parents);
             forall j :: 0 <= j < |parents| && j != i ==> Get(parents[j], key) != v
    ensures !Holds(RemoveRow(parents, id), key, v)
  {
    var i, rest := IndexWhere(ById(id), parents), RemoveRow(parents, id);
    if i < |parents| {
      forall k | 0 <= k < |rest| ensures Get(rest[k], key) != v {
        assert rest[k] == parents[if k < i then k else k + 1];
      }
    }
  }

  /** Removing a parent and leaving its children alone: their references still resolve exactly when none points
      at it. */
  lemma {:induction false} ParentGoneIff(children: seq<Row>, f: Field, parents: seq<Row>, key: Field, next: int,
                                         id: int, v: Value)
    requires IdsOk(parents, next) && Resolved(children, f, parents, key) && v != Undefined && v != Null
    requires
      var i := IndexWhere(ById(id), parents);
      && (i < |parents| ==> Get(parents[i], key) == v)
      && forall j :: 0 <= j < |parents| && j != i ==> Get(parents[j], key) != v
    ensures Resolved(children, f, RemoveRow(parents, id), key) <==> Find(Pointing(f, v), children).None?
  {
    CascadeResolved(children, f, parents, key, next, id, v);
    ValueGone(parents, id, key, v);
    var k := IndexWhere(Pointing(f, v), children);
    if k == |children| {
      FilterAll(Except(Pointing(f, v)), children);
    } else {
      assert !Points(children[k], f, RemoveRow(parents, id), key);
    }
  }

  lemma {:induction false} IdGoneIff(children: seq<Row>, f: Field, parents: seq<Row>, next: int, id: int)
    requires IdsOk(parents, next) && Resolved(children, f, parents, Id)
    ensures Resolved(children, f, RemoveRow(parents, id), Id) <==> Find(Pointing(f, Num(id)), children).None?
  {
    KeyById(parents, id);
    var i := IndexWhere(ById(id), parents);
    forall j | 0 <= j < |parents| && j != i ensures Get(parents[j], Id) != Num(id) {
      if i < |parents| {
        assert if i < j then Get(parents[i], Id) != Get(parents[j], Id) else Get(parents[j], Id) != Get(parents[i], Id);
      } else {
        assert !ById(id)(parents[j]);
      }
    }
    ParentGoneIff(children, f, parents, Id, next, id, Num(id));
  }

  /** The guard of the category delete looks at properties only. After a delete that goes through, the category
      references of products still resolve exactly when no product points at the deleted category. */
  lemma {:induction false} ProductCategoriesIff(d: Data, id: int)
    requires RefsOk(d) && Resolved(Rows(d, Products), CategoryId, Rows(d, Categories), Id)
    requires Find(Pointing(CategoryId, Num(id)), Rows(d, Properties)).None?
    ensures
      var e := AfterDelete(d, DeleteCategory(id));
      Resolved(Rows(e, Products), CategoryId, Rows(e, Categories), Id)
      <==> Find(Pointing(CategoryId, Num(id)), Rows(d, Products)).None?
  {
    CategoryShape(d, id, Products);
    IdGoneIff(Rows(d, Products), CategoryId, Rows(d, Categories), Counter(d, Categories), id);
  }

  /** A category that no property has and one product has: the delete goes through, and the product dangles. */
  lemma {:induction false} ProductLosesItsCategory(d: Data, category: Row, product: Row)
    requires RefsOk(d) && Get(category, Id) == Num(1) && Get(product, CategoryId) == Num(1)
    requires Rows(d, Categories) == [category] && Rows(d, Products) == [product] && Rows(d, Properties) == []
    ensures
      var e := AfterDelete(d, DeleteCategory(1));
      Rows(e, Categories) == [] && !Resolved(Rows(e, Products), CategoryId, Rows(e, Categories), Id)
  {
    CategoryShape(d, 1, Products);
    var e := AfterDelete(d, DeleteCategory(1));
    assert ById(1)([category][0]) && IndexWhere(ById(1), [category]) == 0;
    assert RemoveRow([category], 1) == [];
    assert !Points(Rows(e, Products)[0], CategoryId, [], Id);
  }

  /** The delete of a product leaves order items alone: their references to products still resolve exactly when
      no item is of that product. */
  lemma {:induction false} ItemProductsIff(d: Data, id: int)
    requires RefsOk(d) && Resolved(Rows(d, OrderItems), ProductId, Rows(d, Products), Id)
    ensures
      var e := AfterDelete(d, DeleteProduct(id));
      Resolved(Rows(e, OrderItems), ProductId, Rows(e, Products), Id)
      <==> Find(Pointing(ProductId, Num(id)), Rows(d, OrderItems)).None?
  {
    CascadeShape(d, ProductSkus, ProductId, Num(id), Products, id, OrderItems);
    IdGoneIff(Rows(d, OrderItems), ProductId, Rows(d, Products), Counter(d, Products), id);
  }

  /** The delete of a property leaves orders alone: their references to properties still resolve exactly when no
      order is for that property. */
  lemma {:induction false} OrderPropertiesIff(d: Data, id: int)
    requires RefsOk(d) && Resolved(Rows(d, Orders), PropertyId, Rows(d, Properties), Id)
    ensures
      var e := AfterDelete(d, DeleteProperty(id));
      Resolved(Rows(e, Orders), PropertyId, Rows(e, Properties), Id)
      <==> Find(Pointing(PropertyId, Num(id)), Rows(d, Orders)).None?
  {
    PropertyShape(d, id, Orders);
    PropertyShape(d, id, Properties);
    IdGoneIff(Rows(d, Orders), PropertyId, Rows(d, Properties), Counter(d, Properties), id);
  }

  /** The row that the delete of an order removes is the only one with the number. */
  lemma {:induction false} NumberOnce(d: Data, no: string, i: nat)
    requires DataOk(d) && DistinctNos(Rows(d, Orders)) && FindOrder(d, no).Some?
    requires i == IndexWhere(ById(IdOf(FindOrder(d, no).value)), Rows(d, Orders))
    ensures i < |Rows(d, Orders)| && Get(Rows(d, Orders)[i], OrderNo) == Str(no)
    ensures forall j :: 0 <= j < |Rows(d, Orders)| && j != i ==> Get(Rows(d, Orders)[j], OrderNo) != Str(no)
  {
    var orders := Rows(d, Orders);
    assert IdsOk(orders, Counter(d, Orders));
    FoundOrder(d, no);
    forall j | 0 <= j < |orders| && j != i ensures Get(orders[j], OrderNo) != Str(no) {
      if i < j { assert Get(orders[i], OrderNo) != Get(orders[j], OrderNo); }
      else { assert Get(orders[j], OrderNo) != Get(orders[i], OrderNo); }
    }
  }

  /** The delete of an order leaves its change log: the log's references to orders still resolve exactly when
      no entry carries the number. */
  lemma {:induction false} LogOrdersIff(d: Data, no: string)
    requires RefsOk(d) && Resolved(Rows(d, OrderChangeLogs), OrderNo, Rows(d, Orders), OrderNo)
    requires DistinctNos(Rows(d, Orders)) && FindOrder(d, no).Some?
    ensures
      var e := AfterDelete(d, DeleteOrder(no));
      Resolved(Rows(e, OrderChangeLogs), OrderNo, Rows(e, Orders), OrderNo)
      <==> Find(Pointing(OrderNo, Str(no)), Rows(d, OrderChangeLogs)).None?
  {
    var orders, id := Rows(d, Orders), IdOf(FindOrder(d, no).value);
    assert IdsOk(orders, Counter(d, Orders));
    NumberOnce(d, no, IndexWhere(ById(id), orders));
    CascadeShape(d, OrderItems, OrderNo, Str(no), Orders, id, OrderChangeLogs);
    ParentGoneIff(Rows(d, OrderChangeLogs), OrderNo, orders, OrderNo, Counter(d, Orders), id, Str(no));
  }

  /** So it leaves an entry dangling whenever the status of the order was ever logged. */
  lemma {:induction false} LoggedOrderLeavesItsLog(d: Data, no: string)
    requires RefsOk(d) && DistinctNos(Rows(d, Orders)) && FindOrder(d, no).Some? && Entries(d, no) != []
    ensures
      var e := AfterDelete(d, DeleteOrder(no));
      !Resolved(Rows(e, OrderChangeLogs), OrderNo, Rows(e, Orders), OrderNo)
  {
    var orders, id, logs := Rows(d, Orders), IdOf(FindOrder(d, no).value), Rows(d, OrderChangeLogs);
    NumberOnce(d, no, IndexWhere(ById(id), orders));
    CascadeShape(d, OrderItems, OrderNo, Str(no), Orders, id, OrderChangeLogs);
    ValueGone(orders, id, OrderNo, Str(no));
    FilterMember(StatusEntry(no), logs, Entries(d, no)[0]);
    var k :| 0 <= k < |logs| && logs[k] == Entries(d, no)[0];
    assert !Points(logs[k], OrderNo, RemoveRow(orders, id), OrderNo);
  }

  // ---- Raw creates and edits ----

  lemma {:induction false} ReplacedResolved(children: seq<Row>, i: nat, x: Row, f: Field, parents: seq<Row>, key: Field)
    requires Resolved(children, f, parents, key) && i < |children| && Points(x, f, parents, key)
    ensures Resolved(children[i := x], f, parents, key)
  {
    var after := children[i := x];
    forall k | 0 <= k < |after| ensures Points(after[k], f, parents, key) {
      if k == i {
        assert after[k] == x;
      } else {
        assert after[k] == children[k] && Points(children[k], f, parents, key);
      }
    }
  }

  lemma {:induction false} ReplacedPoints(children: seq<Row>, i: nat, x: Row, f: Field, parents: seq<Row>, key: Field)
    requires i < |children| && Resolved(children[i := x], f, parents, key)
    ensures Points(x, f, parents, key)
  {
    assert children[i := x][i] == x;
  }

  lemma {:induction false} ReplacedResolvedIff(children: seq<Row>, i: nat, x: Row, f: Field, parents: seq<Row>,
                                               key: Field, after: seq<Row>)
    requires Resolved(children, f, parents, key) && i < |children| && after == children[i := x]
    ensures Resolved(after, f, parents, key) <==> Points(x, f, parents, key)
  {
    if Points(x, f, parents, key) { ReplacedResolved(children, i, x, f, parents, key); }
    if Resolved(after, f, parents, key) { ReplacedPoints(children, i, x, f, parents, key); }
  }

  /** A row added to the children. */
  lemma {:induction false} PushedResolvedIff(children: seq<Row>, row: Row, id: int, now: string, f: Field,
                                             parents: seq<Row>, key: Field)
    requires f != Id && f != CreatedAt && f != UpdatedAt
    ensures Resolved(children + [NewRow(row, id, now)], f, parents, key)
            <==> Resolved(children, f, parents, key) && Points(row, f, parents, key)
  {
    var x := NewRow(row, id, now);
    assert Get(x, f) == Get(row, f);
    if Resolved(children, f, parents, key) && Points(row, f, parents, key) {
      InsertResolved(children, row, id, now, f, parents, key);
    }
    if Resolved(children + [x], f, parents, key) { PushedResolved(children, x, f, parents, key); }
  }

  lemma {:induction false} PushedResolved(children: seq<Row>, x: Row, f: Field, parents: seq<Row>, key: Field)
    requires Resolved(children + [x], f, parents, key)
    ensures Resolved(children, f, parents, key) && Points(x, f, parents, key)
  {
    var all := children + [x];
    assert all[|children|] == x;
    forall i | 0 <= i < |children| ensures Points(children[i], f, parents, key) { assert all[i] == children[i]; }
  }

  /** The updates leave the id as it is. */
  predicate SameId(updates: Row, id: int) {
    Id !in updates || updates[Id] == Num(id)
  }

  lemma {:induction false} ParentEditIff(children: seq<Row>, f: Field, parents: seq<Row>, next: int, id: int,
                                         updates: Row, now: string)
    requires IdsOk(parents, next) && IdsOk(UpdateRow(parents, id, updates, now), next)
             && Resolved(children, f, parents, Id)
    ensures
      Resolved(children, f, UpdateRow(parents, id, updates, now), Id)
      <==> Find(ById(id), parents).None? || SameId(updates, id) || Find(Pointing(f, Num(id)), children).None?
  {
    var i, after := IndexWhere(ById(id), parents), UpdateRow(parents, id, updates, now);
    if i < |parents| {
      KeyOfTouched(parents[i], updates, now, Id);
      KeyById(parents, id);
      if SameId(updates, id) {
        SameKeysStay(parents, after, Id);
        ResolvedStays(children, f, parents, after, Id);
        assert Resolved(children, f, after, Id);
      } else {
        MovedId(children, f, parents, next, i, updates, now);
        assert after == parents[i := Touch(parents[i], updates, now)];
        assert Find(Pointing(f, Get(parents[i], Id)), children) == Find(Pointing(f, Num(id)), children);
        assert Resolved(children, f, after, Id) <==> Find(Pointing(f, Num(id)), children).None?;
      }
    } else {
      assert Resolved(children, f, after, Id);
    }
  }

  lemma {:induction false} MovedId(children: seq<Row>, f: Field, parents: seq<Row>, next: int, i: nat, updates: Row,
                                   now: string)
    requires IdsOk(parents, next) && i < |parents| && Id in updates && updates[Id] != Get(parents[i], Id)
    requires Resolved(children, f, parents, Id)
    ensures
      Resolved(children, f, parents[i := Touch(parents[i], updates, now)], Id)
      <==> Find(Pointing(f, Get(parents[i], Id)), children).None?
  {
    var v, after := Get(parents[i], Id), parents[i := Touch(parents[i], updates, now)];
    KeyOfTouched(parents[i], updates, now, Id);
    assert ValidId(parents[i], next) && after[i] == Touch(parents[i], updates, now);
    IdMovesAway(parents, next, i, after[i]);
    AwayIff(children, f, parents, i, after[i]);
  }

  /** No row has the old id any more. */
  lemma {:induction false} IdMovesAway(parents: seq<Row>, next: int, i: nat, x: Row)
    requires IdsOk(parents, next) && i < |parents| && Get(x, Id) != Get(parents[i], Id)
    ensures !Holds(parents[i := x], Id, Get(parents[i], Id))
  {
    var v, after := Get(parents[i], Id), parents[i := x];
    forall j | 0 <= j < |after| ensures Get(after[j], Id) != v {
      if j < i { assert Get(parents[j], Id) != Get(parents[i], Id); }
      if j > i { assert Get(parents[i], Id) != Get(parents[j], Id); }
    }
  }

  lemma {:induction false} AwayIff(children: seq<Row>, f: Field, parents: seq<Row>, i: nat, x: Row)
    requires i < |parents| && Get(parents[i], Id).Num? && Resolved(children, f, parents, Id)
    requires !Holds(parents[i := x], Id, Get(parents[i], Id))
    ensures Resolved(children, f, parents[i := x], Id) <==> Find(Pointing(f, Get(parents[i], Id)), children).None?
  {
    var v, after := Get(parents[i], Id), parents[i := x];
    var k := IndexWhere(Pointing(f, v), children);
    if k == |children| {
      forall c | 0 <= c < |children| ensures Points(children[c], f, after, Id) {
        assert Points(children[c], f, parents, Id) && !Pointing(f, v)(children[c]);
        if Holds(parents, Id, Get(children[c], f)) { OthersHold(parents, i, x, Id, Get(children[c], f)); }
      }
    } else {
      assert !Points(children[k], f, after, Id);
    }
  }

  lemma {:induction false} OthersHold(parents: seq<Row>, i: nat, x: Row, key: Field, w: Value)
    requires i < |parents| && Holds(parents, key, w) && Get(parents[i], key) != w
    ensures Holds(parents[i := x], key, w)
  {
    var k :| 0 <= k < |parents| && Get(parents[k], key) == w;
    assert parents[i := x][k] == parents[k];
  }

  /** What an edit of a stored property, product or welfare code must leave alone for the references: what the
      property points at is there, and no SKU or item loses the id it points at. */
  predicate KeepsTargets(d: Data, t: Table, id: int, updates: Row, now: string)
    requires IndexWhere(ById(id), Rows(d, t)) < |Rows(d, t)|
  {
    match t
    case Properties =>
      Points(Touch(Rows(d, t)[IndexWhere(ById(id), Rows(d, t))], updates, now), CategoryId, Rows(d, Categories), Id)
    case Products => SameId(updates, id) || Find(Pointing(ProductId, Num(id)), Rows(d, ProductSkus)).None?
    case WelfareCodes => SameId(updates, id) || Find(Pointing(WelfareCodeId, Num(id)), Rows(d, WelfareCodeItems)).None?
    case _ => true
  }

  predicate EditResolves(d: Data, t: Table, id: int, updates: Row, now: string) {
    IndexWhere(ById(id), Rows(d, t)) == |Rows(d, t)|
    || (IdFree(Rows(d, t), id, updates, Counter(d, t)) && KeepsTargets(d, t, id, updates, now))
  }

  /** The tables after a raw edit. */
  lemma {:induction false} EditShape(d: Data, t: Table, id: int, updates: Row, now: string, u: Table, e: Data)
    requires e == ApplyData(d, Update(t, id, updates, now))
    ensures Rows(e, u) == if u == t then UpdateRow(Rows(d, t), id, updates, now) else Rows(d, u)
    ensures Counter(e, u) == Counter(d, u)
  {
    ApplyRows(d, Update(t, id, updates, now), u);
  }

  lemma {:induction false} EditIdsIff(d: Data, t: Table, id: int, updates: Row, now: string, e: Data)
    requires DataOk(d) && e == ApplyData(d, Update(t, id, updates, now))
    ensures DataOk(e) <==> IdFree(Rows(d, t), id, updates, Counter(d, t))
  {
    assert IdsOk(Rows(d, t), Counter(d, t));
    UpdateKeepsIdsIff(Rows(d, t), Counter(d, t), id, updates, now);
    EditShape(d, t, id, updates, now, t, e);
    if IdsOk(Rows(e, t), Counter(e, t)) { OtherIds(d, t, id, updates, now, e); }
  }

  lemma {:induction false} OtherIds(d: Data, t: Table, id: int, updates: Row, now: string, e: Data)
    requires DataOk(d) && e == ApplyData(d, Update(t, id, updates, now)) && IdsOk(Rows(e, t), Counter(e, t))
    ensures DataOk(e)
  {
    forall u: Table ensures IdsOk(Rows(e, u), Counter(e, u)) {
      EditShape(d, t, id, updates, now, u, e);
      assert IdsOk(Rows(d, u), Counter(d, u));
    }
  }

  lemma {:induction false} EditRows(d: Data, t: Table, id: int, updates: Row, now: string, e: Data)
    requires e == ApplyData(d, Update(t, id, updates, now))
    ensures Rows(e, t) == UpdateRow(Rows(d, t), id, updates, now)
    ensures forall u: Table :: u != t ==> Rows(e, u) == Rows(d, u)
  {
    forall u: Table { EditShape(d, t, id, updates, now, u, e); }
    EditShape(d, t, id, updates, now, t, e);
  }

  lemma {:induction false} PropertyEditIff(d: Data, id: int, updates: Row, now: string, e: Data)
    requires RefsOk(d) && DataOk(e) && e == ApplyData(d, Update(Properties, id, updates, now))
    requires IndexWhere(ById(id), Rows(d, Properties)) < |Rows(d, Properties)|
    ensures RefsOk(e) <==> KeepsTargets(d, Properties, id, updates, now)
  {
    var rows, i := Rows(d, Properties), IndexWhere(ById(id), Rows(d, Properties));
    EditRows(d, Properties, id, updates, now, e);
    ReplacedResolvedIff(rows, i, Touch(rows[i], updates, now), CategoryId, Rows(d, Categories), Id,
                        Rows(e, Properties));
  }

  lemma {:induction false} ProductEditIff(d: Data, id: int, updates: Row, now: string, e: Data)
    requires RefsOk(d) && DataOk(e) && e == ApplyData(d, Update(Products, id, updates, now))
    requires IndexWhere(ById(id), Rows(d, Products)) < |Rows(d, Products)|
    ensures RefsOk(e) <==> KeepsTargets(d, Products, id, updates, now)
  {
    EditRows(d, Products, id, updates, now, e);
    EditShape(d, Products, id, updates, now, Products, e);
    assert IdsOk(Rows(d, Products), Counter(d, Products)) && IdsOk(Rows(e, Products), Counter(e, Products));
    ParentEditIff(Rows(d, ProductSkus), ProductId, Rows(d, Products), Counter(d, Products), id, updates, now);
  }

  lemma {:induction false} CodeEditIff(d: Data, id: int, updates: Row, now: string, e: Data)
    requires RefsOk(d) && DataOk(e) && e == ApplyData(d, Update(WelfareCodes, id, updates, now))
    requires IndexWhere(ById(id), Rows(d, WelfareCodes)) < |Rows(d, WelfareCodes)|
    ensures RefsOk(e) <==> KeepsTargets(d, WelfareCodes, id, updates, now)
  {
    EditRows(d, WelfareCodes, id, updates, now, e);
    EditShape(d, WelfareCodes, id, updates, now, WelfareCodes, e);
    assert IdsOk(Rows(d, WelfareCodes), Counter(d, WelfareCodes))
           && IdsOk(Rows(e, WelfareCodes), Counter(e, WelfareCodes));
    ParentEditIff(Rows(d, WelfareCodeItems), WelfareCodeId, Rows(d, WelfareCodes), Counter(d, WelfareCodes), id,
                  updates, now);
  }

  lemma {:induction false} NoSuchRow(d: Data, t: Table, id: int, updates: Row, now: string)
    requires Complete(d) && IndexWhere(ById(id), Rows(d, t)) == |Rows(d, t)|
    ensures ApplyData(d, Update(t, id, updates, now)) == d
  {
    assert d.tables[t := Rows(d, t)] == d.tables;
  }

  /** The admin routes pass raw bodies to update. The four references still resolve afterwards exactly when there
      is no such row, or the body's id is free and the edit keeps the targets. */
  lemma {:induction false} RawEditIff(d: Data, t: Table, id: int, updates: Row, now: string, e: Data)
    requires RefsOk(d) && (t == Properties || t == Products || t == WelfareCodes)
    requires e == ApplyData(d, Update(t, id, updates, now))
    ensures RefsOk(e) <==> EditResolves(d, t, id, updates, now)
  {
    if IndexWhere(ById(id), Rows(d, t)) == |Rows(d, t)| {
      NoSuchRow(d, t, id, updates, now);
    } else {
      EditIdsIff(d, t, id, updates, now, e);
      if DataOk(e) {
        if t == Properties { PropertyEditIff(d, id, updates, now, e); }
        else if t == Products { ProductEditIff(d, id, updates, now, e); }
        else { CodeEditIff(d, id, updates, now, e); }
      }
    }
  }

  /** The property route stores an unchecked category: the references resolve afterwards exactly when the
      category of the body is there, or the body has none. */
  lemma {:induction false} RawPropertyIff(d: Data, data: Row, now: string)
    requires RefsOk(d)
    ensures RefsOk(ApplyData(d, Insert(Properties, data, now))) <==> Points(data, CategoryId, Rows(d, Categories), Id)
  {
    var m := Insert(Properties, data, now);
    var e := ApplyData(d, m);
    if Points(data, CategoryId, Rows(d, Categories), Id) {
      RefSafeKeeps(d, m);
    } else {
      InsertStep(d, Properties, data, now, Categories, e);
      var rows, x := Rows(d, Properties), NewRow(data, Counter(d, Properties), now);
      assert Get(x, CategoryId) == Get(data, CategoryId);
      assert (rows + [x])[|rows|] == x && !Points(x, CategoryId, Rows(d, Categories), Id);
    }
  }

  /** A property created with a category that no stored category has. */
  lemma {:induction false} UnknownCategoryDangles(d: Data, data: Row, now: string)
    requires RefsOk(d) && Get(data, CategoryId) == Num(1) && Rows(d, Categories) == []
    ensures !RefsOk(ApplyData(d, Insert(Properties, data, now)))
  {
    RawPropertyIff(d, data, now);
  }

  // ---- Other handlers ----

  /** A change that cannot leave a row of `child` dangling: what it adds or points elsewhere resolves, no key of
      a parent changes, and no parent goes. */
  predicate SafeFor(d: Data, m: Mutation, child: Table, f: Field, parent: Table, key: Field) {
    match m
    case Bump(_) => true
    case Insert(t, row, _) => t == child ==> Points(row, f, Rows(d, parent), key)
    case Update(t, _, updates, _) =>
      (t == child ==> Points(updates, f, Rows(d, parent), key)) && (t == parent ==> key !in updates)
    case UpdateWhere(t, _, updates, _) =>
      (t == child ==> Points(updates, f, Rows(d, parent), key)) && (t == parent ==> key !in updates)
    case Remove(t, _) => t != parent
    case RemoveWhere(t, _) => t != parent
    case SortInPlace(_, _) => true
  }

  predicate RefSafe(d: Data, m: Mutation) {
    && IdSafe(m)
    && SafeFor(d, m, OrderItems, OrderNo, Orders, OrderNo)
    && SafeFor(d, m, ProductSkus, ProductId, Products, Id)
    && SafeFor(d, m, WelfareCodeItems, WelfareCodeId, WelfareCodes, Id)
    && SafeFor(d, m, Properties, CategoryId, Categories, Id)
  }

  /** Every key that was there still is. */
  ghost predicate KeysStay(a: seq<Row>, b: seq<Row>, key: Field) {
    forall v :: Holds(a, key, v) ==> Holds(b, key, v)
  }

  lemma {:induction false} ResolvedStays(children: seq<Row>, f: Field, a: seq<Row>, b: seq<Row>, key: Field)
    requires Resolved(children, f, a, key) && KeysStay(a, b, key)
    ensures Resolved(children, f, b, key)
  {
    forall i | 0 <= i < |children| ensures Points(children[i], f, b, key) { assert Points(children[i], f, a, key); }
  }

  lemma {:induction false} MembersHold(a: seq<Row>, b: seq<Row>, key: Field)
    requires forall i :: 0 <= i < |a| ==> a[i] in b
    ensures KeysStay(a, b, key)
  {
    forall v | Holds(a, key, v) ensures Holds(b, key, v) {
      var i :| 0 <= i < |a| && Get(a[i], key) == v;
      var k :| 0 <= k < |b| && b[k] == a[i];
    }
  }

  lemma {:induction false} SameKeysStay(a: seq<Row>, b: seq<Row>, key: Field)
    requires |a| == |b| && forall i :: 0 <= i < |a| ==> Get(b[i], key) == Get(a[i], key)
    ensures KeysStay(a, b, key)
  {
    forall v | Holds(a, key, v) ensures Holds(b, key, v) {
      var i :| 0 <= i < |a| && Get(a[i], key) == v;
      assert Get(b[i], key) == v;
    }
  }

  lemma {:induction false} TouchedKey(rows: seq<Row>, updates: Row, now: string, key: Field, after: seq<Row>)
    requires key !in updates && key != UpdatedAt && |after| == |rows|
    requires forall i :: 0 <= i < |rows| ==> after[i] == rows[i] || after[i] == Touch(rows[i], updates, now)
    ensures forall i :: 0 <= i < |rows| ==> Get(after[i], key) == Get(rows[i], key)
  {
    forall i | 0 <= i < |rows| ensures Get(after[i], key) == Get(rows[i], key) {
      KeyOfTouched(rows[i], updates, now, key);
    }
  }

  lemma {:induction false} KeyOfTouched(r: Row, updates: Row, now: string, f: Field)
    requires f != UpdatedAt
    ensures Get(Touch(r, updates, now), f) == if f in updates then updates[f] else Get(r, f)
  {
  }

  lemma {:induction false} SortMembers(leq: (Row, Row) -> bool, rows: seq<Row>, r: Row)
    ensures r in Sort(leq, rows) <==> r in rows
  {
    SortPermutes(leq, rows);
    PermutationMember(Sort(leq, rows), rows, r);
  }

  lemma {:induction false} UpdateRowShape(rows: seq<Row>, id: int, updates: Row, now: string)
    ensures
      var after := UpdateRow(rows, id, updates, now);
      forall i :: 0 <= i < |rows| ==> after[i] == rows[i] || after[i] == Touch(rows[i], updates, now)
  {
  }

  /** The parents' keys stay through a safe change. */
  lemma {:induction false} ParentKeys(d: Data, m: Mutation, key: Field)
    requires !m.Remove? && !m.RemoveWhere? && key != UpdatedAt && (m.Update? || m.UpdateWhere? ==> key !in m.updates)
    ensures KeysStay(Rows(d, m.t), NewRows(d, m), key)
  {
    var rows := Rows(d, m.t);
    match m
    case Bump(_) =>
    case Insert(t, row, now) =>
      forall i | 0 <= i < |rows| ensures rows[i] in NewRows(d, m) { assert NewRows(d, m)[i] == rows[i]; }
      MembersHold(rows, NewRows(d, m), key);
    case Update(t, id, updates, now) =>
      UpdateRowShape(rows, id, updates, now);
      TouchedKey(rows, updates, now, key, UpdateRow(rows, id, updates, now));
      SameKeysStay(rows, UpdateRow(rows, id, updates, now), key);
    case UpdateWhere(t, p, updates, now) =>
      TouchedKey(rows, updates, now, key, UpdateRows(rows, p, updates, now));
      SameKeysStay(rows, UpdateRows(rows, p, updates, now), key);
    case SortInPlace(t, leq) =>
      forall i | 0 <= i < |rows| ensures rows[i] in Sort(leq, rows) { SortMembers(leq, rows, rows[i]); }
      MembersHold(rows, Sort(leq, rows), key);
  }

  lemma {:induction false} SomeResolved(children: seq<Row>, some: seq<Row>, f: Field, parents: seq<Row>, key: Field)
    requires Resolved(children, f, parents, key) && forall i :: 0 <= i < |some| ==> some[i] in children
    ensures Resolved(some, f, parents, key)
  {
    forall i | 0 <= i < |some| ensures Points(some[i], f, parents, key) {
      var k :| 0 <= k < |children| && children[k] == some[i];
      assert Points(children[k], f, parents, key);
    }
  }

  lemma {:induction false} TouchedResolved(children: seq<Row>, updates: Row, now: string, f: Field, parents: seq<Row>,
                                           key: Field, after: seq<Row>)
    requires Resolved(children, f, parents, key) && Points(updates, f, parents, key) && f != UpdatedAt
             && |after| == |children|
    requires forall i :: 0 <= i < |children| ==> after[i] == children[i] || after[i] == Touch(children[i], updates, now)
    ensures Resolved(after, f, parents, key)
  {
    forall i | 0 <= i < |after| ensures Points(after[i], f, parents, key) {
      KeyOfTouched(children[i], updates, now, f);
      assert Points(children[i], f, parents, key);
    }
  }

  lemma {:induction false} InsertResolved(children: seq<Row>, row: Row, id: int, now: string, f: Field,
                                          parents: seq<Row>, key: Field)
    requires Resolved(children, f, parents, key) && Points(row, f, parents, key)
    requires f != Id && f != CreatedAt && f != UpdatedAt
    ensures Resolved(children + [NewRow(row, id, now)], f, parents, key)
  {
    var x := NewRow(row, id, now);
    assert Get(x, f) == Get(row, f);
    var after := children + [x];
    forall i | 0 <= i < |after| ensures Points(after[i], f, parents, key) {
      assert i < |children| ==> Points(children[i], f, parents, key);
    }
  }

  /** The children stay resolved through a safe change of their table. */
  lemma {:induction false} ChildRows(d: Data, m: Mutation, f: Field, parents: seq<Row>, key: Field)
    requires Resolved(Rows(d, m.t), f, parents, key) && f != Id && f != CreatedAt && f != UpdatedAt
    requires m.Insert? ==> Points(m.row, f, parents, key)
    requires m.Update? || m.UpdateWhere? ==> Points(m.updates, f, parents, key)
    ensures Resolved(NewRows(d, m), f, parents, key)
  {
    var rows, after := Rows(d, m.t), NewRows(d, m);
    match m
    case Bump(_) =>
    case Insert(t, row, now) => InsertResolved(rows, row, Counter(d, t), now, f, parents, key);
    case Update(t, id, updates, now) =>
      UpdateRowShape(rows, id, updates, now);
      TouchedResolved(rows, updates, now, f, parents, key, UpdateRow(rows, id, updates, now));
    case UpdateWhere(t, p, updates, now) =>
      TouchedResolved(rows, updates, now, f, parents, key, UpdateRows(rows, p, updates, now));
    case Remove(t, id) => RemovedResolved(rows, id, f, parents, key);
    case RemoveWhere(t, p) =>
      forall i | 0 <= i < |after| ensures after[i] in rows { FilterMember(Except(p), rows, after[i]); }
      SomeResolved(rows, after, f, parents, key);
    case SortInPlace(t, leq) =>
      forall i | 0 <= i < |after| ensures after[i] in rows { SortMembers(leq, rows, after[i]); }
      SomeResolved(rows, after, f, parents, key);
  }

  lemma {:induction false} RemovedResolved(rows: seq<Row>, id: int, f: Field, parents: seq<Row>, key: Field)
    requires Resolved(rows, f, parents, key)
    ensures Resolved(RemoveRow(rows, id), f, parents, key)
  {
    var rest := RemoveRow(rows, id);
    forall i | 0 <= i < |rest| ensures rest[i] in rows { }
    SomeResolved(rows, rest, f, parents, key);
  }

  lemma {:induction false} SafeKeeps(d: Data, m: Mutation, child: Table, f: Field, parent: Table, key: Field)
    requires Resolved(Rows(d, child), f, Rows(d, parent), key) && SafeFor(d, m, child, f, parent, key)
             && child != parent
    requires f != Id && f != CreatedAt && f != UpdatedAt && key != UpdatedAt
    ensures Resolved(Rows(ApplyData(d, m), child), f, Rows(ApplyData(d, m), parent), key)
  {
    ApplyRows(d, m, child);
    ApplyRows(d, m, parent);
    if m.t == child {
      ChildRows(d, m, f, Rows(d, parent), key);
    } else if m.t == parent {
      ParentKeys(d, m, key);
      ResolvedStays(Rows(d, child), f, Rows(d, parent), NewRows(d, m), key);
    }
  }

  lemma {:induction false} RefSafeKeeps(d: Data, m: Mutation)
    requires RefsOk(d) && RefSafe(d, m)
    ensures RefsOk(ApplyData(d, m))
  {
    MutationKeepsIds(d, m);
    SafeKeeps(d, m, OrderItems, OrderNo, Orders, OrderNo);
    SafeKeeps(d, m, ProductSkus, ProductId, Products, Id);
    SafeKeeps(d, m, WelfareCodeItems, WelfareCodeId, WelfareCodes, Id);
    SafeKeeps(d, m, Properties, CategoryId, Categories, Id);
  }

  /** Each change is safe where it is made. */
  predicate AllRefSafe(d: Data, ops: seq<Mutation>) {
    ops == [] || (AllRefSafe(d, ops[..|ops| - 1]) && RefSafe(ApplyAll(d, ops[..|ops| - 1]), ops[|ops| - 1]))
  }

  lemma {:induction false} AllRefSafeKeep(d: Data, ops: seq<Mutation>)
    requires RefsOk(d) && AllRefSafe(d, ops)
    ensures RefsOk(ApplyAll(d, ops))
  {
    if ops != [] {
      AllRefSafeKeep(d, ops[..|ops| - 1]);
      RefSafeKeeps(ApplyAll(d, ops[..|ops| - 1]), ops[|ops| - 1]);
    }
  }

  /** A delete, or any handler whose changes are safe. */
  ghost predicate RefHandler(a: Action, d: Data) {
    a.Handle? ==> (exists c: DeleteCall :: a.body == DeleteBody(c)) || AllRefSafe(d, a.body(d).ops)
  }

  lemma {:induction false} RefHandlerKeeps(a: Action, d: Data)
    requires RefsOk(d) && a.Handle? && RefHandler(a, d)
    ensures RefsOk(ApplyAll(d, a.body(d).ops))
  {
    if c: DeleteCall :| a.body == DeleteBody(c) {
      DeletesLeaveNothingDangling(d, c);
    } else {
      AllRefSafeKeep(d, a.body(d).ops);
    }
  }

  /** A crash cannot separate the two halves of a cascade: nothing dangles in memory, on disk, in a snapshot
      or after a recovery, in any run of deletes and of handlers that create, edit, list and remove rows so
      that what they add resolves, no key of a parent changes and no parent goes. */
  lemma {:induction false} NothingDanglesOverRuns(m: Machine, es: seq<Event>)
    requires Inv(m) && Everywhere(d => RefsOk(d), m)
    requires forall i :: 0 <= i < |es| ==> RefHandler(es[i].a, Memory(Run(m, es[..i]))) && !es[i].a.ClearAll?
    ensures Everywhere(d => RefsOk(d), Run(m, es))
  {
    var P := d => RefsOk(d);
    forall i | 0 <= i < |es| ensures KeepsHere(P, Run(m, es[..i]), es[i].a) {
      var a, d := es[i].a, Memory(Run(m, es[..i]));
      assert RefHandler(a, d);
      if a.Handle? && P(d) { RefHandlerKeeps(a, d); }
    }
    assert Everywhere(P, m);
    InvariantAlongRun(P, m, es);
  }
}
