/** The handlers behind all mounted routes that write to the store or sort it in place, and the invariants of
    the accounts, the welfare codes, the order log and the references, together, over runs of them. */
module Server {
  import opened Values
  import opened Seqs
  import opened Tables
  import opened StoreSpec
  import opened Machines
  import A = Accounts
  import C = Catalog
  import L = Listing
  import W = Welfare
  import O = OrderLog
  import R = References
  import P = Repositories

  datatype ServerCall =
    | SignIn(p: A.Login)
    | OldSignIn(p: A.Login)
    | OnCodes(codes: W.CodeCall)
    | OnOrders(orders: O.OrderCall)
    | UnloggedCancel(no: string, user: int, now: string)
    | CreateProperty(data: Row, now: string)
    | ImportProperties(rows: seq<Row>, now: string)
    | EditProperty(id: int, updates: Row, now: string)
    | CreateProduct(data: Row, now: string)
    | EditProduct(id: int, updates: Row, now: string)
    | CreateCategory(data: Row, now: string)
    | EditCategory(id: int, data: Row, now: string)
    | Delete(c: R.DeleteCall)
    | ListTable(t: Table, leq: (Row, Row) -> bool, q: L.Query)

  const PRODUCT_DEFAULTS: seq<(Field, Value)> :=
    [(Status, Num(0)), (IsFeatured, Num(0)), (SortOrder, Num(0)), (Stock, Num(0)), (Other("sales"), Num(0)),
     (Other("price_cent"), Num(0))]

  /** The record products.create inserts. */
  function NewProduct(data: Row): Row {
    Defaulted(data, PRODUCT_DEFAULTS)
  }

  /** What the category routes take from a body; a falsy icon is `icon`. */
  function CategoryFields(data: Row, icon: Value): Row {
    map[Name := Get(data, Name), Other("icon") := Or(Get(data, Other("icon")), icon),
        SortOrder := Or(Get(data, SortOrder), Num(0)), Status := Coalesce(Get(data, Status), Num(1))]
  }

  /** The edit routes look the row up first. */
  function EditOps(d: Data, t: Table, id: int, updates: Row, now: string): seq<Mutation> {
    if Find(ById(id), Rows(d, t)).None? then [] else [Update(t, id, updates, now)]
  }

  /** The property route wants a name. */
  function CreateOps(data: Row, now: string): seq<Mutation> {
    if Truthy(Get(data, CommunityName)) then [Insert(Properties, P.NewProperty(data), now)] else []
  }

  function CallOps(d: Data, c: ServerCall): seq<Mutation> {
    match c
    case SignIn(p) => A.LoginEffects(d, p).ops
    case OldSignIn(p) => A.OldLoginOps(d, p)
    case OnCodes(c) => W.CodeOps(d, c)
    case OnOrders(c) => O.OrderOps(d, c)
    case UnloggedCancel(no, user, now) => O.UnloggedCancelOps(d, no, user, now)
    case CreateProperty(data, now) => CreateOps(data, now)
    case ImportProperties(rows, now) => P.Inserts(Properties, P.Prepared(rows), now)
    case EditProperty(id, updates, now) => EditOps(d, Properties, id, updates, now)
    case CreateProduct(data, now) => [Insert(Products, NewProduct(data), now)]
    case EditProduct(id, updates, now) => EditOps(d, Products, id, updates, now)
    case CreateCategory(data, now) =>
      if Truthy(Get(data, Name)) then [Insert(Categories, CategoryFields(data, Null), now)] else []
    case EditCategory(id, data, now) => EditOps(d, Categories, id, CategoryFields(data, Undefined), now)
    case Delete(c) => R.DeleteOps(d, c)
    case ListTable(t, leq, q) => C.CallOps(leq, t, L.List(q))
  }

  /** Logins that create something and imports of at least one row end with a flush. */
  function BodyOf(c: ServerCall): Body {
    d => Effects(CallOps(d, c), (c.SignIn? && A.LoginEffects(d, c.p).flush) || (c.ImportProperties? && c.rows != []))
  }

  /** The tables that have a list. */
  predicate Routed(c: ServerCall) {
    c.ListTable? ==> c.t != UserIdentities && c.t != OrderChangeLogs
  }

  predicate KnownCategory(d: Data, data: Row) {
    R.Points(data, CategoryId, Rows(d, Categories), Id)
  }

  predicate AllKnown(d: Data, rows: seq<Row>) {
    forall i :: 0 <= i < |rows| ==> KnownCategory(d, rows[i])
  }

  /** What keeps all four invariants: an order gets a number it may have, codes start and stay within their
      limit, stored categories exist, an id that is edited is free and nothing points at the old one, and the
      unlogged cancel finds nothing to cancel. */
  predicate Fair(d: Data, c: ServerCall) {
    match c
    case OnCodes(c) => W.FairCall(d, c) && (c.Edit? ==> R.EditResolves(d, WelfareCodes, c.id, c.updates, c.now))
    case OnOrders(c) => c.Place? ==> O.MayPlace(d, c.no)
    case UnloggedCancel(no, user, _) => !O.MayCancel(d, no, user)
    case CreateProperty(data, _) => Truthy(Get(data, CommunityName)) ==> KnownCategory(d, data)
    case ImportProperties(rows, _) => AllKnown(d, rows)
    case EditProperty(id, updates, now) => R.EditResolves(d, Properties, id, updates, now)
    case EditProduct(id, updates, now) => R.EditResolves(d, Products, id, updates, now)
    case _ => true
  }

  ghost predicate AllOk(d: Data) {
    A.IdentityOk(d) && W.CodesOk(d) && O.LogsOk(d) && R.RefsOk(d)
  }

  /** A change that none of the four invariants minds. */
  predicate Neutral(d: Data, m: Mutation) {
    A.Benign(m) && W.CodeNeutral(m) && O.LogNeutral(m) && R.RefSafe(d, m)
  }

  predicate AllNeutral(d: Data, ops: seq<Mutation>) {
    ops == [] || (AllNeutral(d, ops[..|ops| - 1]) && Neutral(ApplyAll(d, ops[..|ops| - 1]), ops[|ops| - 1]))
  }

  predicate Calm(m: Mutation) {
    A.Benign(m) && W.CodeNeutral(m) && O.LogNeutral(m)
  }

  lemma {:induction false} NeutralCalm(d: Data, ops: seq<Mutation>, i: nat)
    requires AllNeutral(d, ops) && i < |ops|
    ensures Calm(ops[i])
  {
    if i < |ops| - 1 { NeutralCalm(d, ops[..|ops| - 1], i); }
  }

  lemma {:induction false} NeutralSafe(d: Data, ops: seq<Mutation>)
    requires AllNeutral(d, ops)
    ensures R.AllRefSafe(d, ops)
  {
    if ops != [] { NeutralSafe(d, ops[..|ops| - 1]); }
  }

  lemma {:induction false} CalmKeeps(d: Data, ops: seq<Mutation>)
    requires forall i :: 0 <= i < |ops| ==> Calm(ops[i])
    ensures A.IdentityOk(d) ==> A.IdentityOk(ApplyAll(d, ops))
    ensures W.CodesOk(d) ==> W.CodesOk(ApplyAll(d, ops))
    ensures O.LogsOk(d) ==> O.LogsOk(ApplyAll(d, ops))
  {
    forall i | 0 <= i < |ops| ensures A.Benign(ops[i]) && W.CodeNeutral(ops[i]) && O.LogNeutral(ops[i]) {
      assert Calm(ops[i]);
    }
    if A.IdentityOk(d) { A.BenignAllKeep(d, ops); }
    if W.CodesOk(d) { W.NeutralKeepsCodes(d, ops); }
    if O.LogsOk(d) { O.NeutralKeepsLogs(d, ops); }
  }

  lemma {:induction false} NeutralKeeps(d: Data, ops: seq<Mutation>)
    requires AllOk(d) && AllNeutral(d, ops)
    ensures AllOk(ApplyAll(d, ops))
  {
    forall i | 0 <= i < |ops| ensures Calm(ops[i]) { NeutralCalm(d, ops, i); }
    CalmKeeps(d, ops);
    NeutralSafe(d, ops);
    R.AllRefSafeKeep(d, ops);
  }

  /** Changes that are safe for the references whatever the data. */
  lemma {:induction false} RefSafeAll(d: Data, ops: seq<Mutation>)
    requires forall i, e :: 0 <= i < |ops| ==> R.RefSafe(e, ops[i])
    ensures R.AllRefSafe(d, ops)
  {
    if ops != [] { RefSafeAll(d, ops[..|ops| - 1]); }
  }

  // ---- Signing in ----

  predicate OnAccounts(m: Mutation) {
    (m.t == Users || m.t == UserIdentities) && IdSafe(m) && (m.Insert? || m.Update?)
  }

  predicate AllOnAccounts(ops: seq<Mutation>) {
    forall i :: 0 <= i < |ops| ==> OnAccounts(ops[i])
  }

  lemma {:induction false} TouchOn(d: Data, p: A.Login)
    ensures AllOnAccounts(A.TouchOps(d, p))
  {
  }

  lemma {:induction false} MakeOn(d: Data, p: A.Login)
    ensures AllOnAccounts(A.UserOps(d, p))
  {
  }

  lemma {:induction false} LinkOn(d: Data, p: A.Login, uid: int)
    ensures OnAccounts(A.LinkOp(d, p, uid))
  {
  }

  lemma {:induction false} JoinOn(touch: seq<Mutation>, make: seq<Mutation>, link: Mutation)
    requires AllOnAccounts(touch) && AllOnAccounts(make) && OnAccounts(link)
    ensures AllOnAccounts(touch + make + [link])
  {
  }

  lemma {:induction false} LoginOn(d: Data, p: A.Login)
    ensures AllOnAccounts(A.LoginEffects(d, p).ops)
  {
    var touch := A.TouchOps(d, p);
    TouchOn(d, p);
    if !A.Known(d, p) {
      var d1 := ApplyAll(d, touch);
      var make := A.UserOps(d1, p);
      var link := A.LinkOp(ApplyAll(d1, make), p, A.ChosenUser(d1, p));
      MakeOn(d1, p);
      LinkOn(ApplyAll(d1, make), p, A.ChosenUser(d1, p));
      JoinOn(touch, make, link);
      assert A.LoginEffects(d, p).ops == touch + make + [link];
    }
  }

  lemma {:induction false} OnAccountsCalm(m: Mutation, e: Data)
    requires OnAccounts(m)
    ensures W.CodeNeutral(m) && O.LogNeutral(m) && R.RefSafe(e, m)
  {
  }

  lemma {:induction false} SignInKeeps(d: Data, p: A.Login)
    requires AllOk(d)
    ensures AllOk(ApplyAll(d, A.LoginEffects(d, p).ops))
  {
    var ops := A.LoginEffects(d, p).ops;
    A.LoginKeeps(d, p, p.provider, p.openid);
    LoginOn(d, p);
    OnAccountsKeep(d, ops);
  }

  lemma {:induction false} OnAccountsKeep(d: Data, ops: seq<Mutation>)
    requires W.CodesOk(d) && O.LogsOk(d) && R.RefsOk(d) && AllOnAccounts(ops)
    ensures W.CodesOk(ApplyAll(d, ops)) && O.LogsOk(ApplyAll(d, ops)) && R.RefsOk(ApplyAll(d, ops))
  {
    forall i, e | 0 <= i < |ops| ensures W.CodeNeutral(ops[i]) && O.LogNeutral(ops[i]) && R.RefSafe(e, ops[i]) {
      OnAccountsCalm(ops[i], e);
    }
    W.NeutralKeepsCodes(d, ops);
    O.NeutralKeepsLogs(d, ops);
    RefSafeAll(d, ops);
    R.AllRefSafeKeep(d, ops);
  }

  /** The older login. */
  lemma {:induction false} OldOps(d: Data, p: A.Login)
    ensures AllOnAccounts(A.OldLoginOps(d, p))
    ensures forall i :: 0 <= i < |A.OldLoginOps(d, p)| ==> A.Benign(A.OldLoginOps(d, p)[i])
  {
  }

  lemma {:induction false} OldSignInKeeps(d: Data, p: A.Login)
    requires AllOk(d)
    ensures AllOk(ApplyAll(d, A.OldLoginOps(d, p)))
  {
    OldOps(d, p);
    A.BenignAllKeep(d, A.OldLoginOps(d, p));
    OnAccountsKeep(d, A.OldLoginOps(d, p));
  }

  // ---- Codes ----

  lemma {:induction false} CodeOpCalm(d: Data, c: W.CodeCall, i: nat)
    requires i < |W.CodeOps(d, c)|
    ensures A.Benign(W.CodeOps(d, c)[i]) && O.LogNeutral(W.CodeOps(d, c)[i])
  {
  }

  lemma {:induction false} CodeOpSafe(d: Data, c: W.CodeCall, i: nat, e: Data)
    requires i < |W.CodeOps(d, c)| && !c.Drop? && !c.Edit?
    ensures R.RefSafe(e, W.CodeOps(d, c)[i])
  {
  }

  lemma {:induction false} CodesKeepIff(d: Data, c: W.CodeCall)
    requires AllOk(d)
    ensures AllOk(ApplyAll(d, W.CodeOps(d, c))) <==> Fair(d, OnCodes(c))
  {
    var ops := W.CodeOps(d, c);
    W.CallKeepsIff(d, c);
    forall i | 0 <= i < |ops| ensures A.Benign(ops[i]) && O.LogNeutral(ops[i]) { CodeOpCalm(d, c, i); }
    A.BenignAllKeep(d, ops);
    O.NeutralKeepsLogs(d, ops);
    CodesRefsIff(d, c);
  }

  lemma {:induction false} CodesRefsIff(d: Data, c: W.CodeCall)
    requires R.RefsOk(d)
    ensures R.RefsOk(ApplyAll(d, W.CodeOps(d, c)))
            <==> (c.Edit? ==> R.EditResolves(d, WelfareCodes, c.id, c.updates, c.now))
  {
    var ops := W.CodeOps(d, c);
    if c.Drop? {
      R.DeletesLeaveNothingDangling(d, R.DeleteCode(c.id));
    } else if c.Edit? {
      EditRefsIff(d, WelfareCodes, c.id, c.updates, c.now);
    } else {
      forall i, e | 0 <= i < |ops| ensures R.RefSafe(e, ops[i]) { CodeOpSafe(d, c, i, e); }
      RefSafeAll(d, ops);
      R.AllRefSafeKeep(d, ops);
    }
  }

  // ---- Raw creates and edits ----

  lemma {:induction false} EditRefsIff(d: Data, t: Table, id: int, updates: Row, now: string)
    requires R.RefsOk(d) && (t == Properties || t == Products || t == WelfareCodes)
    ensures R.RefsOk(ApplyAll(d, EditOps(d, t, id, updates, now))) <==> R.EditResolves(d, t, id, updates, now)
  {
    if Find(ById(id), Rows(d, t)).None? {
      assert ApplyAll(d, []) == d;
    } else {
      var m := Update(t, id, updates, now);
      ApplyOne(d, m);
      R.RawEditIff(d, t, id, updates, now, ApplyData(d, m));
    }
  }

  /** Calm changes leave the references to decide. */
  lemma {:induction false} CalmKeepIff(d: Data, ops: seq<Mutation>)
    requires AllOk(d) && forall i :: 0 <= i < |ops| ==> Calm(ops[i])
    ensures AllOk(ApplyAll(d, ops)) <==> R.RefsOk(ApplyAll(d, ops))
  {
    CalmKeeps(d, ops);
  }

  lemma {:induction false} EditsKeepIff(d: Data, t: Table, id: int, updates: Row, now: string, ops: seq<Mutation>)
    requires AllOk(d) && (t == Properties || t == Products) && ops == EditOps(d, t, id, updates, now)
    ensures AllOk(ApplyAll(d, ops)) <==> R.EditResolves(d, t, id, updates, now)
  {
    CalmKeepIff(d, ops);
    EditRefsIff(d, t, id, updates, now);
  }

  lemma {:induction false} PropertyCategory(data: Row)
    ensures Get(P.NewProperty(data), CategoryId) == Get(data, CategoryId)
  {
  }

  lemma {:induction false} InsertKeepsIff(d: Data, row: Row, now: string)
    requires AllOk(d)
    ensures AllOk(ApplyAll(d, [Insert(Properties, row, now)])) <==> KnownCategory(d, row)
  {
    CalmKeepIff(d, [Insert(Properties, row, now)]);
    ApplyOne(d, Insert(Properties, row, now));
    R.RawPropertyIff(d, row, now);
  }

  lemma {:induction false} CreateKeepsIff(d: Data, data: Row, now: string, ops: seq<Mutation>)
    requires AllOk(d) && ops == CreateOps(data, now)
    ensures AllOk(ApplyAll(d, ops)) <==> (Truthy(Get(data, CommunityName)) ==> KnownCategory(d, data))
  {
    if Truthy(Get(data, CommunityName)) {
      PropertyCategory(data);
      InsertKeepsIff(d, P.NewProperty(data), now);
    } else {
      assert ApplyAll(d, []) == d;
    }
  }

  lemma {:induction false} KnownPush(d: Data, rows: seq<Row>, row: Row)
    ensures AllKnown(d, rows + [row]) <==> AllKnown(d, rows) && KnownCategory(d, row)
  {
    var all := rows + [row];
    assert all[|rows|] == row;
    if AllKnown(d, all) {
      forall i | 0 <= i < |rows| ensures KnownCategory(d, rows[i]) {
        assert all[i] == rows[i] && KnownCategory(d, all[i]);
      }
    }
  }

  /** Ids are in order, and only the properties have changed. */
  ghost predicate PropertiesMoved(d: Data, e: Data) {
    DataOk(e) && forall t: Table :: t != Properties ==> Rows(e, t) == Rows(d, t)
  }

  /** Rows added to the properties resolve exactly when each of them does. */
  lemma {:induction false} ImportedIff(d: Data, rows: seq<Row>, now: string, e: Data)
    requires R.RefsOk(d) && e == ApplyAll(d, P.Inserts(Properties, rows, now))
    ensures PropertiesMoved(d, e) && (R.RefsOk(e) <==> AllKnown(d, rows))
  {
    if rows == [] {
      assert ApplyAll(d, []) == d;
    } else {
      var n := |rows| - 1;
      var before := ApplyAll(d, P.Inserts(Properties, rows[..n], now));
      ImportedIff(d, rows[..n], now, before);
      P.InsertsNext(d, Properties, rows, now);
      OneMoreProperty(d, before, rows[n], now, e);
      KnownLast(d, rows);
    }
  }

  lemma {:induction false} KnownLast(d: Data, rows: seq<Row>)
    requires rows != []
    ensures AllKnown(d, rows) <==> AllKnown(d, rows[..|rows| - 1]) && KnownCategory(d, rows[|rows| - 1])
  {
    assert rows[..|rows| - 1] + [rows[|rows| - 1]] == rows;
    KnownPush(d, rows[..|rows| - 1], rows[|rows| - 1]);
  }

  lemma {:induction false} OneMoreProperty(d: Data, before: Data, row: Row, now: string, e: Data)
    requires R.RefsOk(d) && PropertiesMoved(d, before) && e == ApplyData(before, Insert(Properties, row, now))
    ensures PropertiesMoved(d, e) && (R.RefsOk(e) <==> R.RefsOk(before) && KnownCategory(d, row))
  {
    var m := Insert(Properties, row, now);
    MutationKeepsIds(before, m);
    forall t: Table ensures t != Properties ==> Rows(e, t) == Rows(d, t) { ApplyRows(before, m, t); }
    ApplyRows(before, m, Properties);
    R.PushedResolvedIff(Rows(before, Properties), row, Counter(before, Properties), now, CategoryId,
                        Rows(d, Categories), Id);
  }

  lemma {:induction false} PreparedKnown(d: Data, rows: seq<Row>)
    ensures AllKnown(d, P.Prepared(rows)) <==> AllKnown(d, rows)
  {
    if rows != [] {
      var init, last := rows[..|rows| - 1], rows[|rows| - 1];
      assert init + [last] == rows;
      PreparedKnown(d, init);
      PropertyCategory(last);
      KnownPush(d, init, last);
      KnownPush(d, P.Prepared(init), P.NewProperty(last));
    }
  }

  lemma {:induction false} InsertsCalm(rows: seq<Row>, now: string, i: nat)
    requires i < |P.Inserts(Properties, rows, now)|
    ensures Calm(P.Inserts(Properties, rows, now)[i])
  {
    if i < |P.Inserts(Properties, rows[..|rows| - 1], now)| { InsertsCalm(rows[..|rows| - 1], now, i); }
  }

  lemma {:induction false} InsertsKeepIff(d: Data, rows: seq<Row>, now: string)
    requires AllOk(d)
    ensures AllOk(ApplyAll(d, P.Inserts(Properties, rows, now))) <==> AllKnown(d, rows)
  {
    var ops := P.Inserts(Properties, rows, now);
    forall i | 0 <= i < |ops| ensures Calm(ops[i]) { InsertsCalm(rows, now, i); }
    CalmKeepIff(d, ops);
    ImportedIff(d, rows, now, ApplyAll(d, ops));
  }

  lemma {:induction false} ImportKeepsIff(d: Data, rows: seq<Row>, now: string, ops: seq<Mutation>)
    requires AllOk(d) && ops == P.Inserts(Properties, P.Prepared(rows), now)
    ensures AllOk(ApplyAll(d, ops)) <==> AllKnown(d, rows)
  {
    InsertsKeepIff(d, P.Prepared(rows), now);
    PreparedKnown(d, rows);
  }

  /** Creating a product and the category routes. */
  lemma {:induction false} SafeKeep(d: Data, ops: seq<Mutation>)
    requires AllOk(d) && forall i :: 0 <= i < |ops| ==> Calm(ops[i])
    requires forall i, e :: 0 <= i < |ops| ==> R.RefSafe(e, ops[i])
    ensures AllOk(ApplyAll(d, ops))
  {
    CalmKeepIff(d, ops);
    RefSafeAll(d, ops);
    R.AllRefSafeKeep(d, ops);
  }

  lemma {:induction false} OtherOps(d: Data, c: ServerCall, i: nat, e: Data)
    requires c.CreateProduct? || c.CreateCategory? || c.EditCategory?
    requires i < |CallOps(d, c)|
    ensures Calm(CallOps(d, c)[i]) && R.RefSafe(e, CallOps(d, c)[i])
  {
  }

  lemma {:induction false} OthersKeep(d: Data, c: ServerCall)
    requires AllOk(d) && (c.CreateProduct? || c.CreateCategory? || c.EditCategory?)
    ensures AllOk(ApplyAll(d, CallOps(d, c)))
  {
    var ops := CallOps(d, c);
    forall i | 0 <= i < |ops| ensures Calm(ops[i]) { OtherOps(d, c, i, d); }
    forall i, e | 0 <= i < |ops| ensures R.RefSafe(e, ops[i]) { OtherOps(d, c, i, e); }
    SafeKeep(d, ops);
  }

  // ---- Orders ----

  lemma {:induction false} OrderOpCalm(d: Data, c: O.OrderCall, i: nat)
    requires i < |O.OrderOps(d, c)|
    ensures A.Benign(O.OrderOps(d, c)[i]) && W.CodeNeutral(O.OrderOps(d, c)[i])
  {
  }

  lemma {:induction false} OrdersKeepIff(d: Data, c: O.OrderCall, ops: seq<Mutation>)
    requires AllOk(d) && ops == O.OrderOps(d, c)
    ensures AllOk(ApplyAll(d, ops)) <==> (c.Place? ==> O.MayPlace(d, c.no))
  {
    O.CallKeepsLogsIff(d, c);
    forall i | 0 <= i < |ops| ensures A.Benign(ops[i]) && W.CodeNeutral(ops[i]) { OrderOpCalm(d, c, i); }
    A.BenignAllKeep(d, ops);
    W.NeutralKeepsCodes(d, ops);
    OrdersRefs(d, c);
  }

  lemma {:induction false} CancelKeepsIff(d: Data, no: string, user: int, now: string)
    requires AllOk(d)
    ensures AllOk(ApplyAll(d, O.UnloggedCancelOps(d, no, user, now))) <==> !O.MayCancel(d, no, user)
  {
    O.UnloggedKeepsLogsIff(d, no, user, now);
    if !O.MayCancel(d, no, user) { assert ApplyAll(d, []) == d; }
  }

  lemma {:induction false} ChangeSafe(order: Row, no: string, field: string, updates: Row, before: Value, after: Value,
                                      operator: string, now: string, e: Data)
    requires Id !in updates && OrderNo !in updates
    ensures
      var ops := O.ChangeOps(order, no, field, updates, before, after, operator, now);
      R.RefSafe(e, ops[0]) && R.RefSafe(e, ops[1])
  {
  }

  lemma {:induction false} OrdersRefs(d: Data, c: O.OrderCall)
    requires R.RefsOk(d)
    ensures R.RefsOk(ApplyAll(d, O.OrderOps(d, c)))
  {
    var ops := O.OrderOps(d, c);
    if c.Drop? {
      R.DeletesLeaveNothingDangling(d, R.DeleteOrder(c.no));
    } else {
      forall i, e | 0 <= i < |ops| ensures R.RefSafe(e, ops[i]) { OrderOpSafe(d, c, i, e); }
      RefSafeAll(d, ops);
      R.AllRefSafeKeep(d, ops);
    }
  }

  lemma {:induction false} OrderOpSafe(d: Data, c: O.OrderCall, i: nat, e: Data)
    requires !c.Drop? && i < |O.OrderOps(d, c)|
    ensures R.RefSafe(e, O.OrderOps(d, c)[i])
  {
    if c.Cancel? {
      var order := O.FindOrder(d, c.no).value;
      ChangeSafe(order, c.no, "status", map[Status := O.CANCELLED], Get(order, Status), O.CANCELLED, "user", c.now, e);
    } else if c.SetStatus? {
      var order := O.FindOrder(d, c.no).value;
      ChangeSafe(order, c.no, "status", map[Status := c.status], Get(order, Status), c.status, "admin", c.now, e);
    } else if c.SetRemark? {
      var order := O.FindOrder(d, c.no).value;
      ChangeSafe(order, c.no, "remark", map[Remark := c.remark], Or(Get(order, Remark), Str("")),
                 Or(c.remark, Str("")), "admin", c.now, e);
    }
  }

  // ---- Deletes and lists ----

  lemma {:induction false} DeleteOpCalm(d: Data, c: R.DeleteCall, i: nat)
    requires i < |R.DeleteOps(d, c)|
    ensures Calm(R.DeleteOps(d, c)[i])
  {
  }

  lemma {:induction false} DeleteKeeps(d: Data, c: R.DeleteCall, ops: seq<Mutation>)
    requires AllOk(d) && ops == R.DeleteOps(d, c)
    ensures AllOk(ApplyAll(d, ops))
  {
    R.DeletesLeaveNothingDangling(d, c);
    forall i | 0 <= i < |ops| ensures Calm(ops[i]) { DeleteOpCalm(d, c, i); }
    CalmKeeps(d, ops);
  }

  lemma {:induction false} ListKeeps(d: Data, t: Table, leq: (Row, Row) -> bool, q: L.Query, ops: seq<Mutation>)
    requires AllOk(d) && t != UserIdentities && t != OrderChangeLogs && ops == C.CallOps(leq, t, L.List(q))
    ensures AllOk(ApplyAll(d, ops))
  {
    assert AllNeutral(d, []);
    NeutralKeeps(d, ops);
  }

  // ---- Every handler ----

  lemma {:induction false} UserCallKeepsIff(d: Data, c: ServerCall)
    requires AllOk(d) && (c.SignIn? || c.OldSignIn? || c.OnCodes? || c.OnOrders? || c.UnloggedCancel?)
    ensures AllOk(ApplyAll(d, CallOps(d, c))) <==> Fair(d, c)
  {
    match c
    case SignIn(p) => SignInKeeps(d, p);
    case OldSignIn(p) => OldSignInKeeps(d, p);
    case OnCodes(codes) => CodesKeepIff(d, codes);
    case OnOrders(orders) => OrdersKeepIff(d, orders, O.OrderOps(d, orders));
    case UnloggedCancel(no, user, now) => CancelKeepsIff(d, no, user, now);
  }

  lemma {:induction false} PropertyCallKeepsIff(d: Data, c: ServerCall, ops: seq<Mutation>)
    requires AllOk(d) && (c.CreateProperty? || c.ImportProperties? || c.EditProperty?) && ops == CallOps(d, c)
    ensures AllOk(ApplyAll(d, ops)) <==> Fair(d, c)
  {
    match c
    case CreateProperty(data, now) => CreateKeepsIff(d, data, now, ops);
    case ImportProperties(rows, now) => ImportKeepsIff(d, rows, now, ops);
    case EditProperty(id, updates, now) => EditsKeepIff(d, Properties, id, updates, now, ops);
  }

  lemma {:induction false} ShopCallKeepsIff(d: Data, c: ServerCall, ops: seq<Mutation>)
    requires AllOk(d) && Routed(c) && (c.EditProduct? || c.Delete? || c.ListTable?) && ops == CallOps(d, c)
    ensures AllOk(ApplyAll(d, ops)) <==> Fair(d, c)
  {
    match c
    case EditProduct(id, updates, now) => EditsKeepIff(d, Products, id, updates, now, ops);
    case Delete(c) => DeleteKeeps(d, c, ops);
    case ListTable(t, leq, q) => ListKeeps(d, t, leq, q, ops);
  }

  /** Every handler of the mounted routes, started where all four invariants hold, leaves all four exactly when
      it is fair. */
  lemma {:induction false} CallKeepsAllIff(d: Data, c: ServerCall)
    requires AllOk(d) && Routed(c)
    ensures AllOk(ApplyAll(d, BodyOf(c)(d).ops)) <==> Fair(d, c)
  {
    if c.SignIn? || c.OldSignIn? || c.OnCodes? || c.OnOrders? || c.UnloggedCancel? {
      UserCallKeepsIff(d, c);
    } else if c.CreateProperty? || c.ImportProperties? || c.EditProperty? {
      PropertyCallKeepsIff(d, c, CallOps(d, c));
    } else if c.EditProduct? || c.Delete? || c.ListTable? {
      ShopCallKeepsIff(d, c, CallOps(d, c));
    } else {
      OthersKeep(d, c);
    }
  }

  ghost predicate Served(a: Action, d: Data) {
    a.Handle? ==> (exists c :: a.body == BodyOf(c) && Routed(c)) || AllNeutral(d, a.body(d).ops)
  }

  /** One of the handlers, and fair, or any other whose changes are neutral. */
  ghost predicate FairHandler(a: Action, d: Data) {
    a.Handle? ==> (exists c :: a.body == BodyOf(c) && Routed(c) && Fair(d, c)) || AllNeutral(d, a.body(d).ops)
  }

  lemma {:induction false} HandlerKeepsIff(a: Action, d: Data)
    requires AllOk(d) && a.Handle? && Served(a, d)
    ensures AllOk(ApplyAll(d, a.body(d).ops)) <==> FairHandler(a, d)
  {
    if AllNeutral(d, a.body(d).ops) {
      NeutralKeeps(d, a.body(d).ops);
    } else {
      forall c | a.body == BodyOf(c) && Routed(c) ensures AllOk(ApplyAll(d, a.body(d).ops)) <==> Fair(d, c) {
        CallKeepsAllIff(d, c);
      }
    }
  }

  /** In every run of fair handlers in any order, with timers, transactions and crashes: one user per account, no
      code over its limit, every order's log a chain, and none of the four references dangling, in memory, on
      disk and in every snapshot. */
  lemma {:induction false} ServerOverRuns(m: Machine, es: seq<Event>)
    requires Inv(m) && Everywhere(d => AllOk(d), m)
    requires forall i :: 0 <= i < |es| ==> FairHandler(es[i].a, Memory(Run(m, es[..i]))) && !es[i].a.ClearAll?
    ensures Everywhere(d => AllOk(d), Run(m, es))
  {
    var P := d => AllOk(d);
    forall i | 0 <= i < |es| ensures KeepsHere(P, Run(m, es[..i]), es[i].a) {
      var a, d := es[i].a, Memory(Run(m, es[..i]));
      assert FairHandler(a, d);
      if a.Handle? && P(d) { HandlerKeepsIff(a, d); }
    }
    assert Everywhere(P, m);
    InvariantAlongRun(P, m, es);
  }

  lemma {:induction false} FairBefore(m: Machine, es: seq<Event>, n: nat)
    requires forall i :: 0 <= i < |es| ==> FairHandler(es[i].a, Memory(Run(m, es[..i])))
    requires n <= |es|
    ensures forall i :: 0 <= i < n ==> FairHandler(es[..n][i].a, Memory(Run(m, es[..n][..i])))
  {
    forall i | 0 <= i < n ensures FairHandler(es[..n][i].a, Memory(Run(m, es[..n][..i]))) {
      assert es[..n][..i] == es[..i];
      assert FairHandler(es[i].a, Memory(Run(m, es[..i])));
    }
  }

  /** In every run of the server whose handlers are not cut short, all four invariants hold after every event if
      and only if every handler is fair where it starts. */
  lemma {:induction false} AllOkIffFair(m: Machine, es: seq<Event>)
    requires Inv(m) && Everywhere(d => AllOk(d), m)
    requires forall i :: 0 <= i < |es| ==> Served(es[i].a, Memory(Run(m, es[..i]))) && !es[i].a.ClearAll?
    requires forall i :: 0 <= i < |es| ==> (es[i].CrashIn? ==> !es[i].a.Handle?)
    ensures (forall n :: 0 <= n <= |es| ==> Everywhere(d => AllOk(d), Run(m, es[..n])))
            <==> forall i :: 0 <= i < |es| ==> FairHandler(es[i].a, Memory(Run(m, es[..i])))
  {
    var P := d => AllOk(d);
    if forall i :: 0 <= i < |es| ==> FairHandler(es[i].a, Memory(Run(m, es[..i]))) {
      forall n | 0 <= n <= |es| ensures Everywhere(P, Run(m, es[..n])) {
        FairBefore(m, es, n);
        ServerOverRuns(m, es[..n]);
      }
    }
    if forall n :: 0 <= n <= |es| ==> Everywhere(P, Run(m, es[..n])) {
      forall i | 0 <= i < |es| ensures FairHandler(es[i].a, Memory(Run(m, es[..i]))) {
        Prefix(es, i);
        assert Everywhere(P, Run(m, es[..i])) && Everywhere(P, Run(m, es[..i + 1]));
        assert Served(es[i].a, Memory(Run(m, es[..i])));
        FairStep(P, m, es[..i], es[i]);
      }
    }
  }

  lemma {:induction false} FairStep(P: Data -> bool, m: Machine, es: seq<Event>, e: Event)
    requires Inv(m) && (forall d :: P(d) <==> AllOk(d)) && Served(e.a, Memory(Run(m, es)))
    requires e.CrashIn? ==> !e.a.Handle?
    requires P(Memory(Run(m, es))) && P(Memory(Next(Run(m, es), e)))
    ensures FairHandler(e.a, Memory(Run(m, es)))
  {
    if e.a.Handle? {
      RunInv(m, es);
      HandleFacts(Run(m, es), e.a.body);
      HandlerKeepsIff(e.a, Memory(Run(m, es)));
    }
  }

  lemma {:induction false} EmptyIsOk()
    ensures AllOk(EMPTY_DATA)
  {
    EmptyComplete();
  }

  /** So they hold in every run of fair handlers of a server that starts without a data file. */
  lemma {:induction false} ServerFromNoFile(tmp: Option<File>, es: seq<Event>)
    requires
      var m := Machine(Boot(Absent), tmp, false, map[]);
      forall i :: 0 <= i < |es| ==> FairHandler(es[i].a, Memory(Run(m, es[..i]))) && !es[i].a.ClearAll?
    ensures Everywhere(d => AllOk(d), Run(Machine(Boot(Absent), tmp, false, map[]), es))
  {
    var m := Machine(Boot(Absent), tmp, false, map[]);
    BootInv(Absent, tmp);
    EmptyIsOk();
    assert Memory(m) == EMPTY_DATA && Durable(m) == EMPTY_DATA;
    ServerOverRuns(m, es);
  }
}
