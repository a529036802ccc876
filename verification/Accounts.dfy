/** `src/storage/repositories/users.ts`: accounts found or created by (provider, openid), merged by UnionID. */
module Accounts {
  import opened Values
  import opened Seqs
  import opened Tables
  import opened StoreSpec
  import opened Machines
  import Durability

  datatype Login = Login(provider: string, openid: string, unionid: Option<string>, sessionKey: Option<string>,
                         nickname: Option<string>, avatarUrl: Option<string>, now: string)

  function Given(o: Option<string>): Value {
    if o.Some? then Str(o.value) else Undefined
  }

  function UserOf(r: Row): int { NumOr0(Get(r, UserId)) }

  function HasPair(provider: string, openid: string): Row -> bool {
    r => Get(r, Provider) == Str(provider) && Get(r, Openid) == Str(openid)
  }

  function HasUnion(unionid: Option<string>): Row -> bool {
    r => Get(r, Unionid) == Given(unionid)
  }

  function NewUser(p: Login): Row {
    map[Openid := Str(p.openid), Unionid := Or(Given(p.unionid), Null), Nickname := Or(Given(p.nickname), Null),
        AvatarUrl := Or(Given(p.avatarUrl), Null), Phone := Null]
  }

  function NewIdentity(p: Login, uid: int): Row {
    map[UserId := Num(uid), Provider := Str(p.provider), Openid := Str(p.openid),
        Unionid := Or(Given(p.unionid), Null), SessionKey := Or(Given(p.sessionKey), Null)]
  }

  function Identity(d: Data, p: Login): Option<Row> {
    Find(HasPair(p.provider, p.openid), Rows(d, UserIdentities))
  }

  /** The user id stored with the given UnionID, or 0. */
  function UnionUser(d: Data, p: Login): int {
    if !Truthy(Given(p.unionid)) then 0
    else
      var r := Find(HasUnion(p.unionid), Rows(d, UserIdentities));
      if r.Some? then UserOf(r.value) else 0
  }

  /** Step 1: refresh the session key of an identity that is there already. */
  function TouchOps(d: Data, p: Login): seq<Mutation> {
    var identity := Identity(d, p);
    if identity.Some? && Truthy(Given(p.sessionKey))
    then [Update(UserIdentities, IdOf(identity.value), map[SessionKey := Given(p.sessionKey)], p.now)] else []
  }

  /** Step 3: create a user unless the UnionID has one. */
  function UserOps(d: Data, p: Login): seq<Mutation> {
    if UnionUser(d, p) == 0 then [Insert(Users, NewUser(p), p.now)] else []
  }

  function ChosenUser(d: Data, p: Login): int {
    if UnionUser(d, p) == 0 then Counter(d, Users) else UnionUser(d, p)
  }

  /** Step 4: link the pair to the user. */
  function LinkOp(d: Data, p: Login, uid: int): Mutation {
    match Identity(d, p)
    case Some(r) =>
      Update(UserIdentities, IdOf(r),
             map[SessionKey := Or(Given(p.sessionKey), Get(r, SessionKey)),
                 Unionid := Or(Given(p.unionid), Get(r, Unionid))], p.now)
    case None => Insert(UserIdentities, NewIdentity(p, uid), p.now)
  }

  function HasOpenid(openid: string): Row -> bool {
    r => Get(r, Openid) == Str(openid)
  }

  /** A given field that differs from the stored one. */
  function Renewed(field: Field, given: Value, user: Row): Row {
    if Truthy(given) && given != Get(user, field) then map[field := given] else map[]
  }

  /** findOrCreateUser, the older login by openid alone. */
  function OldLoginOps(d: Data, p: Login): seq<Mutation> {
    var user := Find(HasOpenid(p.openid), Rows(d, Users));
    if user.None? then [Insert(Users, NewUser(p), p.now)]
    else
      var updates := Renewed(Unionid, Given(p.unionid), user.value) + Renewed(Nickname, Given(p.nickname), user.value)
                     + Renewed(AvatarUrl, Given(p.avatarUrl), user.value);
      if updates == map[] then [] else [Update(Users, IdOf(user.value), updates, p.now)]
  }

  /** The early return: the pair has an identity, and its user is there. */
  predicate Known(d: Data, p: Login) {
    Identity(d, p).Some? && Find(ById(UserOf(Identity(d, p).value)), Rows(d, Users)).Some?
  }

  /** findOrCreateUserByIdentity as a handler. */
  function LoginEffects(d: Data, p: Login): Effects {
    var touch := TouchOps(d, p);
    if Known(d, p) then Effects(touch, false)
    else
      var d1 := ApplyAll(d, touch);
      var make := UserOps(d1, p);
      Effects(touch + make + [LinkOp(ApplyAll(d1, make), p, ChosenUser(d1, p))], true)
  }

  function LoginBody(p: Login): Data -> Effects {
    d => LoginEffects(d, p)
  }

  function AfterLogin(d: Data, p: Login): Data {
    ApplyAll(d, LoginEffects(d, p).ops)
  }

  /** The user returned, or None where the source throws. */
  function LoginResult(d: Data, p: Login): Option<Row> {
    var uid := if Known(d, p) then UserOf(Identity(d, p).value) else ChosenUser(ApplyAll(d, TouchOps(d, p)), p);
    Find(ById(uid), Rows(AfterLogin(d, p), Users))
  }

  // ---- The joint invariant of users and user_identities ----

  predicate UserExists(d: Data, uid: int) {
    Find(ById(uid), Rows(d, Users)).Some?
  }

  /** `a` and `b` may stand in the table together: different pairs, and one user per UnionID. */
  predicate Compatible(a: Row, b: Row) {
    && !(Get(a, Provider) == Get(b, Provider) && Get(a, Openid) == Get(b, Openid))
    && (Truthy(Get(a, Unionid)) && Get(a, Unionid) == Get(b, Unionid) ==> UserOf(a) == UserOf(b))
  }

  predicate AllCompatible(rows: seq<Row>) {
    forall i, j :: 0 <= i < j < |rows| ==> Compatible(rows[i], rows[j])
  }

  predicate AllOwned(d: Data, rows: seq<Row>) {
    forall i :: 0 <= i < |rows| ==> UserOf(rows[i]) >= 1 && UserExists(d, UserOf(rows[i]))
  }

  ghost predicate IdentityOk(d: Data) {
    && Complete(d)
    && IdsOk(Rows(d, Users), Counter(d, Users))
    && IdsOk(Rows(d, UserIdentities), Counter(d, UserIdentities))
    && AllOwned(d, Rows(d, UserIdentities))
    && AllCompatible(Rows(d, UserIdentities))
  }

  /** The user a pair is linked to. */
  function UserFor(d: Data, provider: string, openid: string): Option<int> {
    var r := Find(HasPair(provider, openid), Rows(d, UserIdentities));
    if r.Some? then Some(UserOf(r.value)) else None
  }

  // ---- Changes that cannot disturb it ----

  predicate Benign(m: Mutation) {
    match m.t
    case Users => m.Insert? || m.Bump? || m.SortInPlace? || (m.Update? && Id !in m.updates)
    case UserIdentities => m.Bump?
    case _ => true
  }

  lemma {:induction false} UserStays(d: Data, m: Mutation, uid: int)
    requires IdentityOk(d) && Benign(m) && UserExists(d, uid)
    ensures UserExists(ApplyData(d, m), uid)
  {
    var rows := Rows(d, Users);
    ApplyRows(d, m, Users);
    if m.t == Users {
      var i := IndexWhere(ById(uid), rows);
      if m.Insert? {
        FindAfterAppend(ById(uid), rows, NewRow(m.row, Counter(d, Users), m.now));
      } else if m.Update? {
        var rows' := UpdateRow(rows, m.id, m.updates, m.now);
        assert Get(rows'[i], Id) == Get(rows[i], Id);
        assert ById(uid)(rows'[i]);
      } else if m.SortInPlace? {
        SortPermutes(m.leq, rows);
        OrderUnobservable(rows, Sort(m.leq, rows), Counter(d, Users), uid, ById(uid), map[], "");
      }
    }
  }

  /** No benign change moves a pair to another user or breaks the invariant. */
  lemma {:induction false} BenignKeeps(d: Data, m: Mutation)
    requires IdentityOk(d) && Benign(m)
    ensures IdentityOk(ApplyData(d, m))
    ensures Rows(ApplyData(d, m), UserIdentities) == Rows(d, UserIdentities)
  {
    var e := ApplyData(d, m);
    ApplyRows(d, m, Users);
    ApplyRows(d, m, UserIdentities);
    if m.t == Users { MutationKeepsTableIds(d, m); }
    var rows := Rows(d, UserIdentities);
    forall i | 0 <= i < |rows| ensures UserExists(e, UserOf(rows[i])) {
      UserStays(d, m, UserOf(rows[i]));
    }
  }

  lemma {:induction false} BenignAllKeep(d: Data, ops: seq<Mutation>)
    requires IdentityOk(d) && forall i :: 0 <= i < |ops| ==> Benign(ops[i])
    ensures IdentityOk(ApplyAll(d, ops))
    ensures Rows(ApplyAll(d, ops), UserIdentities) == Rows(d, UserIdentities)
  {
    if ops != [] {
      BenignAllKeep(d, ops[..|ops| - 1]);
      BenignKeeps(ApplyAll(d, ops[..|ops| - 1]), ops[|ops| - 1]);
    }
  }

  // ---- Logging in ----

  /** Equal in every field the invariant reads. */
  predicate SameLink(a: Row, b: Row) {
    && Get(a, Id) == Get(b, Id) && Get(a, UserId) == Get(b, UserId) && Get(a, Unionid) == Get(b, Unionid)
    && Get(a, Provider) == Get(b, Provider) && Get(a, Openid) == Get(b, Openid)
  }

  predicate SameLinks(a: seq<Row>, b: seq<Row>) {
    |a| == |b| && forall i :: 0 <= i < |a| ==> SameLink(a[i], b[i])
  }

  lemma {:induction false} SameLinksFind(a: seq<Row>, b: seq<Row>, provider: string, openid: string)
    requires SameLinks(a, b)
    ensures IndexWhere(HasPair(provider, openid), a) == IndexWhere(HasPair(provider, openid), b)
  {
    var p := HasPair(provider, openid);
    var i, j := IndexWhere(p, a), IndexWhere(p, b);
    assert i < |a| ==> p(b[i]);
    assert j < |b| ==> p(a[j]);
  }

  lemma {:induction false} RelinkedOk(d: Data, e: Data)
    requires IdentityOk(d) && Complete(e) && e.nextIds == d.nextIds && Rows(e, Users) == Rows(d, Users)
    requires SameLinks(Rows(d, UserIdentities), Rows(e, UserIdentities))
    ensures IdentityOk(e)
  {
    var a, b := Rows(d, UserIdentities), Rows(e, UserIdentities);
    forall i, j | 0 <= i < j < |b| ensures Compatible(b[i], b[j]) && Get(b[i], Id) != Get(b[j], Id) {
      assert Compatible(a[i], a[j]) && Get(a[i], Id) != Get(a[j], Id);
      assert SameLink(a[i], b[i]) && SameLink(a[j], b[j]);
    }
    forall i | 0 <= i < |b|
      ensures UserOf(b[i]) >= 1 && UserExists(e, UserOf(b[i])) && ValidId(b[i], Counter(e, UserIdentities))
    {
      assert SameLink(a[i], b[i]) && UserExists(d, UserOf(a[i])) && ValidId(a[i], Counter(d, UserIdentities));
    }
  }

  lemma {:induction false} TouchedLinks(rows: seq<Row>, id: int, key: Value, now: string)
    ensures SameLinks(rows, UpdateRow(rows, id, map[SessionKey := key], now))
  {
  }

  /** Refreshing a session key changes no link. */
  lemma {:induction false} TouchKeeps(d: Data, p: Login)
    requires IdentityOk(d)
    ensures
      var e := ApplyAll(d, TouchOps(d, p));
      && IdentityOk(e) && Rows(e, Users) == Rows(d, Users)
      && SameLinks(Rows(d, UserIdentities), Rows(e, UserIdentities))
  {
    var ops := TouchOps(d, p);
    if ops != [] {
      var e := ApplyData(d, ops[0]);
      assert ops == [ops[0]];
      ApplyOne(d, ops[0]);
      ApplyRows(d, ops[0], Users);
      ApplyRows(d, ops[0], UserIdentities);
      TouchedLinks(Rows(d, UserIdentities), ops[0].id, Given(p.sessionKey), p.now);
      RelinkedOk(d, e);
    } else {
      assert ApplyAll(d, []) == d;
    }
  }

  /** Under the invariant an identity always has its user, so the update of an existing identity after the
      early return is never reached. */
  lemma {:induction false} KnownIff(d: Data, p: Login)
    requires IdentityOk(d)
    ensures Known(d, p) <==> Identity(d, p).Some?
  {
    var i := IndexWhere(HasPair(p.provider, p.openid), Rows(d, UserIdentities));
    if i < |Rows(d, UserIdentities)| {
      assert UserExists(d, UserOf(Rows(d, UserIdentities)[i]));
    }
  }

  /** The user chosen for a new pair: the UnionID's, if there is one, or a new one. */
  lemma {:induction false} UserOpsKeep(d: Data, p: Login)
    requires IdentityOk(d)
    ensures
      var e := ApplyAll(d, UserOps(d, p));
      && IdentityOk(e) && Rows(e, UserIdentities) == Rows(d, UserIdentities)
      && ChosenUser(d, p) >= 1 && UserExists(e, ChosenUser(d, p))
  {
    var ops := UserOps(d, p);
    BenignAllKeep(d, ops);
    var ids := Rows(d, UserIdentities);
    if ops == [] {
      var i := IndexWhere(HasUnion(p.unionid), ids);
      assert UserExists(d, UserOf(ids[i]));
    } else {
      ApplyOne(d, ops[0]);
      ApplyRows(d, ops[0], Users);
      var row := NewRow(NewUser(p), Counter(d, Users), p.now);
      FindAfterAppend(ById(Counter(d, Users)), Rows(d, Users), row);
    }
  }

  lemma {:induction false} AppendIdentity(d: Data, f: Data, row: Row)
    requires IdentityOk(d) && Complete(f)
    requires IdsOk(Rows(f, Users), Counter(f, Users)) && IdsOk(Rows(f, UserIdentities), Counter(f, UserIdentities))
    requires Rows(f, UserIdentities) == Rows(d, UserIdentities) + [row]
    requires forall i :: 0 <= i < |Rows(d, UserIdentities)| ==> Compatible(Rows(d, UserIdentities)[i], row)
    requires forall uid :: UserExists(d, uid) ==> UserExists(f, uid)
    requires UserOf(row) >= 1 && UserExists(f, UserOf(row))
    ensures IdentityOk(f)
  {
    var rows, rows' := Rows(d, UserIdentities), Rows(f, UserIdentities);
    forall i, j | 0 <= i < j < |rows'| ensures Compatible(rows'[i], rows'[j]) {
      assert j < |rows| ==> Compatible(rows[i], rows[j]);
    }
    forall i | 0 <= i < |rows'| ensures UserOf(rows'[i]) >= 1 && UserExists(f, UserOf(rows'[i])) {
      assert i < |rows| ==> UserExists(d, UserOf(rows[i]));
    }
  }

  /** The identity row a first login adds. */
  function LinkRow(d: Data, p: Login): Row {
    NewRow(NewIdentity(p, ChosenUser(d, p)), Counter(ApplyAll(d, UserOps(d, p)), UserIdentities), p.now)
  }

  lemma {:induction false} NewIdentityFields(p: Login, uid: int)
    ensures
      var r := NewIdentity(p, uid);
      && Get(r, UserId) == Num(uid) && Get(r, Provider) == Str(p.provider) && Get(r, Openid) == Str(p.openid)
      && Get(r, Unionid) == Or(Given(p.unionid), Null)
  {
  }

  lemma {:induction false} LinkRowFields(d: Data, p: Login)
    ensures
      var r := LinkRow(d, p);
      && UserOf(r) == ChosenUser(d, p) && HasPair(p.provider, p.openid)(r)
      && Get(r, Unionid) == Or(Given(p.unionid), Null)
  {
    var row := NewIdentity(p, ChosenUser(d, p));
    var r := LinkRow(d, p);
    NewIdentityFields(p, ChosenUser(d, p));
    assert Get(r, UserId) == Get(row, UserId);
    assert Get(r, Provider) == Get(row, Provider);
    assert Get(r, Openid) == Get(row, Openid);
    assert Get(r, Unionid) == Get(row, Unionid);
  }

  /** A new identity row fits in: its pair is new, and its UnionID is new or has the same user. */
  lemma {:induction false} NewIdentityFits(d: Data, p: Login, i: nat)
    requires IdentityOk(d) && Identity(d, p).None? && i < |Rows(d, UserIdentities)|
    ensures Compatible(Rows(d, UserIdentities)[i], LinkRow(d, p))
  {
    LinkRowFields(d, p);
    LinkFits(d, p, i, LinkRow(d, p));
  }

  lemma {:induction false} LinkFits(d: Data, p: Login, i: nat, link: Row)
    requires IdentityOk(d) && Identity(d, p).None? && i < |Rows(d, UserIdentities)|
    requires UserOf(link) == ChosenUser(d, p) && HasPair(p.provider, p.openid)(link)
    requires Get(link, Unionid) == Or(Given(p.unionid), Null)
    ensures Compatible(Rows(d, UserIdentities)[i], link)
  {
    var rows := Rows(d, UserIdentities);
    var r := rows[i];
    assert !HasPair(p.provider, p.openid)(r);
    var k := IndexWhere(HasUnion(p.unionid), rows);
    if Truthy(Get(r, Unionid)) && Get(r, Unionid) == Or(Given(p.unionid), Null) {
      assert HasUnion(p.unionid)(r);
      assert UserOf(rows[k]) >= 1;
      assert k == i || Compatible(rows[k], rows[i]);
    }
  }

  lemma {:induction false} InsertIdentity(e: Data, row: Row, now: string)
    requires IdentityOk(e)
    requires
      var r := NewRow(row, Counter(e, UserIdentities), now);
      && UserOf(r) >= 1 && UserExists(e, UserOf(r))
      && forall i :: 0 <= i < |Rows(e, UserIdentities)| ==> Compatible(Rows(e, UserIdentities)[i], r)
    ensures IdentityOk(ApplyData(e, Insert(UserIdentities, row, now)))
  {
    var link := Insert(UserIdentities, row, now);
    ApplyRows(e, link, Users);
    ApplyRows(e, link, UserIdentities);
    MutationKeepsTableIds(e, link);
    AppendIdentity(e, ApplyData(e, link), NewRow(row, Counter(e, UserIdentities), now));
  }

  lemma {:induction false} LinkKeeps(d: Data, e: Data, p: Login)
    requires IdentityOk(d) && Identity(d, p).None?
    requires e == ApplyAll(d, UserOps(d, p))
    ensures
      var link := LinkOp(e, p, ChosenUser(d, p));
      && link.Insert? && IdentityOk(ApplyData(e, link))
      && Rows(ApplyData(e, link), Users) == Rows(e, Users)
      && Rows(ApplyData(e, link), UserIdentities) == Rows(d, UserIdentities) + [LinkRow(d, p)]
  {
    UserOpsKeep(d, p);
    var row := NewIdentity(p, ChosenUser(d, p));
    assert LinkOp(e, p, ChosenUser(d, p)) == Insert(UserIdentities, row, p.now);
    LinkRowFields(d, p);
    forall i | 0 <= i < |Rows(e, UserIdentities)| ensures Compatible(Rows(e, UserIdentities)[i], LinkRow(d, p)) {
      NewIdentityFits(d, p, i);
    }
    InsertIdentity(e, row, p.now);
    ApplyRows(e, Insert(UserIdentities, row, p.now), Users);
    ApplyRows(e, Insert(UserIdentities, row, p.now), UserIdentities);
  }

  lemma {:induction false} FirstLoginShape(d: Data, p: Login)
    requires IdentityOk(d) && Identity(d, p).None?
    ensures
      var e := ApplyAll(d, UserOps(d, p));
      && LoginEffects(d, p) == Effects(UserOps(d, p) + [LinkOp(e, p, ChosenUser(d, p))], true)
      && AfterLogin(d, p) == ApplyData(e, LinkOp(e, p, ChosenUser(d, p)))
  {
    assert ApplyAll(d, []) == d;
    var make := UserOps(d, p);
    var link := LinkOp(ApplyAll(d, make), p, ChosenUser(d, p));
    Pushed(make, link);
  }

  lemma {:induction false} KnownLogin(d: Data, p: Login, provider: string, openid: string)
    requires IdentityOk(d) && Known(d, p)
    ensures IdentityOk(AfterLogin(d, p)) && LoginResult(d, p).Some?
    ensures UserFor(d, p.provider, p.openid) == Some(IdOf(LoginResult(d, p).value))
    ensures UserFor(AfterLogin(d, p), provider, openid) == UserFor(d, provider, openid)
  {
    TouchKeeps(d, p);
    var rows, rows' := Rows(d, UserIdentities), Rows(AfterLogin(d, p), UserIdentities);
    SameLinksFind(rows, rows', provider, openid);
    var i := IndexWhere(HasPair(provider, openid), rows);
    assert i < |rows| ==> SameLink(rows[i], rows'[i]);
  }

  lemma {:induction false} NewLogin(d: Data, p: Login)
    requires IdentityOk(d) && Identity(d, p).None?
    ensures IdentityOk(AfterLogin(d, p)) && LoginResult(d, p).Some?
    ensures IdOf(LoginResult(d, p).value) == ChosenUser(d, p)
    ensures Rows(AfterLogin(d, p), UserIdentities) == Rows(d, UserIdentities) + [LinkRow(d, p)]
  {
    FirstLoginShape(d, p);
    UserOpsKeep(d, p);
    LinkKeeps(d, ApplyAll(d, UserOps(d, p)), p);
    assert ApplyAll(d, []) == d;
  }

  lemma {:induction false} UserForAppend(d: Data, e: Data, row: Row, provider: string, openid: string)
    requires Rows(e, UserIdentities) == Rows(d, UserIdentities) + [row]
    ensures UserFor(d, provider, openid).Some? ==> UserFor(e, provider, openid) == UserFor(d, provider, openid)
    ensures UserFor(d, provider, openid).None? && HasPair(provider, openid)(row)
            ==> UserFor(e, provider, openid) == Some(UserOf(row))
  {
    FindAfterAppend(HasPair(provider, openid), Rows(d, UserIdentities), row);
  }

  /** Every login, known or new, merged or not: the invariant survives, a user is returned and never the
      error thrown, the pair is linked to the user returned, and other pairs keep theirs. */
  lemma {:induction false} LoginKeeps(d: Data, p: Login, provider: string, openid: string)
    requires IdentityOk(d)
    ensures IdentityOk(AfterLogin(d, p))
    ensures LoginResult(d, p).Some?
    ensures UserFor(AfterLogin(d, p), p.provider, p.openid) == Some(IdOf(LoginResult(d, p).value))
    ensures UserFor(d, provider, openid).Some?
            ==> UserFor(AfterLogin(d, p), provider, openid) == UserFor(d, provider, openid)
  {
    KnownIff(d, p);
    if Known(d, p) {
      KnownLogin(d, p, p.provider, p.openid);
      KnownLogin(d, p, provider, openid);
    } else {
      NewLogin(d, p);
      LinkRowFields(d, p);
      UserForAppend(d, AfterLogin(d, p), LinkRow(d, p), p.provider, p.openid);
      UserForAppend(d, AfterLogin(d, p), LinkRow(d, p), provider, openid);
    }
  }

  lemma {:induction false} NextIdUnused(rows: seq<Row>, next: int)
    requires IdsOk(rows, next)
    ensures Find(ById(next), rows).None?
  {
    assert forall i :: 0 <= i < |rows| ==> ValidId(rows[i], next);
  }

  /** A pair already linked gets its user back whatever UnionID the login carries; a new pair gets the user
      of a stored UnionID, and otherwise a user that did not exist before. */
  lemma {:induction false} LoginAnswer(d: Data, p: Login)
    requires IdentityOk(d)
    ensures
      var answer := LoginResult(d, p);
      && answer.Some?
      && IdOf(answer.value) == (
           var known := UserFor(d, p.provider, p.openid);
           if known.Some? then known.value
           else if UnionUser(d, p) != 0 then UnionUser(d, p)
           else Counter(d, Users))
      && (UserFor(d, p.provider, p.openid).None? && UnionUser(d, p) == 0 ==> !UserExists(d, IdOf(answer.value)))
  {
    KnownIff(d, p);
    LoginKeeps(d, p, p.provider, p.openid);
    if Known(d, p) {
      KnownLogin(d, p, p.provider, p.openid);
    } else {
      NewLogin(d, p);
      NextIdUnused(Rows(d, Users), Counter(d, Users));
    }
  }

  // ---- Over whole runs ----

  /** A login, or a handler that makes only benign changes. */
  ghost predicate AccountHandler(a: Action, d: Data) {
    a.Handle? ==> (exists p :: a.body == LoginBody(p))
                  || forall i :: 0 <= i < |a.body(d).ops| ==> Benign(a.body(d).ops[i])
  }

  ghost function Linked(provider: string, openid: string, uid: int): Data -> bool {
    d => IdentityOk(d) && UserFor(d, provider, openid) == Some(uid)
  }

  lemma {:induction false} HandlerKeepsLinks(a: Action, d: Data, provider: string, openid: string)
    requires AccountHandler(a, d) && a.Handle? && IdentityOk(d)
    ensures IdentityOk(ApplyAll(d, a.body(d).ops))
    ensures UserFor(d, provider, openid).Some?
            ==> UserFor(ApplyAll(d, a.body(d).ops), provider, openid) == UserFor(d, provider, openid)
  {
    if p :| a.body == LoginBody(p) {
      LoginKeeps(d, p, provider, openid);
    } else {
      BenignAllKeep(d, a.body(d).ops);
    }
  }

  /** The joint invariant over every run of logins and benign handlers, with timers, transactions and
      crashes: one row per pair, every identity's user exists, one user per UnionID. */
  lemma {:induction false} IdentitiesOverRuns(m: Machine, es: seq<Event>)
    requires Inv(m) && Everywhere(d => IdentityOk(d), m)
    requires forall i :: 0 <= i < |es| ==> AccountHandler(es[i].a, Memory(Run(m, es[..i]))) && !es[i].a.ClearAll?
    ensures Everywhere(d => IdentityOk(d), Run(m, es))
  {
    var P := d => IdentityOk(d);
    forall i | 0 <= i < |es| ensures KeepsHere(P, Run(m, es[..i]), es[i].a) {
      var a, d := es[i].a, Memory(Run(m, es[..i]));
      assert AccountHandler(a, d);
      if a.Handle? && P(d) { HandlerKeepsLinks(a, d, "", ""); }
    }
    assert Everywhere(P, m);
    InvariantAlongRun(P, m, es);
  }

  /** The first login of a pair ends with a save. */
  lemma {:induction false} FirstLoginSaves(m: Machine, p: Login)
    requires Inv(m) && IdentityOk(Memory(m)) && Identity(Memory(m), p).None?
    ensures SavesLast(m, Handle(LoginBody(p)))
  {
    ReadyFacts(m);
    var d := Memory(m);
    FirstLoginShape(d, p);
    LinkKeeps(d, ApplyAll(d, UserOps(d, p)), p);
    var ops := LoginEffects(d, p).ops;
    var before := MutateAll(Ready(m).s, ops[..|ops| - 1]);
    MutateAllFacts(Ready(m).s, ops[..|ops| - 1]);
    MutateFacts(before, ops[|ops| - 1]);
    MutateAllFacts(Ready(m).s, ops);
  }

  /** Once a pair has logged in, every later login with it gives the same user, whatever UnionID either
      carries, whatever logins and benign handlers come between, and across crashes and rollbacks, except the
      rollback of a transaction that was open at the first login. */
  lemma {:induction false} LoginIsStable(m: Machine, p: Login, es: seq<Event>, q: Login)
    requires Inv(m) && IdentityOk(Memory(m)) && Identity(Memory(m), p).None?
    requires
      var m1 := Finish(m, Handle(LoginBody(p)));
      forall i :: 0 <= i < |es| ==> AccountHandler(es[i].a, Memory(Run(m1, es[..i]))) && !es[i].a.ClearAll?
    requires forall i :: 0 <= i < |es| ==> (es[i].a.Rollback? ==> es[i].a.tx !in m.open)
    requires q.provider == p.provider && q.openid == p.openid
    ensures
      var later := Memory(Run(Finish(m, Handle(LoginBody(p))), es));
      && LoginResult(Memory(m), p).Some? && LoginResult(later, q).Some?
      && IdOf(LoginResult(later, q).value) == IdOf(LoginResult(Memory(m), p).value)
  {
    var d := Memory(m);
    LoginKeeps(d, p, p.provider, p.openid);
    var uid := IdOf(LoginResult(d, p).value);
    var P := Linked(p.provider, p.openid, uid);
    var m1 := Finish(m, Handle(LoginBody(p)));
    HandleFacts(m, LoginBody(p));
    ActionFacts(m, Handle(LoginBody(p)));
    FirstLoginSaves(m, p);
    assert EverywhereSince(P, m1, m.open.Keys);
    forall i | 0 <= i < |es| ensures KeepsHere(P, Run(m1, es[..i]), es[i].a) {
      var a, e := es[i].a, Memory(Run(m1, es[..i]));
      assert AccountHandler(a, e);
      if a.Handle? && P(e) { HandlerKeepsLinks(a, e, p.provider, p.openid); }
    }
    InvariantSince(P, m1, es, m.open.Keys);
    LoginAnswer(Memory(Run(m1, es)), q);
  }

  /** The user of a pair that has none yet: that of the UnionID, or the next one. */
  function NextUser(d: Data, p: Login): int {
    if UnionUser(d, p) != 0 then UnionUser(d, p) else Counter(d, Users)
  }

  /** A first login made inside a transaction that is then rolled back, whatever runs before and after it inside: it
      is forgotten, and the next login of the pair is answered from the accounts at the start of the
      transaction. It gives the same user id exactly when those accounts lead to the id that was given. */
  lemma {:induction false} LoginAfterRollback(m: Machine, tx: nat, before: seq<Event>, p: Login, after: seq<Event>,
                                              q: Login)
    requires Inv(m) && tx !in m.open && IdentityOk(Memory(m)) && q.provider == p.provider && q.openid == p.openid
    requires
      var body := before + [Do(Handle(LoginBody(p)))] + after;
      forall i :: 0 <= i < |body| ==> !Durability.Ends(body[i], tx)
    requires UserFor(Memory(m), p.provider, p.openid).None?
    requires
      var first := Memory(Run(Finish(m, Begin(tx)), before));
      IdentityOk(first) && UserFor(first, p.provider, p.openid).None?
    ensures
      var start := Finish(m, Begin(tx));
      var first := LoginResult(Memory(Run(start, before)), p);
      var later := Memory(Finish(Run(start, before + [Do(Handle(LoginBody(p)))] + after), Rollback(tx)));
      && later == Memory(m) && first.Some? && LoginResult(later, q).Some?
      && IdOf(LoginResult(later, q).value) == NextUser(Memory(m), q)
      && (IdOf(LoginResult(later, q).value) == IdOf(first.value)
          <==> NextUser(Memory(m), q) == NextUser(Memory(Run(start, before)), p))
  {
    Durability.RollbackRestores(m, tx, before + [Do(Handle(LoginBody(p)))] + after);
    LoginAnswer(Memory(m), q);
    LoginAnswer(Memory(Run(Finish(m, Begin(tx)), before)), p);
  }
}
