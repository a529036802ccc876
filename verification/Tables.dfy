/** One table: the array operations behind insert, update and remove, and the id discipline
    they keep. */
module Tables {
  import opened Values
  import opened Seqs

  function ById(id: int): Row -> bool {
    r => Get(r, Id) == Num(id)
  }

  /** The record `insert` pushes. */
  function NewRow(row: Row, id: int, now: string): (r: Row)
    ensures Get(r, Id) == Num(id)
    ensures forall f :: f != Id && f != CreatedAt && f != UpdatedAt ==> Get(r, f) == Get(row, f)
  {
    Spread(row, map[Id := Num(id),
                    CreatedAt := Or(Get(row, CreatedAt), Str(now)),
                    UpdatedAt := Or(Get(row, UpdatedAt), Str(now))])
  }

  /** The record `update` and `updateWhere` put in the place of `r`. */
  function Touch(r: Row, updates: Row, now: string): (t: Row)
    ensures forall f :: f != UpdatedAt ==> Get(t, f) == if f in updates then updates[f] else Get(r, f)
  {
    Spread(Spread(r, updates), map[UpdatedAt := Str(now)])
  }

  function UpdateRow(rows: seq<Row>, id: int, updates: Row, now: string): (res: seq<Row>)
    ensures |res| == |rows|
  {
    var i := IndexWhere(ById(id), rows);
    if i == |rows| then rows else rows[i := Touch(rows[i], updates, now)]
  }

  function UpdateRows(rows: seq<Row>, p: Row -> bool, updates: Row, now: string): (res: seq<Row>)
    ensures |res| == |rows|
    ensures forall i :: 0 <= i < |rows| ==> res[i] == if p(rows[i]) then Touch(rows[i], updates, now) else rows[i]
  {
    seq(|rows|, i requires 0 <= i < |rows| => if p(rows[i]) then Touch(rows[i], updates, now) else rows[i])
  }

  function RemoveRow(rows: seq<Row>, id: int): seq<Row> {
    var i := IndexWhere(ById(id), rows);
    if i == |rows| then rows else SpliceOut(rows, i)
  }

  /** The rows with the given value in a field. */
  function Pointing(f: Field, v: Value): Row -> bool {
    r => Get(r, f) == v
  }

  function Except<T>(p: T -> bool): T -> bool {
    x => !p(x)
  }

  // ---- Ids ----

  predicate ValidId(r: Row, next: int) {
    Get(r, Id).Num? && 1 <= Get(r, Id).n < next
  }

  predicate DistinctIds(rows: seq<Row>) {
    forall i, j :: 0 <= i < j < |rows| ==> Get(rows[i], Id) != Get(rows[j], Id)
  }

  /** Ids are pairwise distinct, at least 1, and below the table's counter. */
  predicate IdsOk(rows: seq<Row>, next: int) {
    && next >= 1
    && (forall i :: 0 <= i < |rows| ==> ValidId(rows[i], next))
    && DistinctIds(rows)
  }

  lemma {:induction false} InsertKeepsIds(rows: seq<Row>, next: int, row: Row, now: string)
    requires IdsOk(rows, next)
    ensures IdsOk(rows + [NewRow(row, next, now)], next + 1)
  {
    var res := rows + [NewRow(row, next, now)];
    forall i, j | 0 <= i < j < |res| ensures Get(res[i], Id) != Get(res[j], Id) {
      if j == |rows| { assert ValidId(rows[i], next); }
    }
  }

  /** What an update may do to the id field: leave it, repeat it, or move it to an unused valid id. */
  predicate IdFree(rows: seq<Row>, id: int, updates: Row, next: int) {
    Id !in updates
    || Find(ById(id), rows) == None
    || (&& updates[Id].Num?
        && 1 <= updates[Id].n < next
        && (updates[Id].n == id || Find(ById(updates[Id].n), rows) == None))
  }

  /** `update` spreads its argument over the row, so the id discipline survives exactly when the
      argument has no id, or finds no row, or carries a valid id that no other row has. */
  lemma {:induction false} UpdateKeepsIdsIff(rows: seq<Row>, next: int, id: int, updates: Row, now: string)
    requires IdsOk(rows, next)
    ensures IdsOk(UpdateRow(rows, id, updates, now), next) <==> IdFree(rows, id, updates, next)
  {
    var k := IndexWhere(ById(id), rows);
    var res := UpdateRow(rows, id, updates, now);
    if k < |rows| {
      assert Get(rows[k], Id) == Num(id);
      var newId := Get(res[k], Id);
      assert newId == if Id in updates then updates[Id] else Num(id);
      if IdFree(rows, id, updates, next) {
        assert ValidId(rows[k], next);
        forall i, j | 0 <= i < j < |res| ensures Get(res[i], Id) != Get(res[j], Id) {
          assert Get(rows[i], Id) != Get(rows[j], Id);
          if i == k { NoOtherRow(rows, next, id, updates, j); }
          if j == k { NoOtherRow(rows, next, id, updates, i); }
        }
      } else {
        if newId.Num? && 1 <= newId.n < next {
          var o := IndexWhere(ById(newId.n), rows);
          assert o < |rows| && o != k;
          assert Get(res[o], Id) == Get(res[k], Id);
        } else {
          assert !ValidId(res[k], next);
        }
      }
    }
  }

  /** Two rows, and an update of the second that carries the id of the first. */
  lemma {:induction false} BorrowedId(a: Row, b: Row, now: string)
    requires Get(a, Id) == Num(1) && Get(b, Id) == Num(2)
    ensures IdsOk([a, b], 3) && !IdsOk(UpdateRow([a, b], 2, map[Id := Num(1)], now), 3)
  {
    var updates: Row := map[Id := Num(1)];
    assert IndexWhere(ById(2), [a, b]) == 1 by { assert !ById(2)([a, b][0]) && ById(2)([a, b][1]); }
    assert ById(1)([a, b][0]) && Find(ById(1), [a, b]) == Some(a);
    assert Id in updates && updates[Id] == Num(1);
    UpdateKeepsIdsIff([a, b], 3, 2, updates, now);
  }

  lemma {:induction false} NoOtherRow(rows: seq<Row>, next: int, id: int, updates: Row, j: nat)
    requires IdsOk(rows, next) && IdFree(rows, id, updates, next)
    requires j < |rows| && j != IndexWhere(ById(id), rows) < |rows|
    ensures Get(rows[j], Id) != if Id in updates then updates[Id] else Num(id)
  {
    var k := IndexWhere(ById(id), rows);
    assert Get(rows[k], Id) != Get(rows[j], Id);
    if Id in updates && updates[Id].n != id {
      assert IndexWhere(ById(updates[Id].n), rows) == |rows|;
      assert !ById(updates[Id].n)(rows[j]);
    }
  }

  lemma {:induction false} UpdateRowsKeepsIds(rows: seq<Row>, next: int, p: Row -> bool, updates: Row, now: string)
    requires IdsOk(rows, next) && Id !in updates
    ensures IdsOk(UpdateRows(rows, p, updates, now), next)
  {
    var res := UpdateRows(rows, p, updates, now);
    assert forall i :: 0 <= i < |rows| ==> Get(res[i], Id) == Get(rows[i], Id);
  }

  lemma {:induction false} RemoveKeepsIds(rows: seq<Row>, next: int, id: int)
    requires IdsOk(rows, next)
    ensures IdsOk(RemoveRow(rows, id), next)
  {
  }

  /** With distinct ids, removing by id is a filter: it takes out that row and nothing else. */
  lemma {:induction false} RemoveIsFilter(rows: seq<Row>, id: int)
    requires DistinctIds(rows)
    ensures RemoveRow(rows, id) == Filter(Except(ById(id)), rows)
  {
    var p := ById(id);
    var i := IndexWhere(p, rows);
    if i == |rows| {
      FilterAll(Except(p), rows);
    } else {
      var a, b := rows[..i], rows[i + 1..];
      assert rows == a + [rows[i]] + b;
      FilterAppend(Except(p), a + [rows[i]], b);
      FilterPush(Except(p), a, rows[i]);
      FilterAll(Except(p), a);
      forall j | 0 <= j < |b| ensures Except(p)(b[j]) {
        assert Get(rows[i], Id) != Get(rows[i + 1 + j], Id);
      }
      FilterAll(Except(p), b);
    }
  }

  lemma {:induction false} FilterKeepsIds(rows: seq<Row>, next: int, p: Row -> bool)
    requires IdsOk(rows, next)
    ensures IdsOk(Filter(p, rows), next)
  {
    if rows != [] {
      var t, x := rows[..|rows| - 1], rows[|rows| - 1];
      FilterKeepsIds(t, next, p);
      var f := Filter(p, t);
      forall i | 0 <= i < |f| ensures Get(f[i], Id) != Get(x, Id) {
        FilterMember(p, t, f[i]);
        var j :| 0 <= j < |t| && t[j] == f[i];
        assert Get(rows[j], Id) != Get(rows[|rows| - 1], Id);
      }
    }
  }

  // ---- Row order cannot be observed through ids ----

  lemma {:induction false} TwoCopies<T>(s: seq<T>, i: nat, j: nat)
    requires i < j < |s| && s[i] == s[j]
    ensures multiset(s)[s[i]] >= 2
  {
    assert s == s[..i] + [s[i]] + s[i + 1..];
    assert s[j] in s[i + 1..];
    assert multiset(s[i + 1..])[s[j]] >= 1;
  }

  lemma {:induction false} TwoPositions<T>(s: seq<T>, x: T) returns (i: nat, j: nat)
    requires multiset(s)[x] >= 2
    ensures i < j < |s| && s[i] == s[j] == x
  {
    i :| 0 <= i < |s| && s[i] == x;
    assert s == s[..i] + [s[i]] + s[i + 1..];
    if x in s[i + 1..] {
      var k :| 0 <= k < |s[i + 1..]| && s[i + 1..][k] == x;
      j := i + 1 + k;
    } else {
      assert multiset(s[i + 1..])[x] == 0;
      assert x in multiset(s[..i]);
      var k :| 0 <= k < i && s[..i][k] == x;
      i, j := k, i;
    }
  }

  lemma {:induction false} PermutationKeepsIds(a: seq<Row>, b: seq<Row>, next: int)
    requires IdsOk(a, next) && multiset(a) == multiset(b)
    ensures IdsOk(b, next)
  {
    forall i | 0 <= i < |b| ensures ValidId(b[i], next) {
      PermutationMember(a, b, b[i]);
      var k :| 0 <= k < |a| && a[k] == b[i];
    }
    forall i, j | 0 <= i < j < |b| ensures Get(b[i], Id) != Get(b[j], Id) {
      if b[i] == b[j] {
        TwoCopies(b, i, j);
        var k, l := TwoPositions(a, b[i]);
        assert false;
      } else {
        PermutationMember(a, b, b[i]);
        PermutationMember(a, b, b[j]);
        var k :| 0 <= k < |a| && a[k] == b[i];
        var l :| 0 <= l < |a| && a[l] == b[j];
        if k < l { assert Get(a[k], Id) != Get(a[l], Id); }
        else { assert Get(a[l], Id) != Get(a[k], Id); }
      }
    }
  }

  /** `findById` gives a row exactly when that row is in the table and has the id. */
  lemma {:induction false} FindByIdMeaning(rows: seq<Row>, id: int, r: Row)
    requires DistinctIds(rows)
    ensures Find(ById(id), rows) == Some(r) <==> r in rows && Get(r, Id) == Num(id)
  {
    var i := IndexWhere(ById(id), rows);
    if r in rows && Get(r, Id) == Num(id) {
      var k :| 0 <= k < |rows| && rows[k] == r;
      assert ById(id)(rows[k]);
      assert i == k;
    }
  }

  lemma {:induction false} UpdateRowMultiset(rows: seq<Row>, id: int, updates: Row, now: string)
    ensures multiset(UpdateRow(rows, id, updates, now))
            == match Find(ById(id), rows)
               case None => multiset(rows)
               case Some(r) => multiset(rows) - multiset{r} + multiset{Touch(r, updates, now)}
  {
    var i := IndexWhere(ById(id), rows);
    if i < |rows| {
      var x := Touch(rows[i], updates, now);
      MultisetReplaced(rows, i, x);
    }
  }

  /** A permuted table answers every lookup and count by id alike, and updating or removing by id
      succeeds alike and leaves permuted tables again. */
  lemma {:induction false} OrderUnobservable(a: seq<Row>, b: seq<Row>, next: int, id: int, p: Row -> bool,
                                             updates: Row, now: string)
    requires IdsOk(a, next) && multiset(a) == multiset(b)
    ensures IdsOk(b, next)
    ensures Find(ById(id), a) == Find(ById(id), b)
    ensures |a| == |b| && |Filter(p, a)| == |Filter(p, b)|
    ensures multiset(UpdateRow(a, id, updates, now)) == multiset(UpdateRow(b, id, updates, now))
    ensures multiset(RemoveRow(a, id)) == multiset(RemoveRow(b, id))
    ensures multiset(Filter(p, a)) == multiset(Filter(p, b))
  {
    PermutationKeepsIds(a, b, next);
    assert |multiset(a)| == |a| && |multiset(b)| == |b|;
    var fa, fb := Find(ById(id), a), Find(ById(id), b);
    if fa.Some? {
      PermutationMember(a, b, fa.value);
      FindByIdMeaning(a, id, fa.value);
      FindByIdMeaning(b, id, fa.value);
    } else if fb.Some? {
      PermutationMember(a, b, fb.value);
      FindByIdMeaning(b, id, fb.value);
      FindByIdMeaning(a, id, fb.value);
    }
    UpdateRowMultiset(a, id, updates, now);
    UpdateRowMultiset(b, id, updates, now);
    RemoveIsFilter(a, id);
    RemoveIsFilter(b, id);
    FilterPermutation(Except(ById(id)), a, b);
    FilterPermutation(p, a, b);
    assert |multiset(Filter(p, a))| == |Filter(p, a)| && |multiset(Filter(p, b))| == |Filter(p, b)|;
  }
}
