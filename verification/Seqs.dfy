/** Searching, filtering and stable sorting of JavaScript arrays. */
module Seqs {
  import opened Values

  /** `Array.prototype.filter` */
  function Filter<T>(p: T -> bool, s: seq<T>): (r: seq<T>)
    ensures |r| <= |s|
  {
    if s == [] then []
    else Filter(p, s[..|s| - 1]) + if p(s[|s| - 1]) then [s[|s| - 1]] else []
  }

  /** `Array.prototype.findIndex`, with |s| in the place of -1. */
  function IndexWhere<T>(p: T -> bool, s: seq<T>): (i: nat)
    ensures i <= |s|
    ensures i < |s| ==> p(s[i])
    ensures forall j :: 0 <= j < i ==> !p(s[j])
  {
    if s == [] then 0 else if p(s[0]) then 0 else 1 + IndexWhere(p, s[1..])
  }

  /** `Array.prototype.find` */
  function Find<T>(p: T -> bool, s: seq<T>): Option<T> {
    var i := IndexWhere(p, s);
    if i < |s| then Some(s[i]) else None
  }

  lemma {:induction false} FindAfterAppend<T>(p: T -> bool, s: seq<T>, x: T)
    ensures Find(p, s).Some? ==> Find(p, s + [x]) == Find(p, s)
    ensures Find(p, s).None? ==> Find(p, s + [x]) == if p(x) then Some(x) else None
  {
    var i, j := IndexWhere(p, s), IndexWhere(p, s + [x]);
    assert forall k :: 0 <= k < |s| ==> (s + [x])[k] == s[k];
    if i < |s| {
      assert p((s + [x])[i]);
      assert j <= i;
      assert j == i;
    } else {
      assert j >= |s| && (s + [x])[|s|] == x;
    }
  }

  /** `Array.prototype.splice(i, 1)` */
  function SpliceOut<T>(s: seq<T>, i: nat): seq<T>
    requires i < |s|
  {
    s[..i] + s[i + 1..]
  }

  lemma {:induction false} Prefix<T>(s: seq<T>, i: nat)
    requires i < |s|
    ensures s[..i + 1] == s[..i] + [s[i]] && s[..i + 1][..i] == s[..i]
  {
  }

  lemma {:induction false} Whole<T>(s: seq<T>)
    ensures s[..|s|] == s && s[..0] == [] && s + [] == s && [] + s == s
  {
  }

  lemma {:induction false} Extend<T>(before: seq<T>, added: seq<T>, mid: seq<T>, x: T, after: seq<T>)
    requires mid == before + added && after == mid + [x]
    ensures after == before + (added + [x])
  {
  }

  lemma {:induction false} Around<T>(s: seq<T>, i: nat, x: T)
    requires i < |s|
    ensures s == s[..i] + [s[i]] + s[i + 1..] && s[i := x] == s[..i] + [x] + s[i + 1..]
  {
  }

  lemma {:induction false} MultisetReplaced<T>(s: seq<T>, i: nat, x: T)
    requires i < |s|
    ensures multiset(s[i := x]) == multiset(s) - multiset{s[i]} + multiset{x}
  {
    Around(s, i, x);
  }

  lemma {:induction false} MultisetPushed<T>(s: seq<T>, x: T)
    ensures multiset(s + [x]) == multiset(s) + multiset{x}
  {
  }

  lemma {:induction false} Member<T>(s: seq<T>, x: T)
    requires s != []
    ensures x in s <==> x in s[..|s| - 1] || x == s[|s| - 1]
  {
    Parted(s);
  }

  lemma {:induction false} Parted<T>(s: seq<T>)
    requires s != []
    ensures s == s[..|s| - 1] + [s[|s| - 1]]
  {
  }

  lemma {:induction false} Pushed<T>(s: seq<T>, x: T)
    ensures (s + [x])[..|s|] == s && [] + s + [x] == s + [x]
  {
  }

  lemma {:induction false} FilterPush<T>(p: T -> bool, s: seq<T>, x: T)
    ensures Filter(p, s + [x]) == if p(x) then Filter(p, s) + [x] else Filter(p, s)
  {
    assert (s + [x])[..|s|] == s;
  }

  lemma {:induction false} FilterAppend<T>(p: T -> bool, a: seq<T>, b: seq<T>)
    ensures Filter(p, a + b) == Filter(p, a) + Filter(p, b)
  {
    if b == [] {
      assert a + b == a;
    } else {
      var n := |b| - 1;
      assert (a + b)[..|a + b| - 1] == a + b[..n];
      FilterAppend(p, a, b[..n]);
    }
  }

  lemma {:induction false} FilterMember<T>(p: T -> bool, s: seq<T>, x: T)
    ensures x in Filter(p, s) <==> x in s && p(x)
  {
    if s != [] {
      var n := |s| - 1;
      FilterMember(p, s[..n], x);
      assert s == s[..n] + [s[n]];
    }
  }

  /** Filtering keeps every element exactly when all of them satisfy the predicate. */
  lemma {:induction false} FilterAll<T>(p: T -> bool, s: seq<T>)
    requires forall i :: 0 <= i < |s| ==> p(s[i])
    ensures Filter(p, s) == s
  {
    if s != [] {
      FilterAll(p, s[..|s| - 1]);
      assert s == s[..|s| - 1] + [s[|s| - 1]];
    }
  }

  lemma {:induction false} FilterNone<T>(p: T -> bool, s: seq<T>)
    requires forall i :: 0 <= i < |s| ==> !p(s[i])
    ensures Filter(p, s) == []
  {
    if s != [] {
      FilterNone(p, s[..|s| - 1]);
    }
  }

  lemma {:induction false} FilterSame<T>(p: T -> bool, q: T -> bool, s: seq<T>)
    requires forall i :: 0 <= i < |s| ==> p(s[i]) == q(s[i])
    ensures Filter(p, s) == Filter(q, s)
  {
    if s != [] {
      FilterSame(p, q, s[..|s| - 1]);
    }
  }

  function Both<T>(p: T -> bool, q: T -> bool): T -> bool {
    x => p(x) && q(x)
  }

  /** Two filters in a row are one filter by the conjunction. */
  lemma {:induction false} FilterTwice<T>(p: T -> bool, q: T -> bool, s: seq<T>)
    ensures Filter(q, Filter(p, s)) == Filter(Both(p, q), s)
  {
    if s != [] {
      var n := |s| - 1;
      FilterTwice(p, q, s[..n]);
      var t := if p(s[n]) then [s[n]] else [];
      FilterAppend(q, Filter(p, s[..n]), t);
    }
  }

  lemma {:induction false} FilterSwap<T>(p: T -> bool, q: T -> bool, s: seq<T>)
    ensures Filter(q, Filter(p, s)) == Filter(p, Filter(q, s))
  {
    FilterTwice(p, q, s);
    FilterTwice(q, p, s);
    FilterSame(Both(p, q), Both(q, p), s);
  }

  lemma {:induction false} FilterPermutation<T(!new)>(p: T -> bool, a: seq<T>, b: seq<T>)
    requires multiset(a) == multiset(b)
    ensures multiset(Filter(p, a)) == multiset(Filter(p, b))
  {
    forall x: T ensures multiset(Filter(p, a))[x] == multiset(Filter(p, b))[x] {
      FilterCount(p, a, x);
      FilterCount(p, b, x);
    }
    assert multiset(Filter(p, a)) == multiset(Filter(p, b));
  }

  lemma {:induction false} FilterCount<T>(p: T -> bool, s: seq<T>, x: T)
    ensures multiset(Filter(p, s))[x] == if p(x) then multiset(s)[x] else 0
  {
    if s != [] {
      var n := |s| - 1;
      FilterCount(p, s[..n], x);
      assert s == s[..n] + [s[n]];
    }
  }

  function EqualTo<T(==)>(x: T): T -> bool {
    y => y == x
  }

  lemma {:induction false} FirstAt<T>(a: seq<T>, x: T, b: seq<T>)
    requires x !in a
    ensures IndexWhere(EqualTo(x), a + [x] + b) == |a|
  {
    var s := a + [x] + b;
    assert s[|a|] == x;
    assert forall k :: 0 <= k < |a| ==> s[k] == a[k];
    assert forall k :: 0 <= k < |a| ==> a[k] in a;
  }

  /** A sequence is cut in one way only at the first place of an element. */
  lemma {:induction false} CutAt<T>(a: seq<T>, b: seq<T>, c: seq<T>, d: seq<T>, x: T)
    requires x !in a && x !in c && a + [x] + b == c + [x] + d
    ensures a == c && b == d
  {
    FirstAt(a, x, b);
    FirstAt(c, x, d);
    var s := a + [x] + b;
    assert s[..|a|] == a && s[|a| + 1..] == b;
    assert (c + [x] + d)[..|c|] == c && (c + [x] + d)[|c| + 1..] == d;
  }

  // ---- Stable sorting ----

  ghost predicate TotalPreorder<T(!new)>(leq: (T, T) -> bool) {
    && (forall a, b :: leq(a, b) || leq(b, a))
    && (forall a, b, c :: leq(a, b) && leq(b, c) ==> leq(a, c))
  }

  ghost predicate Sorted<T>(leq: (T, T) -> bool, s: seq<T>) {
    forall i, j :: 0 <= i < j < |s| ==> leq(s[i], s[j])
  }

  /** The elements a comparator does not tell apart from `k`. */
  function ClassOf<T>(leq: (T, T) -> bool, k: T): T -> bool {
    x => leq(x, k) && leq(k, x)
  }

  /** Puts `x` after every element it is not strictly below. */
  function InsertSorted<T>(leq: (T, T) -> bool, x: T, s: seq<T>): (r: seq<T>)
    ensures |r| == |s| + 1
  {
    if s == [] then [x]
    else if leq(s[|s| - 1], x) then s + [x]
    else InsertSorted(leq, x, s[..|s| - 1]) + [s[|s| - 1]]
  }

  /** `Array.prototype.sort`: stable since ECMAScript 2019. SortUnique below shows that any
      sorted arrangement that keeps the order of ties is this one. */
  function Sort<T>(leq: (T, T) -> bool, s: seq<T>): (r: seq<T>)
    ensures |r| == |s|
  {
    if s == [] then [] else InsertSorted(leq, s[|s| - 1], Sort(leq, s[..|s| - 1]))
  }

  lemma {:induction false} InsertPermutes<T>(leq: (T, T) -> bool, x: T, s: seq<T>)
    ensures multiset(InsertSorted(leq, x, s)) == multiset(s) + multiset{x}
  {
    if s != [] && !leq(s[|s| - 1], x) {
      InsertPermutes(leq, x, s[..|s| - 1]);
      assert s == s[..|s| - 1] + [s[|s| - 1]];
    }
  }

  lemma {:induction false} SortPermutes<T>(leq: (T, T) -> bool, s: seq<T>)
    ensures multiset(Sort(leq, s)) == multiset(s)
  {
    if s != [] {
      var n := |s| - 1;
      SortPermutes(leq, s[..n]);
      InsertPermutes(leq, s[n], Sort(leq, s[..n]));
      MultisetPushed(s[..n], s[n]);
      Parted(s);
    }
  }

  lemma {:induction false} PermutationMember<T>(a: seq<T>, b: seq<T>, x: T)
    requires multiset(a) == multiset(b)
    ensures x in a <==> x in b
  {
    assert x in multiset(a) <==> x in a;
    assert x in multiset(b) <==> x in b;
  }

  lemma {:induction false} InsertKeepsSorted<T(!new)>(leq: (T, T) -> bool, x: T, s: seq<T>)
    requires TotalPreorder(leq) && Sorted(leq, s)
    ensures Sorted(leq, InsertSorted(leq, x, s))
  {
    if s != [] {
      var n := |s| - 1;
      var last := s[n];
      if leq(last, x) {
        forall i | 0 <= i < |s| ensures leq(s[i], x) {
          assert leq(s[i], last) || i == n;
        }
      } else {
        InsertKeepsSorted(leq, x, s[..n]);
        var t := InsertSorted(leq, x, s[..n]);
        forall i | 0 <= i < |t| ensures leq(t[i], last) {
          InsertPermutes(leq, x, s[..n]);
          PermutationMember(t, s[..n] + [x], t[i]);
          assert t[i] in s[..n] + [x];
        }
      }
    }
  }

  lemma {:induction false} SortSorts<T(!new)>(leq: (T, T) -> bool, s: seq<T>)
    requires TotalPreorder(leq)
    ensures Sorted(leq, Sort(leq, s))
  {
    if s != [] {
      SortSorts(leq, s[..|s| - 1]);
      InsertKeepsSorted(leq, s[|s| - 1], Sort(leq, s[..|s| - 1]));
    }
  }

  lemma {:induction false} SortOfSorted<T(!new)>(leq: (T, T) -> bool, s: seq<T>)
    requires TotalPreorder(leq) && Sorted(leq, s)
    ensures Sort(leq, s) == s
  {
    if s != [] {
      var n := |s| - 1;
      SortOfSorted(leq, s[..n]);
      assert s == s[..n] + [s[n]];
      assert n > 0 ==> leq(s[n - 1], s[n]);
    }
  }

  lemma {:induction false} InsertPush<T>(leq: (T, T) -> bool, x: T, s: seq<T>, last: T)
    ensures InsertSorted(leq, x, s + [last])
            == if leq(last, x) then s + [last] + [x] else InsertSorted(leq, x, s) + [last]
  {
    assert (s + [last])[..|s|] == s;
  }

  lemma {:induction false} SortPush<T>(leq: (T, T) -> bool, s: seq<T>, x: T)
    ensures Sort(leq, s + [x]) == InsertSorted(leq, x, Sort(leq, s))
  {
    assert (s + [x])[..|s|] == s;
  }

  lemma {:induction false} FilterOfBelow<T(!new)>(leq: (T, T) -> bool, p: T -> bool, x: T, s: seq<T>)
    requires forall i :: 0 <= i < |s| ==> leq(s[i], x)
    ensures InsertSorted(leq, x, Filter(p, s)) == Filter(p, s) + [x]
  {
    var f := Filter(p, s);
    if f != [] {
      FilterMember(p, s, f[|f| - 1]);
    }
  }

  lemma {:induction false} LastIsTop<T(!new)>(leq: (T, T) -> bool, s: seq<T>, x: T)
    requires TotalPreorder(leq) && Sorted(leq, s) && s != [] && leq(s[|s| - 1], x)
    ensures forall i :: 0 <= i < |s| ==> leq(s[i], x)
  {
    forall i | 0 <= i < |s| ensures leq(s[i], x) {
      assert i == |s| - 1 || leq(s[i], s[|s| - 1]);
    }
  }

  /** A filter passes through an insertion into a sorted array. */
  lemma {:induction false} InsertFilter<T(!new)>(leq: (T, T) -> bool, p: T -> bool, x: T, s: seq<T>)
    requires TotalPreorder(leq) && Sorted(leq, s)
    ensures Filter(p, InsertSorted(leq, x, s))
            == if p(x) then InsertSorted(leq, x, Filter(p, s)) else Filter(p, s)
  {
    if s == [] {
      FilterPush(p, s, x);
    } else {
      var t, last := s[..|s| - 1], s[|s| - 1];
      assert s == t + [last];
      if leq(last, x) {
        FilterPush(p, s, x);
        LastIsTop(leq, s, x);
        FilterOfBelow(leq, p, x, s);
      } else {
        InsertFilter(leq, p, x, t);
        FilterPush(p, InsertSorted(leq, x, t), last);
        FilterPush(p, t, last);
        InsertPush(leq, x, Filter(p, t), last);
      }
    }
  }

  /** Stable sorting commutes with every filter. */
  lemma {:induction false} SortFilter<T(!new)>(leq: (T, T) -> bool, p: T -> bool, s: seq<T>)
    requires TotalPreorder(leq)
    ensures Sort(leq, Filter(p, s)) == Filter(p, Sort(leq, s))
  {
    if s != [] {
      var t, x := s[..|s| - 1], s[|s| - 1];
      assert s == t + [x];
      SortFilter(leq, p, t);
      SortSorts(leq, t);
      InsertFilter(leq, p, x, Sort(leq, t));
      FilterPush(p, t, x);
      SortPush(leq, Filter(p, t), x);
      SortPush(leq, t, x);
    }
  }

  /** Ties keep their order. */
  lemma {:induction false} SortStable<T(!new)>(leq: (T, T) -> bool, s: seq<T>, k: T)
    requires TotalPreorder(leq)
    ensures Filter(ClassOf(leq, k), Sort(leq, s)) == Filter(ClassOf(leq, k), s)
  {
    var c := ClassOf(leq, k);
    SortFilter(leq, c, s);
    var f := Filter(c, s);
    forall i, j | 0 <= i < j < |f| ensures leq(f[i], f[j]) {
      FilterMember(c, s, f[i]);
      FilterMember(c, s, f[j]);
      assert leq(f[i], k) && leq(k, f[j]);
    }
    SortOfSorted(leq, f);
  }

  /** Sorted arrays whose tie classes agree are equal. */
  lemma {:induction false} SortedByClasses<T(!new)>(leq: (T, T) -> bool, a: seq<T>, b: seq<T>)
    requires TotalPreorder(leq) && Sorted(leq, a) && Sorted(leq, b)
    requires SameClasses(leq, a, b)
    ensures a == b
  {
    if a == [] || b == [] {
      if a != [] {
        ClassMember(leq, a, b, a[0]);
      } else if b != [] {
        ClassMember(leq, b, a, b[0]);
      }
    } else {
      var s, t, x := a[..|a| - 1], b[..|b| - 1], a[|a| - 1];
      SameLast(leq, a, b);
      assert a == s + [x] && b == t + [x];
      forall k ensures Filter(ClassOf(leq, k), s) == Filter(ClassOf(leq, k), t) {
        var c := ClassOf(leq, k);
        assert Filter(c, a) == Filter(c, b);
        FilterPush(c, s, x);
        FilterPush(c, t, x);
        if c(x) {
          assert (Filter(c, s) + [x])[..|Filter(c, s)|] == Filter(c, s);
          assert (Filter(c, t) + [x])[..|Filter(c, t)|] == Filter(c, t);
        }
      }
      SortedByClasses(leq, s, t);
    }
  }

  ghost predicate SameClasses<T(!new)>(leq: (T, T) -> bool, a: seq<T>, b: seq<T>) {
    forall k :: Filter(ClassOf(leq, k), a) == Filter(ClassOf(leq, k), b)
  }

  lemma {:induction false} ClassMember<T(!new)>(leq: (T, T) -> bool, a: seq<T>, b: seq<T>, x: T)
    requires TotalPreorder(leq) && SameClasses(leq, a, b) && x in a
    ensures x in b
  {
    assert leq(x, x);
    FilterMember(ClassOf(leq, x), a, x);
    FilterMember(ClassOf(leq, x), b, x);
  }

  lemma {:induction false} FilterLast<T>(p: T -> bool, s: seq<T>)
    requires s != [] && p(s[|s| - 1])
    ensures Filter(p, s) != [] && Filter(p, s)[|Filter(p, s)| - 1] == s[|s| - 1]
  {
  }

  lemma {:induction false} SameLast<T(!new)>(leq: (T, T) -> bool, a: seq<T>, b: seq<T>)
    requires TotalPreorder(leq) && Sorted(leq, a) && Sorted(leq, b) && a != [] && b != []
    requires SameClasses(leq, a, b)
    ensures a[|a| - 1] == b[|b| - 1]
  {
    var x, y := a[|a| - 1], b[|b| - 1];
    assert leq(x, x) && leq(y, y);
    ClassMember(leq, a, b, x);
    assert SameClasses(leq, b, a);
    ClassMember(leq, b, a, y);
    var i :| 0 <= i < |b| && b[i] == x;
    var j :| 0 <= j < |a| && a[j] == y;
    assert leq(b[i], y) && leq(a[j], x);
    var c := ClassOf(leq, x);
    FilterLast(c, a);
    FilterLast(c, b);
    assert Filter(c, a) == Filter(c, b);
  }

  /** Any sorted arrangement of `s` that keeps the order of ties is Sort(leq, s). */
  lemma {:induction false} SortUnique<T(!new)>(leq: (T, T) -> bool, s: seq<T>, r: seq<T>)
    requires TotalPreorder(leq) && Sorted(leq, r)
    requires SameClasses(leq, r, s)
    ensures r == Sort(leq, s)
  {
    SortSorts(leq, s);
    forall k ensures Filter(ClassOf(leq, k), r) == Filter(ClassOf(leq, k), Sort(leq, s)) {
      SortStable(leq, s, k);
      assert Filter(ClassOf(leq, k), r) == Filter(ClassOf(leq, k), s);
    }
    SortedByClasses(leq, r, Sort(leq, s));
  }

  /** Two arrays sort to the same array exactly when their tie classes agree. */
  lemma {:induction false} SortEqualIffClasses<T(!new)>(leq: (T, T) -> bool, a: seq<T>, b: seq<T>)
    requires TotalPreorder(leq)
    ensures Sort(leq, a) == Sort(leq, b)
            <==> SameClasses(leq, a, b)
  {
    if Sort(leq, a) == Sort(leq, b) {
      forall k ensures Filter(ClassOf(leq, k), a) == Filter(ClassOf(leq, k), b) {
        SortStable(leq, a, k);
        SortStable(leq, b, k);
      }
    }
    if SameClasses(leq, a, b) {
      forall k ensures Filter(ClassOf(leq, k), Sort(leq, a)) == Filter(ClassOf(leq, k), b) {
        SortStable(leq, a, k);
        assert Filter(ClassOf(leq, k), a) == Filter(ClassOf(leq, k), b);
      }
      SortSorts(leq, a);
      SortUnique(leq, b, Sort(leq, a));
    }
  }
}
