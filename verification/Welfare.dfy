/** `src/storage/repositories/welfare_codes.ts` and the routes over it: codes with a usage limit. */
module Welfare {
  import opened Values
  import opened Seqs
  import opened Tables
  import opened StoreSpec
  import opened Machines

  function HasCode(code: string): Row -> bool {
    r => Get(r, Code) == Str(code)
  }

  function Used(r: Row): int { NumOr0(Get(r, UsedCount)) }
  function Total(r: Row): int { NumOr0(Get(r, TotalCount)) }

  /** `wc.used_count >= wc.total_count`, false when either is no number */
  predicate Spent(r: Row) {
    Get(r, UsedCount).Num? && Get(r, TotalCount).Num? && Used(r) >= Total(r)
  }

  function CodeFound(d: Data, code: string): Option<Row> {
    Find(HasCode(code), Rows(d, WelfareCodes))
  }

  // ---- create, useCode, remove, the raw edit of the admin route, list ----

  function NewCode(data: Row): Row {
    Spread(data, map[TotalCount := Coalesce(Get(data, TotalCount), Num(0)),
                     UsedCount := Coalesce(Get(data, UsedCount), Num(0)),
                     Status := Coalesce(Get(data, Status), Num(1))])
  }

  datatype CodeCall =
    | Create(data: Row, now: string)
    | Use(code: string, now: string)
    | Drop(id: int)
    | Edit(id: int, updates: Row, now: string)
    | List(leq: (Row, Row) -> bool, filtered: bool)

  function CodeOps(d: Data, c: CodeCall): seq<Mutation> {
    match c
    case Create(data, now) => [Insert(WelfareCodes, NewCode(data), now)]
    case Use(code, now) =>
      var wc := CodeFound(d, code);
      if wc.None? || Spent(wc.value) then []
      else [Update(WelfareCodes, IdOf(wc.value), map[UsedCount := Num(Used(wc.value) + 1)], now)]
    case Drop(id) => [RemoveWhere(WelfareCodeItems, Pointing(WelfareCodeId, Num(id))), Remove(WelfareCodes, id)]
    case Edit(id, updates, now) =>
      if Find(ById(id), Rows(d, WelfareCodes)).None? then [] else [Update(WelfareCodes, id, updates, now)]
    case List(leq, filtered) => if filtered then [] else [SortInPlace(WelfareCodes, leq)]
  }

  function CodeBody(c: CodeCall): Data -> Effects {
    d => Effects(CodeOps(d, c), false)
  }

  /** The result of useCode. */
  predicate UseSucceeds(d: Data, code: string) {
    var wc := CodeFound(d, code);
    wc.Some? && !Spent(wc.value) && Find(ById(IdOf(wc.value)), Rows(d, WelfareCodes)).Some?
  }

  datatype Verdict = Missing | Disabled | UsedUp | NotYet | Expired | Valid(row: Row)

  /** validateCode */
  function Validate(d: Data, code: string, now: string): Verdict {
    var wc := CodeFound(d, code);
    if wc.None? then Missing
    else if Get(wc.value, Status) != Num(1) then Disabled
    else if Spent(wc.value) then UsedUp
    else
      var since, till := Get(wc.value, ValidFrom), Get(wc.value, ValidTo);
      if since.Str? && since.s != "" && !StrLeq(since.s, now) then NotYet
      else if till.Str? && till.s != "" && !StrLeq(now, till.s) then Expired
      else Valid(wc.value)
  }

  // ---- The usage limit ----

  predicate CodeOk(r: Row) {
    Get(r, UsedCount).Num? && Get(r, TotalCount).Num? && Used(r) <= Total(r)
  }

  predicate CodesFit(rows: seq<Row>) {
    forall i :: 0 <= i < |rows| ==> CodeOk(rows[i])
  }

  ghost predicate CodesOk(d: Data) {
    Complete(d) && IdsOk(Rows(d, WelfareCodes), Counter(d, WelfareCodes)) && CodesFit(Rows(d, WelfareCodes))
  }

  /** What the body of a raw edit may hold: no id or a free one, and counts within the limit. */
  predicate EditFits(d: Data, id: int, updates: Row, now: string) {
    var rows, i := Rows(d, WelfareCodes), IndexWhere(ById(id), Rows(d, WelfareCodes));
    i == |rows| || (IdFree(rows, id, updates, Counter(d, WelfareCodes)) && CodeOk(Touch(rows[i], updates, now)))
  }

  /** A created code starts within its limit, and an edit fits. */
  predicate FairCall(d: Data, c: CodeCall) {
    match c
    case Create(data, _) => CodeOk(NewCode(data))
    case Edit(id, updates, now) => EditFits(d, id, updates, now)
    case _ => true
  }

  function SumUsed(rows: seq<Row>): int {
    if rows == [] then 0 else SumUsed(rows[..|rows| - 1]) + Used(rows[|rows| - 1])
  }

  lemma {:induction false} SumAppend(a: seq<Row>, b: seq<Row>)
    ensures SumUsed(a + b) == SumUsed(a) + SumUsed(b)
  {
    if b == [] {
      assert a + b == a;
    } else {
      assert (a + b)[..|a + b| - 1] == a + b[..|b| - 1];
      SumAppend(a, b[..|b| - 1]);
    }
  }

  lemma {:induction false} SumThree(a: seq<Row>, x: Row, b: seq<Row>)
    ensures SumUsed(a + [x] + b) == SumUsed(a) + Used(x) + SumUsed(b)
  {
    SumAppend(a + [x], b);
    Pushed(a, x);
  }

  lemma {:induction false} SumReplaced(rows: seq<Row>, i: nat, x: Row)
    requires i < |rows|
    ensures SumUsed(rows[i := x]) == SumUsed(rows) - Used(rows[i]) + Used(x)
  {
    Around(rows, i, x);
    SumThree(rows[..i], rows[i], rows[i + 1..]);
    SumThree(rows[..i], x, rows[i + 1..]);
  }

  lemma {:induction false} SumSpliced(rows: seq<Row>, i: nat)
    requires i < |rows|
    ensures SumUsed(SpliceOut(rows, i)) == SumUsed(rows) - Used(rows[i])
  {
    Around(rows, i, rows[i]);
    SumThree(rows[..i], rows[i], rows[i + 1..]);
    SumAppend(rows[..i], rows[i + 1..]);
  }

  lemma {:induction false} SumInsertSorted(leq: (Row, Row) -> bool, x: Row, s: seq<Row>)
    ensures SumUsed(InsertSorted(leq, x, s)) == SumUsed(s) + Used(x)
  {
    if s != [] && !leq(s[|s| - 1], x) {
      SumInsertSorted(leq, x, s[..|s| - 1]);
      SumAppend(InsertSorted(leq, x, s[..|s| - 1]), [s[|s| - 1]]);
    } else {
      SumAppend(s, [x]);
    }
  }

  lemma {:induction false} SumSort(leq: (Row, Row) -> bool, s: seq<Row>)
    ensures SumUsed(Sort(leq, s)) == SumUsed(s)
  {
    if s != [] {
      SumSort(leq, s[..|s| - 1]);
      SumInsertSorted(leq, s[|s| - 1], Sort(leq, s[..|s| - 1]));
    }
  }

  /** What one call adds to the total of used counts. */
  function Gain(d: Data, c: CodeCall): int {
    match c
    case Create(data, _) => Used(NewCode(data))
    case Use(code, _) => if UseSucceeds(d, code) then 1 else 0
    case Drop(id) =>
      var wc := Find(ById(id), Rows(d, WelfareCodes));
      if wc.Some? then -Used(wc.value) else 0
    case Edit(id, updates, now) =>
      var wc := Find(ById(id), Rows(d, WelfareCodes));
      if wc.Some? then Used(Touch(wc.value, updates, now)) - Used(wc.value) else 0
    case List(_, _) => 0
  }

  lemma {:induction false} FoundById(d: Data, code: string)
    requires CodesOk(d) && CodeFound(d, code).Some?
    ensures
      var wc := CodeFound(d, code).value;
      && Find(ById(IdOf(wc)), Rows(d, WelfareCodes)) == Some(wc) && CodeOk(wc)
      && IndexWhere(ById(IdOf(wc)), Rows(d, WelfareCodes)) == IndexWhere(HasCode(code), Rows(d, WelfareCodes))
  {
    var rows := Rows(d, WelfareCodes);
    var i := IndexWhere(HasCode(code), rows);
    assert ValidId(rows[i], Counter(d, WelfareCodes)) && CodeOk(rows[i]);
    FindByIdMeaning(rows, IdOf(rows[i]), rows[i]);
    var j := IndexWhere(ById(IdOf(rows[i])), rows);
    assert Get(rows[j], Id) == Get(rows[i], Id);
  }

  /** Row i counts one more use. */
  function Counted(rows: seq<Row>, i: nat, now: string): seq<Row>
    requires i < |rows|
  {
    rows[i := Touch(rows[i], map[UsedCount := Num(Used(rows[i]) + 1)], now)]
  }

  function UseOp(rows: seq<Row>, i: nat, now: string): Mutation
    requires i < |rows|
  {
    Update(WelfareCodes, IdOf(rows[i]), map[UsedCount := Num(Used(rows[i]) + 1)], now)
  }

  lemma {:induction false} UseOpRows(d: Data, i: nat, now: string)
    requires i < |Rows(d, WelfareCodes)| && IndexWhere(ById(IdOf(Rows(d, WelfareCodes)[i])), Rows(d, WelfareCodes)) == i
    ensures Rows(ApplyData(d, UseOp(Rows(d, WelfareCodes), i, now)), WelfareCodes)
            == Counted(Rows(d, WelfareCodes), i, now)
  {
    var op := UseOp(Rows(d, WelfareCodes), i, now);
    UpdateStep(d, WelfareCodes, op.id, i, op.updates, now, WelfareCodes, ApplyData(d, op));
  }

  /** A use fails only for want of a code or of uses left, and a success moves that one row's count by one. */
  lemma {:induction false} UseMeaning(d: Data, code: string, now: string)
    requires CodesOk(d)
    ensures
      var rows := Rows(d, WelfareCodes);
      var i := IndexWhere(HasCode(code), rows);
      var e := ApplyAll(d, CodeOps(d, Use(code, now)));
      && (UseSucceeds(d, code) <==> i < |rows| && Used(rows[i]) < Total(rows[i]))
      && Rows(e, WelfareCodes) == if UseSucceeds(d, code) then Counted(rows, i, now) else rows
  {
    if CodeFound(d, code).Some? { FoundById(d, code); }
    if UseSucceeds(d, code) {
      var i := IndexWhere(HasCode(code), Rows(d, WelfareCodes));
      var op := UseOp(Rows(d, WelfareCodes), i, now);
      assert CodeOps(d, Use(code, now)) == [op];
      ApplyOne(d, op);
      UseOpRows(d, i, now);
    } else {
      assert CodeOps(d, Use(code, now)) == [];
      assert ApplyAll(d, []) == d;
    }
  }

  lemma {:induction false} OneMoreUse(rows: seq<Row>, i: nat, now: string)
    requires i < |rows| && CodesFit(rows) && Used(rows[i]) < Total(rows[i])
    ensures CodesFit(Counted(rows, i, now)) && SumUsed(Counted(rows, i, now)) == SumUsed(rows) + 1
  {
    var updates: Row := map[UsedCount := Num(Used(rows[i]) + 1)];
    var x := Touch(rows[i], updates, now);
    assert CodeOk(rows[i]);
    assert TotalCount !in updates && updates[UsedCount] == Num(Used(rows[i]) + 1);
    assert Get(x, TotalCount) == Get(rows[i], TotalCount) && Get(x, UsedCount) == Num(Used(rows[i]) + 1);
    SumReplaced(rows, i, x);
    ReplacedFits(rows, i, x);
  }

  lemma {:induction false} ReplacedFits(rows: seq<Row>, i: nat, x: Row)
    requires CodesFit(rows) && i < |rows| && CodeOk(x)
    ensures CodesFit(rows[i := x])
  {
  }

  lemma {:induction false} SplicedFits(rows: seq<Row>, i: nat)
    requires CodesFit(rows) && i < |rows|
    ensures CodesFit(SpliceOut(rows, i))
  {
  }

  lemma {:induction false} UseKeepsIds(d: Data, code: string, now: string)
    requires CodesOk(d)
    ensures
      var e := ApplyAll(d, CodeOps(d, Use(code, now)));
      Complete(e) && IdsOk(Rows(e, WelfareCodes), Counter(e, WelfareCodes))
  {
    var ops := CodeOps(d, Use(code, now));
    if ops == [] {
      assert ApplyAll(d, ops) == d;
    } else {
      assert ops == [ops[0]];
      ApplyOne(d, ops[0]);
      MutationKeepsTableIds(d, ops[0]);
      ApplyRows(d, ops[0], WelfareCodes);
    }
  }

  lemma {:induction false} UseKeeps(d: Data, code: string, now: string)
    requires CodesOk(d)
    ensures
      var e := ApplyAll(d, CodeOps(d, Use(code, now)));
      CodesOk(e) && SumUsed(Rows(e, WelfareCodes)) == SumUsed(Rows(d, WelfareCodes)) + Gain(d, Use(code, now))
  {
    UseMeaning(d, code, now);
    UseKeepsIds(d, code, now);
    if UseSucceeds(d, code) {
      OneMoreUse(Rows(d, WelfareCodes), IndexWhere(HasCode(code), Rows(d, WelfareCodes)), now);
    }
  }

  lemma {:induction false} CreatedRows(d: Data, data: Row, now: string, e: Data)
    requires CodesOk(d) && e == ApplyAll(d, CodeOps(d, Create(data, now)))
    ensures
      var row := NewRow(NewCode(data), Counter(d, WelfareCodes), now);
      && Rows(e, WelfareCodes) == Rows(d, WelfareCodes) + [row]
      && Complete(e) && IdsOk(Rows(e, WelfareCodes), Counter(e, WelfareCodes))
      && Get(row, UsedCount) == Get(NewCode(data), UsedCount) && Get(row, TotalCount) == Get(NewCode(data), TotalCount)
  {
    var op := Insert(WelfareCodes, NewCode(data), now);
    ApplyOne(d, op);
    MutationKeepsTableIds(d, op);
    InsertStep(d, WelfareCodes, NewCode(data), now, WelfareCodes, e);
  }

  /** The admin route passes its raw body to create: the codes stay within their limits exactly when that of
      the body does, with 0 for a missing count. */
  lemma {:induction false} CreateKeepsIff(d: Data, data: Row, now: string)
    requires CodesOk(d)
    ensures
      var e := ApplyAll(d, CodeOps(d, Create(data, now)));
      && (CodesOk(e) <==> CodeOk(NewCode(data)))
      && SumUsed(Rows(e, WelfareCodes)) == SumUsed(Rows(d, WelfareCodes)) + Gain(d, Create(data, now))
  {
    var rows, row := Rows(d, WelfareCodes), NewRow(NewCode(data), Counter(d, WelfareCodes), now);
    CreatedRows(d, data, now, ApplyAll(d, CodeOps(d, Create(data, now))));
    PushedCode(rows, row);
  }

  lemma {:induction false} PushedCode(rows: seq<Row>, row: Row)
    requires CodesFit(rows)
    ensures CodesFit(rows + [row]) <==> CodeOk(row)
    ensures SumUsed(rows + [row]) == SumUsed(rows) + Used(row)
  {
    OneMoreCode(rows, row);
    assert (rows + [row])[|rows|] == row;
  }

  lemma {:induction false} OneMoreCode(rows: seq<Row>, row: Row)
    requires CodesFit(rows)
    ensures CodeOk(row) ==> CodesFit(rows + [row])
    ensures SumUsed(rows + [row]) == SumUsed(rows) + Used(row)
  {
    Pushed(rows, row);
  }

  lemma {:induction false} RemoveKeeps(d: Data, id: int)
    requires CodesOk(d)
    ensures
      var e := ApplyAll(d, CodeOps(d, Drop(id)));
      CodesOk(e) && SumUsed(Rows(e, WelfareCodes)) == SumUsed(Rows(d, WelfareCodes)) + Gain(d, Drop(id))
  {
    DropRows(d, id);
    RemoveKeepsIds(Rows(d, WelfareCodes), Counter(d, WelfareCodes), id);
    OneCodeLess(Rows(d, WelfareCodes), id);
  }

  lemma {:induction false} OneCodeLess(rows: seq<Row>, id: int)
    requires CodesFit(rows)
    ensures
      var i := IndexWhere(ById(id), rows);
      && CodesFit(RemoveRow(rows, id))
      && SumUsed(RemoveRow(rows, id)) == SumUsed(rows) - if i < |rows| then Used(rows[i]) else 0
  {
    var i := IndexWhere(ById(id), rows);
    if i < |rows| {
      SumSpliced(rows, i);
      SplicedFits(rows, i);
    }
  }

  lemma {:induction false} DropRows(d: Data, id: int)
    requires Complete(d)
    ensures
      var e := ApplyAll(d, CodeOps(d, Drop(id)));
      && Complete(e) && Counter(e, WelfareCodes) == Counter(d, WelfareCodes)
      && Rows(e, WelfareCodes) == RemoveRow(Rows(d, WelfareCodes), id)
  {
    var ops := CodeOps(d, Drop(id));
    ApplyTwo(d, ops[0], ops[1]);
    assert ops == [ops[0], ops[1]];
    ApplyRows(d, ops[0], WelfareCodes);
    ApplyRows(ApplyData(d, ops[0]), ops[1], WelfareCodes);
  }

  lemma {:induction false} ListKeeps(d: Data, leq: (Row, Row) -> bool, filtered: bool)
    requires CodesOk(d)
    ensures
      var e := ApplyAll(d, CodeOps(d, List(leq, filtered)));
      CodesOk(e) && SumUsed(Rows(e, WelfareCodes)) == SumUsed(Rows(d, WelfareCodes))
  {
    if filtered {
      assert ApplyAll(d, []) == d;
    } else {
      var op := SortInPlace(WelfareCodes, leq);
      var rows := Rows(d, WelfareCodes);
      ApplyOne(d, op);
      MutationKeepsTableIds(d, op);
      ApplyRows(d, op, WelfareCodes);
      SortPermutes(leq, rows);
      SumSort(leq, rows);
      forall i | 0 <= i < |rows| ensures CodeOk(Sort(leq, rows)[i]) {
        PermutationMember(Sort(leq, rows), rows, Sort(leq, rows)[i]);
        var k :| 0 <= k < |rows| && rows[k] == Sort(leq, rows)[i];
      }
    }
  }

  lemma {:induction false} ReplacedFitsIff(rows: seq<Row>, i: nat, x: Row)
    requires CodesFit(rows) && i < |rows|
    ensures CodesFit(rows[i := x]) <==> CodeOk(x)
  {
    assert rows[i := x][i] == x;
    if CodeOk(x) { ReplacedFits(rows, i, x); }
  }

  lemma {:induction false} EditedRowsIff(rows: seq<Row>, next: int, id: int, updates: Row, now: string, after: seq<Row>)
    requires IdsOk(rows, next) && CodesFit(rows) && after == UpdateRow(rows, id, updates, now)
    ensures
      var i := IndexWhere(ById(id), rows);
      && (IdsOk(after, next) && CodesFit(after)
          <==> i == |rows| || (IdFree(rows, id, updates, next) && CodeOk(Touch(rows[i], updates, now))))
      && SumUsed(after) == SumUsed(rows) + if i < |rows| then Used(Touch(rows[i], updates, now)) - Used(rows[i]) else 0
  {
    var i := IndexWhere(ById(id), rows);
    UpdateKeepsIdsIff(rows, next, id, updates, now);
    if i < |rows| {
      ReplacedFitsIff(rows, i, Touch(rows[i], updates, now));
      SumReplaced(rows, i, Touch(rows[i], updates, now));
    }
  }

  lemma {:induction false} EditedTable(d: Data, id: int, updates: Row, now: string, e: Data)
    requires e == ApplyAll(d, CodeOps(d, Edit(id, updates, now)))
    ensures Rows(e, WelfareCodes) == UpdateRow(Rows(d, WelfareCodes), id, updates, now)
    ensures Counter(e, WelfareCodes) == Counter(d, WelfareCodes) && (Complete(d) ==> Complete(e))
  {
    if Find(ById(id), Rows(d, WelfareCodes)).None? {
      assert ApplyAll(d, []) == d;
    } else {
      var op := Update(WelfareCodes, id, updates, now);
      ApplyOne(d, op);
      ApplyRows(d, op, WelfareCodes);
    }
  }

  /** The admin route passes its raw body to update. The codes stay within their limits exactly when there is
      no such code, or the body's id is free and the counts it leaves fit. */
  lemma {:induction false} EditKeepsIff(d: Data, id: int, updates: Row, now: string)
    requires CodesOk(d)
    ensures
      var e := ApplyAll(d, CodeOps(d, Edit(id, updates, now)));
      && (CodesOk(e) <==> EditFits(d, id, updates, now))
      && SumUsed(Rows(e, WelfareCodes)) == SumUsed(Rows(d, WelfareCodes)) + Gain(d, Edit(id, updates, now))
  {
    var e := ApplyAll(d, CodeOps(d, Edit(id, updates, now)));
    EditedTable(d, id, updates, now, e);
    EditedRowsIff(Rows(d, WelfareCodes), Counter(d, WelfareCodes), id, updates, now, Rows(e, WelfareCodes));
  }

  /** A body with more uses than the limit, put on any stored code. */
  lemma {:induction false} RawEditBreaksLimit(d: Data, id: int, now: string)
    requires CodesOk(d) && Find(ById(id), Rows(d, WelfareCodes)).Some?
    ensures !CodesOk(ApplyAll(d, CodeOps(d, Edit(id, map[UsedCount := Num(2), TotalCount := Num(1)], now))))
  {
    var updates: Row := map[UsedCount := Num(2), TotalCount := Num(1)];
    assert updates[UsedCount] == Num(2) && updates[TotalCount] == Num(1);
    OverLimit(d, id, updates, now);
  }

  lemma {:induction false} OverLimit(d: Data, id: int, updates: Row, now: string)
    requires CodesOk(d) && Find(ById(id), Rows(d, WelfareCodes)).Some?
    requires UsedCount in updates && TotalCount in updates && updates[UsedCount] == Num(2)
             && updates[TotalCount] == Num(1)
    ensures !CodesOk(ApplyAll(d, CodeOps(d, Edit(id, updates, now))))
  {
    TwoOfOne(Find(ById(id), Rows(d, WelfareCodes)).value, updates, now);
    assert !EditFits(d, id, updates, now);
    EditKeepsIff(d, id, updates, now);
  }

  lemma {:induction false} TwoOfOne(r: Row, updates: Row, now: string)
    requires UsedCount in updates && TotalCount in updates && updates[UsedCount] == Num(2)
             && updates[TotalCount] == Num(1)
    ensures !CodeOk(Touch(r, updates, now))
  {
    assert Get(Touch(r, updates, now), UsedCount) == Num(2) && Get(Touch(r, updates, now), TotalCount) == Num(1);
  }

  /** What each call keeps, exactly, and what it adds to the total of used counts. */
  lemma {:induction false} CallKeepsIff(d: Data, c: CodeCall)
    requires CodesOk(d)
    ensures
      var e := ApplyAll(d, CodeOps(d, c));
      && (CodesOk(e) <==> FairCall(d, c))
      && SumUsed(Rows(e, WelfareCodes)) == SumUsed(Rows(d, WelfareCodes)) + Gain(d, c)
  {
    match c
    case Create(data, now) => CreateKeepsIff(d, data, now);
    case Use(code, now) => UseKeeps(d, code, now);
    case Drop(id) => RemoveKeeps(d, id);
    case Edit(id, updates, now) => EditKeepsIff(d, id, updates, now);
    case List(leq, filtered) => ListKeeps(d, leq, filtered);
  }

  function After(d: Data, calls: seq<CodeCall>): Data {
    if calls == [] then d
    else
      var before := After(d, calls[..|calls| - 1]);
      ApplyAll(before, CodeOps(before, calls[|calls| - 1]))
  }

  function Gains(d: Data, calls: seq<CodeCall>): int {
    if calls == [] then 0
    else Gains(d, calls[..|calls| - 1]) + Gain(After(d, calls[..|calls| - 1]), calls[|calls| - 1])
  }

  ghost predicate AllFair(d: Data, calls: seq<CodeCall>) {
    forall i :: 0 <= i < |calls| ==> FairCall(After(d, calls[..i]), calls[i])
  }

  lemma {:induction false} FairBefore(d: Data, calls: seq<CodeCall>, n: nat)
    requires AllFair(d, calls) && n <= |calls|
    ensures AllFair(d, calls[..n])
  {
    forall i | 0 <= i < n ensures FairCall(After(d, calls[..n][..i]), calls[..n][i]) {
      assert calls[..n][..i] == calls[..i];
      assert FairCall(After(d, calls[..i]), calls[i]);
    }
  }

  /** Over every run, also with duplicate codes and with lists that reorder them, each row stays within its
      limit, and the total of used counts is what it was plus one for every successful use, plus what
      created rows and edits bring and minus what removed rows take. */
  lemma {:induction false} UsesAreConserved(d: Data, calls: seq<CodeCall>)
    requires CodesOk(d) && AllFair(d, calls)
    ensures CodesOk(After(d, calls))
    ensures SumUsed(Rows(After(d, calls), WelfareCodes)) == SumUsed(Rows(d, WelfareCodes)) + Gains(d, calls)
  {
    if calls != [] {
      var n := |calls| - 1;
      FairBefore(d, calls, n);
      UsesAreConserved(d, calls[..n]);
      assert FairCall(After(d, calls[..n]), calls[n]);
      CallKeepsIff(After(d, calls[..n]), calls[n]);
    }
  }

  /** The limits hold after every call of a run if and only if every call of it is fair where it is made. */
  lemma {:induction false} LimitsIffFair(d: Data, calls: seq<CodeCall>)
    requires CodesOk(d)
    ensures (forall n :: 0 <= n <= |calls| ==> CodesOk(After(d, calls[..n]))) <==> AllFair(d, calls)
  {
    if AllFair(d, calls) {
      forall n | 0 <= n <= |calls| ensures CodesOk(After(d, calls[..n])) {
        FairBefore(d, calls, n);
        UsesAreConserved(d, calls[..n]);
      }
    }
    if forall n :: 0 <= n <= |calls| ==> CodesOk(After(d, calls[..n])) {
      forall i | 0 <= i < |calls| ensures FairCall(After(d, calls[..i]), calls[i]) {
        Prefix(calls, i);
        assert CodesOk(After(d, calls[..i])) && CodesOk(After(d, calls[..i + 1]));
        CallKeepsIff(After(d, calls[..i]), calls[i]);
      }
    }
  }

  predicate InWindow(r: Row, now: string) {
    var since, till := Get(r, ValidFrom), Get(r, ValidTo);
    (since.Str? && since.s != "" ==> StrLeq(since.s, now)) && (till.Str? && till.s != "" ==> StrLeq(now, till.s))
  }

  /** The `/use` route validates and then uses in one turn: after a valid verdict the use succeeds. A use
      without the verdict also succeeds on a code that is disabled or outside its dates, and on no other. */
  lemma {:induction false} ValidThenUsed(d: Data, code: string, now: string)
    requires CodesOk(d)
    ensures Validate(d, code, now).Valid?
            <==> && UseSucceeds(d, code)
                 && Get(CodeFound(d, code).value, Status) == Num(1) && InWindow(CodeFound(d, code).value, now)
  {
    if CodeFound(d, code).Some? { FoundById(d, code); }
  }

  // ---- Other handlers ----

  /** A change that leaves ids and counts of codes alone. Codes may come, within their limit, and go. */
  predicate CodeNeutral(m: Mutation) {
    m.t == WelfareCodes ==>
      match m
      case Insert(_, row, _) => CodeOk(row)
      case Update(_, _, updates, _) => Id !in updates && UsedCount !in updates && TotalCount !in updates
      case UpdateWhere(_, _, updates, _) => Id !in updates && UsedCount !in updates && TotalCount !in updates
      case _ => true
  }

  lemma {:induction false} SomeCodesFit(rows: seq<Row>, some: seq<Row>)
    requires CodesFit(rows) && forall i :: 0 <= i < |some| ==> some[i] in rows
    ensures CodesFit(some)
  {
    forall i | 0 <= i < |some| ensures CodeOk(some[i]) {
      var k :| 0 <= k < |rows| && rows[k] == some[i];
    }
  }

  lemma {:induction false} TouchedCode(r: Row, updates: Row, now: string)
    requires CodeOk(r) && UsedCount !in updates && TotalCount !in updates
    ensures CodeOk(Touch(r, updates, now))
  {
    var x := Touch(r, updates, now);
    assert Get(x, UsedCount) == Get(r, UsedCount) && Get(x, TotalCount) == Get(r, TotalCount);
  }

  lemma {:induction false} TouchedFits(rows: seq<Row>, updates: Row, now: string, after: seq<Row>)
    requires CodesFit(rows) && UsedCount !in updates && TotalCount !in updates && |after| == |rows|
    requires forall i :: 0 <= i < |rows| ==> after[i] == rows[i] || after[i] == Touch(rows[i], updates, now)
    ensures CodesFit(after)
  {
    forall i | 0 <= i < |rows| ensures CodeOk(after[i]) {
      assert CodeOk(rows[i]);
      TouchedCode(rows[i], updates, now);
    }
  }

  lemma {:induction false} InsertFits(rows: seq<Row>, row: Row, id: int, now: string)
    requires CodesFit(rows) && CodeOk(row)
    ensures CodesFit(rows + [NewRow(row, id, now)])
  {
    var x := NewRow(row, id, now);
    assert Get(x, UsedCount) == Get(row, UsedCount) && Get(x, TotalCount) == Get(row, TotalCount);
    OneMoreCode(rows, x);
  }

  lemma {:induction false} FilterFits(p: Row -> bool, rows: seq<Row>)
    requires CodesFit(rows)
    ensures CodesFit(Filter(p, rows))
  {
    forall i | 0 <= i < |Filter(p, rows)| ensures Filter(p, rows)[i] in rows {
      FilterMember(p, rows, Filter(p, rows)[i]);
    }
    SomeCodesFit(rows, Filter(p, rows));
  }

  lemma {:induction false} SortFits(leq: (Row, Row) -> bool, rows: seq<Row>)
    requires CodesFit(rows)
    ensures CodesFit(Sort(leq, rows))
  {
    SortPermutes(leq, rows);
    forall i | 0 <= i < |Sort(leq, rows)| ensures Sort(leq, rows)[i] in rows {
      PermutationMember(Sort(leq, rows), rows, Sort(leq, rows)[i]);
    }
    SomeCodesFit(rows, Sort(leq, rows));
  }

  lemma {:induction false} UpdateFits(rows: seq<Row>, id: int, updates: Row, now: string)
    requires CodesFit(rows) && UsedCount !in updates && TotalCount !in updates
    ensures CodesFit(UpdateRow(rows, id, updates, now))
  {
    var i := IndexWhere(ById(id), rows);
    if i < |rows| {
      assert CodeOk(rows[i]);
      TouchedCode(rows[i], updates, now);
      ReplacedFits(rows, i, Touch(rows[i], updates, now));
    }
  }

  lemma {:induction false} NeutralRows(d: Data, m: Mutation)
    requires CodesOk(d) && CodeNeutral(m) && m.t == WelfareCodes
    ensures CodesFit(NewRows(d, m))
  {
    var rows := Rows(d, WelfareCodes);
    match m
    case Bump(_) =>
    case Insert(_, row, now) => InsertFits(rows, row, Counter(d, WelfareCodes), now);
    case Update(_, id, updates, now) => UpdateFits(rows, id, updates, now);
    case UpdateWhere(_, p, updates, now) => TouchedFits(rows, updates, now, UpdateRows(rows, p, updates, now));
    case Remove(_, id) => if IndexWhere(ById(id), rows) < |rows| { SplicedFits(rows, IndexWhere(ById(id), rows)); }
    case RemoveWhere(_, p) => FilterFits(Except(p), rows);
    case SortInPlace(_, leq) => SortFits(leq, rows);
  }

  lemma {:induction false} NeutralKeepsCodes(d: Data, ops: seq<Mutation>)
    requires CodesOk(d) && forall i :: 0 <= i < |ops| ==> CodeNeutral(ops[i])
    ensures CodesOk(ApplyAll(d, ops))
  {
    if ops != [] {
      var e, m := ApplyAll(d, ops[..|ops| - 1]), ops[|ops| - 1];
      NeutralKeepsCodes(d, ops[..|ops| - 1]);
      ApplyRows(e, m, WelfareCodes);
      if m.t == WelfareCodes {
        NeutralRows(e, m);
        MutationKeepsTableIds(e, m);
      }
    }
  }

  /** A call on the codes, or any handler whose changes are neutral. */
  ghost predicate CodeHandler(a: Action, d: Data) {
    a.Handle? ==> (exists c :: a.body == CodeBody(c) && FairCall(d, c))
                  || forall i :: 0 <= i < |a.body(d).ops| ==> CodeNeutral(a.body(d).ops[i])
  }

  lemma {:induction false} CodeHandlerKeeps(a: Action, d: Data)
    requires CodesOk(d) && a.Handle? && CodeHandler(a, d)
    ensures CodesOk(ApplyAll(d, a.body(d).ops))
  {
    if c :| a.body == CodeBody(c) && FairCall(d, c) {
      CallKeepsIff(d, c);
    } else {
      NeutralKeepsCodes(d, a.body(d).ops);
    }
  }

  /** No code ever exceeds its limit, in memory, on disk and after every crash, in any run of fair calls on
      the codes and of other handlers that leave ids and counts of codes alone. */
  lemma {:induction false} LimitsOverRuns(m: Machine, es: seq<Event>)
    requires Inv(m) && Everywhere(d => CodesOk(d), m)
    requires forall i :: 0 <= i < |es| ==> CodeHandler(es[i].a, Memory(Run(m, es[..i]))) && !es[i].a.ClearAll?
    ensures Everywhere(d => CodesOk(d), Run(m, es))
  {
    var P := d => CodesOk(d);
    forall i | 0 <= i < |es| ensures KeepsHere(P, Run(m, es[..i]), es[i].a) {
      var a, d := es[i].a, Memory(Run(m, es[..i]));
      assert CodeHandler(a, d);
      if a.Handle? && P(d) { CodeHandlerKeeps(a, d); }
    }
    assert Everywhere(P, m);
    InvariantAlongRun(P, m, es);
  }
}
