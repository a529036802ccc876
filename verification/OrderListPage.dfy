/** The order list of the mini program, `miniapp/pages/order-list/index.js`: a page that loads more rows as
    the user scrolls, against a server that answers with pages of an unchanged sorted list. */
module OrderListPages {
  import opened Values
  import opened Seqs
  import opened Listing

  /** A request waits for the login first, and reads the page number when it is sent. */
  datatype Request = LoggingIn(replace: bool) | Sent(replace: bool, page: int)

  /** `waiting` holds the requests under way. */
  datatype Client = Client(loading: bool, orders: seq<Row>, page: int, total: int, waiting: multiset<Request>)

  const PAGE_SIZE := 10

  const OPENED := Client(true, [], 1, 0, multiset{})

  function Reloading(c: Client): Client {
    Client(true, [], 1, c.total, c.waiting + multiset{LoggingIn(true)})
  }

  /** onReachBottom */
  function Reached(c: Client): Client {
    if c.loading || |c.orders| >= c.total then c
    else c.(page := (if c.page == 0 then 1 else c.page) + 1, loading := true,
            waiting := c.waiting + multiset{LoggingIn(false)})
  }

  function LoggedIn(c: Client, replace: bool): Client {
    if LoggingIn(replace) !in c.waiting then c
    else c.(waiting := c.waiting - multiset{LoggingIn(replace)} + multiset{Sent(replace, c.page)})
  }

  predicate Answerable(c: Client, r: Request) {
    r.Sent? && r in c.waiting
  }

  function Received(c: Client, r: Request, rows: seq<Row>, total: int): Client {
    if !Answerable(c, r) then c
    else c.(orders := if r.replace then rows else c.orders + rows, total := total, loading := false,
            waiting := c.waiting - multiset{r})
  }

  /** The login or the request failed. */
  function Failed(c: Client, r: Request): Client {
    if r !in c.waiting then c else c.(loading := false, waiting := c.waiting - multiset{r})
  }

  class OrderListPage {
    var loading: bool
    var orders: seq<Row>
    var page: int
    var total: int
    ghost var waiting: multiset<Request>

    ghost function View(): Client
      reads this
    {
      Client(loading, orders, page, total, waiting)
    }

    constructor ()
      ensures View() == OPENED
    {
      loading, orders, page, total, waiting := true, [], 1, 0, multiset{};
    }

    /** reload, up to its wait for the login */
    method Reload()
      modifies this
      ensures View() == Reloading(old(View()))
    {
      page, orders := 1, [];
      loading := true;
      waiting := waiting + multiset{LoggingIn(true)};
    }

    method OnReachBottom() returns (asked: bool)
      modifies this
      ensures View() == Reached(old(View()))
      ensures asked <==> !old(loading) && old(|orders|) < old(total)
    {
      if loading { return false; }
      if |orders| >= total { return false; }
      page := (if page == 0 then 1 else page) + 1;
      loading := true;
      waiting := waiting + multiset{LoggingIn(false)};
      asked := true;
    }

    /** loadOrders after the login: the request is for the page of that moment. */
    method OnLogin(ghost isReplace: bool) returns (asked: int)
      requires LoggingIn(isReplace) in waiting
      modifies this
      ensures View() == LoggedIn(old(View()), isReplace)
      ensures asked == old(page) && Sent(isReplace, asked) in waiting
    {
      asked := page;
      waiting := waiting - multiset{LoggingIn(isReplace)} + multiset{Sent(isReplace, page)};
    }

    /** The rest of loadOrders, when the request succeeds. Other requests may be under way. */
    method OnAnswer(isReplace: bool, ghost asked: int, rows: seq<Row>, count: int)
      requires Sent(isReplace, asked) in waiting
      modifies this
      ensures View() == Received(old(View()), Sent(isReplace, asked), rows, count)
    {
      orders := if isReplace then rows else orders + rows;
      total := count;
      loading := false;
      waiting := waiting - multiset{Sent(isReplace, asked)};
    }

    /** The catch branch of loadOrders. */
    method OnFailure(ghost r: Request)
      requires r in waiting
      modifies this
      ensures View() == Failed(old(View()), r)
    {
      loading := false;
      waiting := waiting - multiset{r};
    }
  }

  // ---- Runs ----

  /** The page is shown or pulled down, scrolled to its end, or a login ends, or a request is answered or fails. */
  datatype Event = Show | Reach | Login(replace: bool) | Reply(r: Request) | Fail(r: Request)

  /** The server's answer to a request, each row passed through `show`. */
  function AnswerTo(all: seq<Row>, show: Row -> Row, r: Request): seq<Row> {
    if r.Sent? then Map(show, Page(all, r.page, PAGE_SIZE)) else []
  }

  function Next(all: seq<Row>, show: Row -> Row, c: Client, e: Event): Client {
    match e
    case Show => Reloading(c)
    case Reach => Reached(c)
    case Login(replace) => LoggedIn(c, replace)
    case Reply(r) => Received(c, r, AnswerTo(all, show, r), |all|)
    case Fail(r) => Failed(c, r)
  }

  function Run(all: seq<Row>, show: Row -> Row, c: Client, es: seq<Event>): Client {
    if es == [] then c else Next(all, show, Run(all, show, c, es[..|es| - 1]), es[|es| - 1])
  }

  /** No request is made while another is under way. Scrolling never does that. */
  predicate NoOverlap(all: seq<Row>, show: Row -> Row, es: seq<Event>) {
    es == [] || (NoOverlap(all, show, es[..|es| - 1])
                 && (es[|es| - 1].Show? ==> Run(all, show, OPENED, es[..|es| - 1]).waiting == multiset{}))
  }

  /** Whether a request has failed since the last reload, after the event. */
  predicate FailedNext(c: Client, e: Event, failed: bool) {
    match e
    case Show => false
    case Fail(r) => r in c.waiting || failed
    case _ => failed
  }

  /** A request has failed since the page was last shown or pulled down. */
  predicate FailedSinceShow(all: seq<Row>, show: Row -> Row, es: seq<Event>) {
    es != []
    && FailedNext(Run(all, show, OPENED, es[..|es| - 1]), es[|es| - 1], FailedSinceShow(all, show, es[..|es| - 1]))
  }

  /** The first n pages of the list, as the client shows them. */
  function Shown(all: seq<Row>, show: Row -> Row, n: int): (r: seq<Row>)
    ensures |r| == Upto(all, n)
  {
    Map(show, all[..Upto(all, n)])
  }

  function Upto(all: seq<Row>, n: int): (k: nat)
    ensures k <= |all|
  {
    if n <= 0 then 0 else if n * PAGE_SIZE < |all| then n * PAGE_SIZE else |all|
  }

  /** Just one request is under way, and if it has been sent it is for the page of the client. */
  predicate Current(c: Client, r: Request) {
    c.waiting == multiset{r} && c.loading && (r.LoggingIn? || r.page == c.page)
  }

  /** Idle, with the first `page` pages. */
  predicate Rests(all: seq<Row>, show: Row -> Row, c: Client) {
    c.waiting == multiset{} && !c.loading && c.page >= 1 && c.total == |all| && c.orders == Shown(all, show, c.page)
  }

  /** Waiting for page 1 after a reload, or for the page after those in the list. */
  predicate Awaits(all: seq<Row>, show: Row -> Row, c: Client, r: Request) {
    && Current(c, r)
    && if r.replace then c.page == 1 && c.orders == []
       else && c.total == |all| && c.page >= 2 && c.orders == Shown(all, show, c.page - 1)
            && (c.page - 1) * PAGE_SIZE < |all|
  }

  /** No request has failed since the last reload. */
  ghost predicate InStep(all: seq<Row>, show: Row -> Row, c: Client) {
    c == OPENED || Rests(all, show, c) || exists r :: Awaits(all, show, c, r)
  }

  /** A request has: rows are missing, and will be until the next reload. */
  ghost predicate Lagging(all: seq<Row>, c: Client) {
    LagRests(all, c) || exists r :: LagAwaits(all, c, r)
  }

  predicate LagRests(all: seq<Row>, c: Client) {
    c.waiting == multiset{} && !c.loading && c.page >= 1 && Short(all, c, c.page)
  }

  predicate LagAwaits(all: seq<Row>, c: Client, r: Request) {
    Current(c, r) && !r.replace && c.page >= 2 && Short(all, c, c.page - 1)
  }

  predicate Short(all: seq<Row>, c: Client, pages: int) {
    if all == [] then c.orders == [] else |c.orders| < Upto(all, pages)
  }

  lemma {:induction false} MapAppend(g: Row -> Row, a: seq<Row>, b: seq<Row>)
    ensures Map(g, a + b) == Map(g, a) + Map(g, b)
  {
  }

  lemma {:induction false} PageOf(all: seq<Row>, n: int)
    requires n >= 1
    ensures Upto(all, n - 1) <= Upto(all, n)
    ensures Page(all, n, PAGE_SIZE) == all[Upto(all, n - 1)..Upto(all, n)]
    ensures (n - 1) * PAGE_SIZE < |all| ==> Upto(all, n - 1) < Upto(all, n)
  {
    PageAt(all, n, PAGE_SIZE);
  }

  lemma {:induction false} NextPage(all: seq<Row>, show: Row -> Row, n: int)
    requires n >= 1
    ensures Shown(all, show, n - 1) + Map(show, Page(all, n, PAGE_SIZE)) == Shown(all, show, n)
  {
    PageOf(all, n);
    assert all[..Upto(all, n)] == all[..Upto(all, n - 1)] + Page(all, n, PAGE_SIZE);
    MapAppend(show, all[..Upto(all, n - 1)], Page(all, n, PAGE_SIZE));
  }

  lemma {:induction false} ReplyRests(all: seq<Row>, show: Row -> Row, c: Client, r: Request)
    requires Awaits(all, show, c, r) && r.Sent?
    ensures Rests(all, show, Received(c, r, AnswerTo(all, show, r), |all|))
  {
    NextPage(all, show, c.page);
    Whole(AnswerTo(all, show, r));
    assert Shown(all, show, 0) == [];
  }

  lemma {:induction false} LoginAwaits(all: seq<Row>, show: Row -> Row, c: Client, r: Request)
    requires Awaits(all, show, c, r) && r.LoggingIn?
    ensures Awaits(all, show, LoggedIn(c, r.replace), Sent(r.replace, c.page))
  {
  }

  lemma {:induction false} ReloadAwaits(all: seq<Row>, show: Row -> Row, c: Client)
    requires c.waiting == multiset{}
    ensures Awaits(all, show, Reloading(c), LoggingIn(true))
  {
  }

  lemma {:induction false} ReachStays(all: seq<Row>, show: Row -> Row, c: Client)
    requires Rests(all, show, c)
    ensures Reached(c) == c || Awaits(all, show, Reached(c), LoggingIn(false))
  {
    assert |Shown(all, show, c.page)| == Upto(all, c.page);
  }

  lemma {:induction false} AwaitsStays(all: seq<Row>, show: Row -> Row, c: Client, e: Event, r: Request)
    requires Awaits(all, show, c, r) && (e.Fail? ==> e.r !in c.waiting) && !e.Show?
    ensures InStep(all, show, Next(all, show, c, e))
  {
    if e.Reply? && Answerable(c, e.r) {
      ReplyRests(all, show, c, r);
    } else if e.Login? && LoggingIn(e.replace) in c.waiting {
      LoginAwaits(all, show, c, r);
    } else {
      assert Next(all, show, c, e) == c;
    }
  }

  lemma {:induction false} StepStays(all: seq<Row>, show: Row -> Row, c: Client, e: Event)
    requires InStep(all, show, c) && (e.Fail? ==> e.r !in c.waiting) && (e.Show? ==> c.waiting == multiset{})
    ensures InStep(all, show, Next(all, show, c, e))
  {
    if e.Show? {
      ReloadAwaits(all, show, c);
    } else if r :| Awaits(all, show, c, r) {
      AwaitsStays(all, show, c, e, r);
    } else if e.Reach? && c != OPENED {
      ReachStays(all, show, c);
    } else {
      assert Next(all, show, c, e) == c;
    }
  }

  /** The first failure leaves the list short. */
  lemma {:induction false} FailureLags(all: seq<Row>, show: Row -> Row, c: Client, r: Request)
    requires InStep(all, show, c) && r in c.waiting
    ensures LagRests(all, Failed(c, r))
  {
    var r' :| Awaits(all, show, c, r');
    PageOf(all, c.page);
  }

  lemma {:induction false} LagReply(all: seq<Row>, show: Row -> Row, c: Client, r: Request)
    requires LagAwaits(all, c, r) && r.Sent?
    ensures LagRests(all, Received(c, r, AnswerTo(all, show, r), |all|))
  {
    PageOf(all, c.page);
  }

  lemma {:induction false} LagAwaitsStays(all: seq<Row>, show: Row -> Row, c: Client, e: Event, r: Request)
    requires LagAwaits(all, c, r) && !e.Show?
    ensures Lagging(all, Next(all, show, c, e))
  {
    PageOf(all, c.page);
    if e.Reply? && Answerable(c, e.r) {
      LagReply(all, show, c, r);
    } else if e.Fail? && e.r in c.waiting {
      assert LagRests(all, Failed(c, r));
    } else if e.Login? && LoggingIn(e.replace) in c.waiting {
      assert LagAwaits(all, LoggedIn(c, r.replace), Sent(r.replace, c.page));
    } else {
      assert Next(all, show, c, e) == c;
    }
  }

  /** And nothing but a reload makes it whole. */
  lemma {:induction false} LagStays(all: seq<Row>, show: Row -> Row, c: Client, e: Event)
    requires Lagging(all, c) && !e.Show?
    ensures Lagging(all, Next(all, show, c, e))
  {
    if r :| LagAwaits(all, c, r) {
      LagAwaitsStays(all, show, c, e, r);
    } else if e.Reach? && Reached(c) != c {
      assert LagAwaits(all, Reached(c), LoggingIn(false));
    } else {
      assert Next(all, show, c, e) == c;
    }
  }

  ghost predicate Known(all: seq<Row>, show: Row -> Row, c: Client, failed: bool) {
    if failed then Lagging(all, c) else InStep(all, show, c)
  }

  lemma {:induction false} StepKnown(all: seq<Row>, show: Row -> Row, c: Client, e: Event, failed: bool)
    requires Known(all, show, c, failed) && (e.Show? ==> c.waiting == multiset{})
    ensures Known(all, show, Next(all, show, c, e), FailedNext(c, e, failed))
  {
    if e.Show? {
      ReloadAwaits(all, show, c);
    } else if failed {
      LagStays(all, show, c, e);
    } else if e.Fail? && e.r in c.waiting {
      FailureLags(all, show, c, e.r);
    } else {
      StepStays(all, show, c, e);
    }
  }

  lemma {:induction false} InStepOrLagging(all: seq<Row>, show: Row -> Row, es: seq<Event>)
    requires NoOverlap(all, show, es)
    ensures Known(all, show, Run(all, show, OPENED, es), FailedSinceShow(all, show, es))
  {
    if es != [] {
      var init, e := es[..|es| - 1], es[|es| - 1];
      InStepOrLagging(all, show, init);
      StepKnown(all, show, Run(all, show, OPENED, init), e, FailedSinceShow(all, show, init));
    }
  }

  /** In every run against an unchanged list whose requests do not overlap, an idle client shows exactly the
      first `page` pages of it if and only if no request has failed since the last reload (or the list is
      empty). */
  lemma {:induction false} PrefixIffNothingFailed(all: seq<Row>, show: Row -> Row, es: seq<Event>)
    requires NoOverlap(all, show, es)
    ensures
      var c := Run(all, show, OPENED, es);
      !c.loading ==> (c.orders == Shown(all, show, c.page) <==> all == [] || !FailedSinceShow(all, show, es))
  {
    InStepOrLagging(all, show, es);
    var c := Run(all, show, OPENED, es);
    if !c.loading && all == [] { assert Shown(all, show, c.page) == []; }
  }

  lemma {:induction false} MoreIffMissing(all: seq<Row>, show: Row -> Row, c: Client)
    requires Rests(all, show, c)
    ensures c.orders == Shown(all, show, c.page) && (Reached(c) == c <==> c.orders == Map(show, all))
  {
    assert all[..|all|] == all;
    var n := Upto(all, c.page);
    assert |c.orders| == n && |Map(show, all)| == |all|;
    if n == |all| {
      assert all[..n] == all;
      assert Reached(c) == c;
    } else {
      assert Reached(c).loading;
    }
  }

  /** While nothing has failed, the client shows the first `page` pages, and scrolling asks for more exactly
      while rows are missing. */
  lemma {:induction false} ScrollingShowsAPrefix(all: seq<Row>, show: Row -> Row, es: seq<Event>)
    requires NoOverlap(all, show, es) && !FailedSinceShow(all, show, es)
    ensures
      var c := Run(all, show, OPENED, es);
      && InStep(all, show, c)
      && (!c.loading ==>
            && c.orders == Shown(all, show, c.page)
            && (Reached(c) == c <==> c.orders == Map(show, all)))
  {
    InStepOrLagging(all, show, es);
    var c := Run(all, show, OPENED, es);
    if !c.loading { MoreIffMissing(all, show, c); }
  }

  /** The client after the requests of a scroll: the login, and the answer for the page it then has. */
  function Scrolled(all: seq<Row>, show: Row -> Row, c: Client): Client {
    var asked := Next(all, show, Next(all, show, c, Reach), Login(false));
    Next(all, show, asked, Reply(Sent(false, asked.page)))
  }

  lemma {:induction false} ScrollAppends(all: seq<Row>, show: Row -> Row, c: Client)
    requires !c.loading && |c.orders| < c.total && c.waiting == multiset{} && c.page >= 1
    ensures
      var rows := Map(show, Page(all, c.page + 1, PAGE_SIZE));
      Scrolled(all, show, c) == Client(false, c.orders + rows, c.page + 1, |all|, multiset{})
  {
    var c1 := Next(all, show, c, Reach);
    assert c1.waiting == multiset{LoggingIn(false)} && c1.page == c.page + 1;
    var c2 := Next(all, show, c1, Login(false));
    assert c2.waiting == multiset{Sent(false, c1.page)};
    assert c2.waiting - multiset{Sent(false, c1.page)} == multiset{};
  }

  /** A scrolled page whose request fails, at the login or later, is skipped: the next successful scroll appends
      the page after it. */
  lemma {:induction false} FailedPageIsSkipped(all: seq<Row>, show: Row -> Row, c: Client, r: Request)
    requires Awaits(all, show, c, r) && !r.replace
    ensures
      var later := Scrolled(all, show, Next(all, show, c, Fail(r)));
      && later.orders == Shown(all, show, c.page - 1) + Map(show, Page(all, c.page + 1, PAGE_SIZE))
      && later.orders != Shown(all, show, later.page)
  {
    PageOf(all, c.page);
    PageOf(all, c.page + 1);
    var failed := Next(all, show, c, Fail(r));
    assert |failed.orders| == Upto(all, c.page - 1) < |all| == failed.total;
    ScrollAppends(all, show, failed);
    assert |Scrolled(all, show, failed).orders| == Upto(all, c.page - 1) + (Upto(all, c.page + 1) - Upto(all, c.page));
  }

  /** A reload of a list known to have rows that fails, at the login or later, leaves it empty, and the next
      successful scroll shows the second page alone. */
  lemma {:induction false} FailedReloadSkipsPageOne(all: seq<Row>, show: Row -> Row, c: Client, r: Request)
    requires Awaits(all, show, c, r) && r.replace && c.total == |all| && all != []
    ensures
      var later := Scrolled(all, show, Next(all, show, c, Fail(r)));
      later.page == 2 && later.orders == Map(show, Page(all, 2, PAGE_SIZE)) && later.orders != Shown(all, show, 2)
  {
    PageOf(all, 1);
    PageOf(all, 2);
    ScrollAppends(all, show, Next(all, show, c, Fail(r)));
    Whole(Map(show, Page(all, 2, PAGE_SIZE)));
  }

  // ---- Requests that overlap ----

  /** What an event makes of the parts. */
  function PartsNext(c: Client, e: Event, parts: seq<int>): seq<int> {
    match e
    case Show => []
    case Reply(r) => if !Answerable(c, r) then parts else if r.replace then [r.page] else parts + [r.page]
    case _ => parts
  }

  /** The pages whose answers make up the list, in the order of the answers. */
  function Parts(all: seq<Row>, show: Row -> Row, es: seq<Event>): seq<int> {
    if es == [] then []
    else
      var init := es[..|es| - 1];
      PartsNext(Run(all, show, OPENED, init), es[|es| - 1], Parts(all, show, init))
  }

  function Glued(all: seq<Row>, show: Row -> Row, parts: seq<int>): seq<Row> {
    if parts == [] then []
    else Glued(all, show, parts[..|parts| - 1]) + Map(show, Page(all, parts[|parts| - 1], PAGE_SIZE))
  }

  predicate Positive(parts: seq<int>) {
    forall i :: 0 <= i < |parts| ==> parts[i] >= 1
  }

  ghost predicate PagesPositive(c: Client) {
    c.page >= 1 && forall r :: r in c.waiting && r.Sent? ==> r.page >= 1
  }

  lemma {:induction false} OnePart(all: seq<Row>, show: Row -> Row, p: int)
    ensures Glued(all, show, [p]) == Map(show, Page(all, p, PAGE_SIZE))
  {
    assert Glued(all, show, [p][..0]) == [];
    Whole(Map(show, Page(all, p, PAGE_SIZE)));
  }

  lemma {:induction false} MorePart(all: seq<Row>, show: Row -> Row, parts: seq<int>, p: int)
    ensures Glued(all, show, parts + [p]) == Glued(all, show, parts) + Map(show, Page(all, p, PAGE_SIZE))
  {
    Pushed(parts, p);
  }

  lemma {:induction false} PagesStayPositive(all: seq<Row>, show: Row -> Row, c: Client, e: Event)
    requires PagesPositive(c)
    ensures PagesPositive(Next(all, show, c, e))
  {
    var c' := Next(all, show, c, e);
    forall r | r in c'.waiting && r.Sent? ensures r.page >= 1 {
      assert r in c.waiting || (e.Login? && r == Sent(e.replace, c.page));
    }
  }

  /** In every run, requests that fail and that overlap included, the list is its parts, one after the other. */
  lemma {:induction false} ListIsItsParts(all: seq<Row>, show: Row -> Row, es: seq<Event>)
    ensures Run(all, show, OPENED, es).orders == Glued(all, show, Parts(all, show, es))
    ensures Positive(Parts(all, show, es)) && PagesPositive(Run(all, show, OPENED, es))
  {
    if es != [] {
      var init, e := es[..|es| - 1], es[|es| - 1];
      var c := Run(all, show, OPENED, init);
      ListIsItsParts(all, show, init);
      PagesStayPositive(all, show, c, e);
      NextParts(all, show, c, e, Parts(all, show, init));
    }
  }

  lemma {:induction false} NextParts(all: seq<Row>, show: Row -> Row, c: Client, e: Event, parts: seq<int>)
    requires c.orders == Glued(all, show, parts) && Positive(parts) && PagesPositive(c)
    ensures Next(all, show, c, e).orders == Glued(all, show, PartsNext(c, e, parts)) && Positive(PartsNext(c, e, parts))
  {
    if e.Reply? && Answerable(c, e.r) {
      OnePart(all, show, e.r.page);
      MorePart(all, show, parts, e.r.page);
    }
  }

  /** The page has rows. */
  predicate Within(all: seq<Row>, p: int) {
    p >= 1 && (p - 1) * PAGE_SIZE < |all|
  }

  /** The parts without the pages past the end of the list. */
  function Filled(all: seq<Row>, parts: seq<int>): (r: seq<int>)
    ensures forall i :: 0 <= i < |r| ==> Within(all, r[i])
  {
    if parts == [] then []
    else Filled(all, parts[..|parts| - 1]) + if Within(all, parts[|parts| - 1]) then [parts[|parts| - 1]] else []
  }

  predicate Counting(parts: seq<int>) {
    forall i :: 0 <= i < |parts| ==> parts[i] == i + 1
  }

  /** How many of the first n pages have rows. */
  function FilledPages(all: seq<Row>, n: int): nat {
    if n <= 0 then 0 else if Within(all, n) then n else (|all| + PAGE_SIZE - 1) / PAGE_SIZE
  }

  lemma {:induction false} EmptyPage(all: seq<Row>, show: Row -> Row, p: int)
    requires p >= 1 && !Within(all, p)
    ensures Map(show, Page(all, p, PAGE_SIZE)) == []
  {
    PageOf(all, p);
  }

  lemma {:induction false} FilledGlues(all: seq<Row>, show: Row -> Row, parts: seq<int>)
    requires Positive(parts)
    ensures Glued(all, show, Filled(all, parts)) == Glued(all, show, parts)
  {
    if parts != [] {
      var init, p := parts[..|parts| - 1], parts[|parts| - 1];
      FilledGlues(all, show, init);
      if Within(all, p) {
        MorePart(all, show, Filled(all, init), p);
      } else {
        EmptyPage(all, show, p);
        Whole(Filled(all, init));
        Whole(Glued(all, show, init));
      }
    }
  }

  lemma {:induction false} CountingGlues(all: seq<Row>, show: Row -> Row, parts: seq<int>)
    requires Counting(parts)
    ensures Glued(all, show, parts) == Shown(all, show, |parts|)
  {
    if parts != [] {
      CountingGlues(all, show, parts[..|parts| - 1]);
      NextPage(all, show, |parts|);
    } else {
      assert Shown(all, show, 0) == [];
    }
  }

  /** No two rows look alike. */
  predicate ShownApart(all: seq<Row>, show: Row -> Row) {
    forall i, j :: 0 <= i < j < |all| ==> show(all[i]) != show(all[j])
  }

  lemma {:induction false} SameRow(all: seq<Row>, show: Row -> Row, i: nat, j: nat)
    requires ShownApart(all, show) && i < |all| && j < |all| && show(all[i]) == show(all[j])
    ensures i == j
  {
  }

  /** Where a page with rows follows a beginning of the list and the two are a beginning too, the page is the next
      one. */
  lemma {:induction false} FollowsOn(all: seq<Row>, show: Row -> Row, head: seq<Row>, p: int, u: nat)
    requires ShownApart(all, show) && Within(all, p) && u <= |all|
    requires head + Map(show, Page(all, p, PAGE_SIZE)) == Map(show, all[..u])
    ensures |head| == (p - 1) * PAGE_SIZE && head == Map(show, all[..|head|])
  {
    PageOf(all, p);
    var k, rows := |head|, Map(show, Page(all, p, PAGE_SIZE));
    assert rows[0] == show(all[(p - 1) * PAGE_SIZE]);
    assert (head + rows)[k] == rows[0] && Map(show, all[..u])[k] == show(all[k]);
    var f := (p - 1) * PAGE_SIZE;
    SameRow(all, show, k, f);
    forall i | 0 <= i < k ensures head[i] == show(all[i]) { assert (head + rows)[i] == head[i]; }
    assert head == Map(show, all[..k]);
  }

  lemma {:induction false} PartsMustCount(all: seq<Row>, show: Row -> Row, parts: seq<int>, u: nat)
    requires ShownApart(all, show) && u <= |all| && forall i :: 0 <= i < |parts| ==> Within(all, parts[i])
    requires Glued(all, show, parts) == Map(show, all[..u])
    ensures Counting(parts) && u == Upto(all, |parts|)
  {
    if parts != [] {
      var init, p := parts[..|parts| - 1], parts[|parts| - 1];
      var head := Glued(all, show, init);
      FollowsOn(all, show, head, p, u);
      PartsMustCount(all, show, init, |head|);
      NextPage(all, show, |parts|);
      assert p == |parts|;
      CountingGlues(all, show, parts);
    } else {
      assert |Map(show, all[..u])| == u;
    }
  }

  lemma {:induction false} LengthTells(all: seq<Row>, k: nat, n: int)
    requires (k == 0 || Within(all, k)) && n >= 1
    ensures Upto(all, k) == Upto(all, n) <==> k == FilledPages(all, n)
  {
  }

  /** In every run against an unchanged list of rows that look different, with requests that fail, overlap and are
      answered in any order, the client shows exactly the first `page` pages if and only if the answers that
      make up its list, but for empty ones, were for the pages 1, 2, 3 and so on up to it. */
  lemma {:induction false} PrefixIffPartsInOrder(all: seq<Row>, show: Row -> Row, es: seq<Event>)
    requires ShownApart(all, show)
    ensures
      var c := Run(all, show, OPENED, es);
      var filled := Filled(all, Parts(all, show, es));
      c.orders == Shown(all, show, c.page) <==> Counting(filled) && |filled| == FilledPages(all, c.page)
  {
    var c, parts := Run(all, show, OPENED, es), Parts(all, show, es);
    var filled := Filled(all, parts);
    ListIsItsParts(all, show, es);
    FilledGlues(all, show, parts);
    if Counting(filled) {
      CountingGlues(all, show, filled);
      if filled != [] { assert Within(all, filled[|filled| - 1]); }
      LengthTells(all, |filled|, c.page);
    }
    if c.orders == Shown(all, show, c.page) { PartsMustCount(all, show, filled, Upto(all, c.page)); }
  }

  /** A scroll is under way when the page is pulled down, and its answer comes after that of the reload: it is
      appended to page 1, and the client still says it shows one page. */
  lemma {:induction false} StaleAnswerIsAppended(all: seq<Row>, show: Row -> Row, c: Client)
    requires Awaits(all, show, c, Sent(false, c.page))
    ensures
      var reloaded := Next(all, show, Next(all, show, Next(all, show, c, Show), Login(true)), Reply(Sent(true, 1)));
      var later := Next(all, show, reloaded, Reply(Sent(false, c.page)));
      && later.page == 1 && later.waiting == multiset{} && !later.loading
      && later.orders == Shown(all, show, 1) + Map(show, Page(all, c.page, PAGE_SIZE))
      && later.orders != Shown(all, show, later.page)
  {
    PageOf(all, c.page);
    NextPage(all, show, 1);
    assert Shown(all, show, 0) == [];
    Whole(Map(show, Page(all, 1, PAGE_SIZE)));
    var c1 := Next(all, show, c, Show);
    assert c1.waiting == multiset{Sent(false, c.page), LoggingIn(true)};
    var c2 := Next(all, show, c1, Login(true));
    assert c2.waiting == multiset{Sent(false, c.page), Sent(true, 1)};
    var c3 := Next(all, show, c2, Reply(Sent(true, 1)));
    assert c3.waiting == multiset{Sent(false, c.page)} && c3.orders == Shown(all, show, 1);
  }
}
