/** Where the engine's recovery promises less than its comments: an approval that outruns the log
    store, a committer that starts late, a snapshot that keeps the live id windows
    (matching/engine.go:176 and 212, matching/order_book.go:306). */
module EngineLimits {
  import opened Exchange
  import opened Depths
  import opened Matcher
  import opened Invariants
  import opened Snapshots
  import opened Runs
  import opened LogReader
  import opened Engines
  import opened Recoveries

  // ---- a committer that starts late ----

  /** The committer fed a list of logs, with any number of others waiting each time: all it stored
      and what it still buffers. */
  function Feed(c: Committer, logs: seq<Log>, waiting: seq<nat>): (seq<Log>, Committer)
    requires |logs| == |waiting|
    decreases |logs|
  {
    if logs == [] then ([], c)
    else
      var n := |logs| - 1;
      var before := Feed(c, logs[..n], waiting[..n]);
      var t := OnLog(before.1, logs[n], waiting[n]);
      (before.0 + t.stored, t.committer)
  }

  function Max(a: nat, b: nat): nat {
    if a >= b then a else b
  }

  /** The logs of a stretch that end at j and are later than `start`. */
  function Later(full: seq<Log>, start: nat, j: nat): seq<Log>
    requires j <= |full|
  {
    if start <= j then full[start..j] else []
  }

  lemma LaterNext(full: seq<Log>, start: nat, j: nat)
    requires 0 < j <= |full|
    ensures Later(full, start, j) == Later(full, start, j - 1) + if start < j then [full[j - 1]] else []
  {
  }

  lemma {:induction false} FeedKeepsLater(full: seq<Log>, k: nat, j: nat, start: nat,
                                          pending: Option<EngineSnapshot>, waiting: seq<nat>)
    requires Numbered(full, 0) && k <= j <= |full| && |waiting| == j - k && k <= start <= |full|
    ensures var r := Feed(Committer(start, pending, []), full[k..j], waiting);
            r.0 + r.1.logs == Later(full, start, j) && r.1.lastSeq == Max(start, j)
    decreases j
  {
    hide OnLog, Feed, Later;
    var c := Committer(start, pending, []);
    if k == j {
      assert full[k..j] == [] && waiting == [];
      FeedNothing(c);
      NoneLater(full, start, j);
    } else {
      var n := j - k - 1;
      assert full[k..j][..n] == full[k..j - 1] && full[k..j][n] == full[j - 1];
      FeedKeepsLater(full, k, j - 1, start, pending, waiting[..n]);
      var before := Feed(c, full[k..j - 1], waiting[..n]);
      var t := OnLog(before.1, full[j - 1], waiting[n]);
      FeedOne(c, full[k..j], waiting);
      TurnKeeps(before.1, full[j - 1], waiting[n]);
      LaterNext(full, start, j);
      assert (before.0 + t.stored) + t.committer.logs == before.0 + (t.stored + t.committer.logs);
      assert (before.0 + before.1.logs) + (if start < j then [full[j - 1]] else [])
             == before.0 + (before.1.logs + if start < j then [full[j - 1]] else []);
    }
  }

  lemma NoneLater(full: seq<Log>, start: nat, j: nat)
    requires j <= start <= |full|
    ensures Later(full, start, j) == []
  {
  }

  lemma FeedNothing(c: Committer)
    ensures Feed(c, [], []) == ([], c)
  {
  }

  lemma FeedOne(c: Committer, logs: seq<Log>, waiting: seq<nat>)
    requires |logs| == |waiting| > 0
    ensures var n := |logs| - 1;
            var before := Feed(c, logs[..n], waiting[..n]);
            var t := OnLog(before.1, logs[n], waiting[n]);
            Feed(c, logs, waiting) == (before.0 + t.stored, t.committer)
  {
  }

  /** A turn stores or keeps what is buffered and the new log, unless it takes it for a duplicate. */
  lemma TurnKeeps(c: Committer, log: Log, waiting: nat)
    ensures var t := OnLog(c, log, waiting);
            && t.stored + t.committer.logs == c.logs + (if log.sequence > c.lastSeq then [log] else [])
            && t.committer.lastSeq == Max(c.lastSeq, log.sequence)
  {
    assert [] + c.logs == c.logs + [] && c.logs + [log] + [] == c.logs + [log];
  }

  /** The committer takes the book's log sequence when its goroutine first runs. If the applier has
      by then written logs k+1 .. start, exactly those are taken for duplicates and never stored:
      all logs are kept if and only if none was written before. */
  lemma {:induction false} LateStartKeepsAllIff(full: seq<Log>, k: nat, j: nat, start: nat, waiting: seq<nat>)
    requires Numbered(full, 0) && k <= start <= j <= |full| && |waiting| == j - k
    ensures var r := Feed(Committer(start, None, []), full[k..j], waiting);
            r.0 + r.1.logs == full[k..j] <==> start == k
  {
    FeedKeepsLater(full, k, j, start, None, waiting);
  }

  // ---- a snapshot whose windows live on ----

  /** The book a restart finds if the snapshot's windows have gone on admitting ids. */
  function WithLiveWindows(b: Book, accepted: set<nat>): Book {
    b.(accepted := accepted)
  }

  /** The order is one the applier would enter into the book, with an id not seen before. */
  ghost predicate FreshlyApplied(p: Product, b: Book, o: Order)
    requires Sound(b)
  {
    && !o.cancelling && o.tif != Unknown
    && (o.tif == GTX ==> WillNotMatch(p, b, o))
    && (o.tif == FOK ==> WillFullMatch(p, b, o))
    && Admissible(b.accepted, o.id)
  }

  lemma NotAdmitted(accepted: set<nat>, later: set<nat>, id: nat)
    requires accepted <= later && Admit(accepted, id) <= later
    ensures !Admissible(later, id) && Admit(later, id) == later
  {
  }

  /** Reading only the queues, the probes and the cancellation do the same whatever more the
      windows know; so does anything that offers them an id they already refuse. */
  lemma {:induction false} QueuesIgnoreWindows(p: Product, b: Book, o: Order, later: set<nat>)
    requires Sound(b) && Sound(WithLiveWindows(b, later))
    ensures WillNotMatch(p, WithLiveWindows(b, later), o) == WillNotMatch(p, b, o)
    ensures WillFullMatch(p, WithLiveWindows(b, later), o) == WillFullMatch(p, b, o)
    ensures !Admissible(b.accepted, o.id) ==> ApplyOrder(p, b, o) == Outcome(b, [])
  {
    hide Match, Lookup, Decrease, DryRun, Admissible;
  }

  lemma {:induction false} RefusedIdsIgnoreWindows(p: Product, b: Book, o: Order, later: set<nat>)
    requires Sound(b) && Sound(WithLiveWindows(b, later)) && !Admissible(later, o.id)
    ensures ApplyOrder(p, WithLiveWindows(b, later), o) == Outcome(WithLiveWindows(b, later), [])
    ensures CancelOrder(WithLiveWindows(b, later), o)
            == Outcome(WithLiveWindows(CancelOrder(b, o).book, later), CancelOrder(b, o).logs)
    ensures NullifyOrder(WithLiveWindows(b, later), o)
            == Outcome(WithLiveWindows(NullifyOrder(b, o).book, later), NullifyOrder(b, o).logs)
  {
    hide Match, Lookup, Decrease, Admissible;
  }

  lemma {:induction false} StepOffersId(p: Product, b: Book, o: Order)
    requires Sound(b) && !FreshlyApplied(p, b, o) && (o.cancelling || o.tif != Unknown)
    ensures Admit(b.accepted, o.id) <= Step(p, b, o).book.accepted
  {
    hide Match, Lookup, Decrease, Admissible, WillNotMatch, WillFullMatch;
  }

  /** A step whose order is not freshly applied does the same whatever more the windows know. */
  lemma {:induction false} OldStepIgnoresWindows(p: Product, b: Book, o: Order, later: set<nat>)
    requires Sound(b) && Sound(WithLiveWindows(b, later)) && !FreshlyApplied(p, b, o)
    requires b.accepted <= later && Step(p, b, o).book.accepted <= later
    ensures Step(p, WithLiveWindows(b, later), o)
            == Outcome(WithLiveWindows(Step(p, b, o).book, later), Step(p, b, o).logs)
  {
    hide ApplyOrder, CancelOrder, NullifyOrder, WillNotMatch, WillFullMatch, Admissible, Admit, Sound;
    if o.cancelling || o.tif != Unknown {
      StepOffersId(p, b, o);
      NotAdmitted(b.accepted, later, o.id);
      QueuesIgnoreWindows(p, b, o, later);
      RefusedIdsIgnoreWindows(p, b, o, later);
      assert [] + CancelOrder(b, o).logs == CancelOrder(b, o).logs;
    }
  }

  /** A freshly applied order writes a log the first time and none when it is replayed under
      windows that have admitted its id. */
  lemma {:induction false} FreshStepIsLost(p: Product, b: Book, o: Order, later: set<nat>)
    requires Sound(b) && Sound(WithLiveWindows(b, later)) && FreshlyApplied(p, b, o) && o.id in later
    requires IdsAccepted(b.bids, b.accepted) && IdsAccepted(b.asks, b.accepted)
    ensures Step(p, b, o).logs != [] && Step(p, WithLiveWindows(b, later), o).logs == []
  {
    hide Match, DryRun;
    var live := WithLiveWindows(b, later);
    var s := b.Resting(o.side);
    forall x | x in s
      ensures x.orderId != o.id
    {
      var i :| 0 <= i < |s| && s[i] == x;
      assert s[i].orderId in b.accepted;
    }
    assert !HasId(s, o.id);
    assert ApplyOrder(p, live, o) == Outcome(live, []);
    assert ApplyOrder(p, b, o).logs != [];
  }

  lemma {:induction false} StepAdmitsMore(p: Product, b: Book, o: Order)
    requires Sound(b)
    ensures b.accepted <= Step(p, b, o).book.accepted
    ensures FreshlyApplied(p, b, o) ==> o.id in Step(p, b, o).book.accepted
  {
    hide Match, DryRun, Lookup, Decrease, Insert, Admissible, WillNotMatch, WillFullMatch;
  }

  /** The book just before order i of a run from `b`. */
  ghost function Before(p: Product, b: Book, orders: seq<Order>, i: nat): (r: Book)
    requires Invariant(b) && AllWellFormed(orders) && i <= |orders|
    ensures Invariant(r)
  {
    RunFrom(p, b, orders[..i]).book
  }

  lemma {:induction false} BeforeNext(p: Product, b: Book, orders: seq<Order>, i: nat)
    requires Invariant(b) && AllWellFormed(orders) && i < |orders|
    ensures Sound(Before(p, b, orders, i))
    ensures var out := Step(p, Before(p, b, orders, i), orders[i]);
            && Before(p, b, orders, i + 1) == out.book
            && RunFrom(p, b, orders[..i + 1]).logs == RunFrom(p, b, orders[..i]).logs + out.logs
  {
    hide Invariant, Step, Sound;
    assert orders[..i + 1][..i] == orders[..i];
    InvariantIsSound(Before(p, b, orders, i));
  }

  lemma {:induction false} AdmittedSoFar(p: Product, b: Book, orders: seq<Order>, i: nat, j: nat)
    requires Invariant(b) && AllWellFormed(orders) && i <= j <= |orders|
    ensures Before(p, b, orders, i).accepted <= Before(p, b, orders, j).accepted
    decreases j - i
  {
    hide Invariant, Step, Sound, Before;
    if i < j {
      AdmittedSoFar(p, b, orders, i, j - 1);
      BeforeNext(p, b, orders, j - 1);
      StepAdmitsMore(p, Before(p, b, orders, j - 1), orders[j - 1]);
    }
  }

  /** Order i of the run writes the same logs from both books. */
  ghost predicate SameLogs(p: Product, b: Book, live: Book, orders: seq<Order>, i: nat)
    requires Invariant(b) && Invariant(live) && AllWellFormed(orders) && i < |orders|
  {
    InvariantIsSound(Before(p, b, orders, i));
    InvariantIsSound(Before(p, live, orders, i));
    Step(p, Before(p, live, orders, i), orders[i]).logs == Step(p, Before(p, b, orders, i), orders[i]).logs
  }

  ghost predicate FreshAt(p: Product, b: Book, orders: seq<Order>, i: nat)
    requires Invariant(b) && AllWellFormed(orders) && i < |orders|
  {
    InvariantIsSound(Before(p, b, orders, i));
    FreshlyApplied(p, Before(p, b, orders, i), orders[i])
  }

  ghost predicate NoneFresh(p: Product, b: Book, orders: seq<Order>, n: nat)
    requires Invariant(b) && AllWellFormed(orders) && n <= |orders|
  {
    forall i :: 0 <= i < n ==> !FreshAt(p, b, orders, i)
  }

  /** The windows once the whole run has gone by. */
  ghost function LiveBook(p: Product, b: Book, orders: seq<Order>): (r: Book)
    requires Invariant(b) && AllWellFormed(orders)
    ensures Invariant(r)
  {
    AdmittedSoFar(p, b, orders, 0, |orders|);
    assert orders[..0] == [];
    AcceptKeeps(b, Before(p, b, orders, |orders|).accepted);
    WithLiveWindows(b, Before(p, b, orders, |orders|).accepted)
  }

  /** Up to the first freshly applied order the replay follows the run. */
  lemma {:induction false} ReplayFollows(p: Product, b: Book, orders: seq<Order>, n: nat)
    requires Invariant(b) && AllWellFormed(orders) && n <= |orders| && NoneFresh(p, b, orders, n)
    ensures var later := Before(p, b, orders, |orders|).accepted;
            Before(p, LiveBook(p, b, orders), orders, n) == WithLiveWindows(Before(p, b, orders, n), later)
    ensures RunFrom(p, LiveBook(p, b, orders), orders[..n]).logs == RunFrom(p, b, orders[..n]).logs
    ensures forall i :: 0 <= i < n ==> SameLogs(p, b, LiveBook(p, b, orders), orders, i)
    decreases n
  {
    hide Invariant, Step, Sound, FreshlyApplied;
    var live := LiveBook(p, b, orders);
    assert orders[..0] == [];
    if n > 0 {
      ReplayFollows(p, b, orders, n - 1);
      assert !FreshAt(p, b, orders, n - 1);
      BeforeNext(p, b, orders, n - 1);
      BeforeNext(p, live, orders, n - 1);
      AdmittedSoFar(p, b, orders, n - 1, |orders|);
      AdmittedSoFar(p, b, orders, n, |orders|);
      OldStepIgnoresWindows(p, Before(p, b, orders, n - 1), orders[n - 1], Before(p, b, orders, |orders|).accepted);
    }
  }

  /** The first freshly applied order is lost by the replay. */
  lemma {:induction false} ReplayLoses(p: Product, b: Book, orders: seq<Order>, n: nat)
    requires Invariant(b) && AllWellFormed(orders) && n < |orders|
    requires NoneFresh(p, b, orders, n) && FreshAt(p, b, orders, n)
    ensures !SameLogs(p, b, LiveBook(p, b, orders), orders, n)
  {
    hide Invariant, Step, Sound, FreshlyApplied, Before;
    ReplayFollows(p, b, orders, n);
    BeforeNext(p, b, orders, n);
    BeforeNext(p, LiveBook(p, b, orders), orders, n);
    StepAdmitsMore(p, Before(p, b, orders, n), orders[n]);
    AdmittedSoFar(p, b, orders, n + 1, |orders|);
    InvariantAccepts(Before(p, b, orders, n));
    FreshStepIsLost(p, Before(p, b, orders, n), orders[n], Before(p, b, orders, |orders|).accepted);
  }

  lemma InvariantAccepts(b: Book)
    requires Invariant(b)
    ensures IdsAccepted(b.bids, b.accepted) && IdsAccepted(b.asks, b.accepted)
  {
  }

  lemma {:induction false} FirstFresh(p: Product, b: Book, orders: seq<Order>, n: nat) returns (i: nat)
    requires Invariant(b) && AllWellFormed(orders) && n <= |orders| && !NoneFresh(p, b, orders, n)
    ensures i < n && NoneFresh(p, b, orders, i) && FreshAt(p, b, orders, i)
  {
    hide Invariant, FreshAt;
    i := n - 1;
    if !NoneFresh(p, b, orders, n - 1) {
      i := FirstFresh(p, b, orders, n - 1);
    }
  }

  /** A snapshot shares its windows with the running book, so the orders applied between taking
      and storing it count as seen in it. Replaying them after a restart writes the logs of the
      crash-free run, order by order, if and only if none of them was freshly applied; then the
      replayed book is the crash-free book too. */
  lemma {:induction false} LiveSnapshotReplaysIff(p: Product, b: Book, orders: seq<Order>)
    requires Invariant(b) && AllWellFormed(orders)
    ensures var live := LiveBook(p, b, orders);
            (forall i :: 0 <= i < |orders| ==> SameLogs(p, b, live, orders, i)) <==> NoneFresh(p, b, orders, |orders|)
    ensures NoneFresh(p, b, orders, |orders|) ==>
              RunFrom(p, LiveBook(p, b, orders), orders) == RunFrom(p, b, orders)
  {
    hide Invariant, SameLogs, FreshAt, RunFrom;
    assert orders[..|orders|] == orders;
    if NoneFresh(p, b, orders, |orders|) {
      ReplayFollows(p, b, orders, |orders|);
    } else {
      var i := FirstFresh(p, b, orders, |orders|);
      ReplayLoses(p, b, orders, i);
    }
  }

  // ---- an approval that outruns the store ----

  function Bid(id: nat): Order {
    Order(id, 1, Buy, Limit, GTC, 1, 1, 1, false)
  }

  /** A bid, a thousand orders of no known time in force (which the applier skips), two more bids. */
  function ManyOrders(): seq<Order> {
    [Bid(0)] + seq(SNAPSHOT_DELTA, _ => Bid(0).(tif := Unknown)) + [Bid(1), Bid(2)]
  }

  ghost predicate OneSided(b: Book, logSeq: nat, ids: set<nat>) {
    Invariant(b) && b.asks == [] && b.logSeq == logSeq && b.accepted == ids
  }

  lemma {:induction false} BidRests(p: Product, b: Book, id: nat, ids: set<nat>)
    requires OneSided(b, b.logSeq, ids) && Admissible(ids, id)
    ensures Sound(b)
    ensures var out := Step(p, b, Bid(id));
            && OneSided(out.book, b.logSeq + 1, ids + {id})
            && |out.logs| == 1 && out.logs[0].sequence == b.logSeq + 1
  {
    InvariantIsSound(b);
    StepKeepsInvariant(p, b, Bid(id));
  }

  /** Nothing in any channel, one log stored and committed. */
  ghost predicate Quiet(e: Engine, n: nat) {
    && e.fetched == n && e.orderCh == [] && e.emitting == [] && e.logCh == [] && e.orderOffset == n - 1
    && e.requestCh == [] && e.approveCh == [] && e.snapshotCh == [] && e.persisted == None && e.lastOffset == 0
    && e.committer == Committer(1, None, []) && |e.stored| == 1 && e.stored[0].sequence == 1
    && OneSided(e.book, 1, {0})
  }

  lemma {:induction false} Then(p: Product, orders: seq<Order>, events: seq<Event>, e: Engine,
                                event: Event) returns (events': seq<Event>, e': Engine)
    requires e == Play(p, orders, events) && Crash !in events && event != Crash
    ensures events' == events + [event] && Crash !in events'
    ensures e' == Next(p, orders, e, event) == Play(p, orders, events')
  {
    hide Next;
    events' := events + [event];
    e' := Next(p, orders, e, event);
    assert events'[..|events|] == events;
  }

  /** The next order of the topic is fetched and applied. */
  lemma {:induction false} TakesNext(p: Product, orders: seq<Order>, events: seq<Event>, e: Engine) returns (events': seq<Event>, e': Engine)
    requires e == Play(p, orders, events) && Crash !in events
    requires e.orderCh == [] && e.emitting == [] && e.fetched < |orders| && Sound(e.book)
    ensures e' == Play(p, orders, events') && Crash !in events'
    ensures var out := Step(p, e.book, orders[e.fetched]);
            e' == e.(fetched := e.fetched + 1, book := out.book, emitting := out.logs, orderOffset := e.fetched)
  {
    hide Step, Sound, Play;
    events', e' := Then(p, orders, events, e, Fetch);
    assert e'.orderCh == [OffsetOrder(e.fetched, orders[e.fetched])];
    assert e'.orderCh[1..] == [];
    events', e' := Then(p, orders, events', e', Apply);
  }

  /** A bid is fetched and applied, and its one log written to the channel. */
  lemma {:induction false} BidGoesThrough(p: Product, events: seq<Event>, e: Engine, id: nat) returns (events': seq<Event>, e': Engine)
    requires e == Play(p, ManyOrders(), events) && Crash !in events
    requires e.orderCh == [] && e.emitting == [] && OneSided(e.book, e.book.logSeq, e.book.accepted)
    requires e.fetched < |ManyOrders()| && ManyOrders()[e.fetched] == Bid(id) && Admissible(e.book.accepted, id)
    ensures e' == Play(p, ManyOrders(), events') && Crash !in events'
    ensures OneSided(e'.book, e.book.logSeq + 1, e.book.accepted + {id})
    ensures |e'.logCh| == |e.logCh| + 1 && e'.logCh[..|e.logCh|] == e.logCh
    ensures e'.logCh[|e.logCh|].sequence == e.book.logSeq + 1
    ensures e' == e.(fetched := e.fetched + 1, book := e'.book, logCh := e'.logCh, orderOffset := e.fetched)
  {
    hide Step, Sound, Play, Invariant, Admissible, ManyOrders;
    BidRests(p, e.book, id, e.book.accepted);
    events', e' := TakesNext(p, ManyOrders(), events, e);
    assert e'.emitting == [e'.emitting[0]] && e'.emitting[1..] == [];
    events', e' := Then(p, ManyOrders(), events', e', Emit);
  }

  lemma {:induction false} WarmsUp(p: Product) returns (events: seq<Event>, e: Engine)
    ensures e == Play(p, ManyOrders(), events) && Crash !in events && Quiet(e, 1)
  {
    hide Step, Invariant, Admissible, Play, Next;
    EmptyBookInvariant();
    NothingPlayed(p, ManyOrders());
    NothingAdmitted(0);
    events, e := BidGoesThrough(p, [], Start([], None), 0);
    CommitsOne(p, ManyOrders(), e);
    assert {} + {0} == {0};
    events, e := Then(p, ManyOrders(), events, e, CommitLog);
  }

  lemma NothingPlayed(p: Product, orders: seq<Order>)
    ensures Play(p, orders, []) == Start([], None)
  {
  }

  lemma NothingAdmitted(id: nat)
    ensures Admissible({}, id)
  {
  }

  lemma {:induction false} CommitsOne(p: Product, orders: seq<Order>, e: Engine)
    requires |e.logCh| == 1 && e.committer == Committer(0, None, []) && e.stored == [] && e.logCh[0].sequence == 1
    ensures Next(p, orders, e, CommitLog) == e.(logCh := [], committer := Committer(1, None, []), stored := e.logCh)
  {
    assert [] + [e.logCh[0]] == e.logCh && e.logCh[1..] == [];
  }

  lemma {:induction false} StaysQuiet(p: Product, n: nat) returns (events: seq<Event>, e: Engine)
    requires n <= SNAPSHOT_DELTA
    ensures e == Play(p, ManyOrders(), events) && Crash !in events && Quiet(e, n + 1)
  {
    hide Invariant, Admissible, Play;
    if n == 0 {
      events, e := WarmsUp(p);
    } else {
      events, e := StaysQuiet(p, n - 1);
      InvariantIsSound(e.book);
      events, e := TakesNext(p, ManyOrders(), events, e);
    }
  }

  /** Without a crash so far, a snapshot can be persisted whose last log is not stored: a crash now
      loses that log, and with the next one every reader stops. */
  lemma {:induction false} ApprovalCanOutrunTheStore(p: Product) returns (orders: seq<Order>, events: seq<Event>)
    ensures AllWellFormed(orders) && Crash !in events
    ensures var e := Play(p, orders, events);
            && !Covered(e) && 0 < MaxSeq(0, e.stored)
            && e.persisted.Some? && |Run(p, orders).logs| > e.persisted.value.book.logSeq
  {
    hide Invariant, Play, Next, Admissible, Sane;
    orders := ManyOrders();
    var e;
    events, e := StaysQuiet(p, SNAPSHOT_DELTA);
    FewAdmitted();
    events, e := BidGoesThrough(p, events, e, 1);
    var listing := Snapshot(e.book.bids, e.book.tradeSeq, e.book.logSeq, e.book.accepted);
    BidsListed(e.book, listing);
    SnapshotTaken(p, orders, e, listing);
    events, e := Then(p, orders, events, e, Request);
    events, e := Then(p, orders, events, e, TakeRequest(listing));
    assert {0} + {1} == {0, 1};
    events, e := BidGoesThrough(p, events, e, 2);
    ApprovedTooEarly(p, orders, e);
    events, e := Then(p, orders, events, e, CommitLog);
    events, e := Then(p, orders, events, e, CommitApproval);
    events, e := Then(p, orders, events, e, Persist(true));
    assert MaxSeq(0, e.stored) == 1 by {
      assert e.stored[..0] == [];
    }
    PlayIsSane(p, orders, events);
    SaneLogs(p, orders, e);
  }

  lemma {:induction false} SaneLogs(p: Product, orders: seq<Order>, e: Engine)
    requires AllWellFormed(orders) && Sane(p, orders, e)
    ensures e.book.logSeq <= |Run(p, orders).logs|
  {
  }

  lemma FewAdmitted()
    ensures Admissible({0}, 1) && Admissible({0, 1}, 2)
  {
  }

  lemma BidsListed(b: Book, listing: Snapshot)
    requires Invariant(b) && b.asks == [] && listing == Snapshot(b.bids, b.tradeSeq, b.logSeq, b.accepted)
    ensures SnapshotOf(listing, b)
  {
  }

  lemma SnapshotTaken(p: Product, orders: seq<Order>, e: Engine, listing: Snapshot)
    requires SnapshotOf(listing, e.book) && e.emitting == [] && e.requestCh == [] && e.lastOffset == 0
    requires e.orderOffset > SNAPSHOT_DELTA && e.approveCh == []
    ensures Next(p, orders, Next(p, orders, e, Request), TakeRequest(listing))
            == e.(approveCh := [EngineSnapshot(listing, e.orderOffset)])
  {
    assert [0][1..] == [];
  }

  lemma {:induction false} ApprovedTooEarly(p: Product, orders: seq<Order>, e: Engine)
    requires |e.logCh| == 2 && e.logCh[0].sequence == 2 && e.committer == Committer(1, None, [])
    requires |e.approveCh| == 1 && e.approveCh[0].book.logSeq == 2 && e.snapshotCh == []
    ensures var e' := Next(p, orders, Next(p, orders, Next(p, orders, e, CommitLog), CommitApproval), Persist(true));
            e'.persisted == Some(e.approveCh[0]) && e'.stored == e.stored && e'.book == e.book
  {
    assert e.stored + [] + [] == e.stored;
  }
}
