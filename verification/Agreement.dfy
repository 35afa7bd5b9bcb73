/** The replica against the engine: it holds exactly the engine's resting orders and never panics
    (pushing/order_book_stream.go, pushing/order_book.go). */
module Agreement {
  import opened Exchange
  import opened Depths
  import opened Matcher
  import opened Invariants
  import opened Runs
  import opened Lifecycle
  import opened Arrivals
  import opened Replica

  /** A log as it reaches the stream, with its offset in the topic. */
  datatype Delivery = Delivery(offset: int, log: Log)

  function LogsIn(ds: seq<Delivery>): (logs: seq<Log>)
    ensures |logs| == |ds|
    ensures forall i :: 0 <= i < |ds| ==> logs[i] == ds[i].log
  {
    seq(|ds|, i requires 0 <= i < |ds| => ds[i].log)
  }

  datatype Replayed = Replayed(book: L2Book, changes: seq<Level2Change>, panicked: bool)

  /** The stream's loop: log after log, until one of them panics. */
  function Replay(b: L2Book, ds: seq<Delivery>): Replayed
    decreases |ds|
  {
    if ds == [] then Replayed(b, [], false)
    else
      var before := Replay(b, ds[..|ds| - 1]);
      if before.panicked then before
      else
        var s := ApplyLog(before.book, ds[|ds| - 1].offset, ds[|ds| - 1].log);
        Replayed(s.book, before.changes + (if s.reply.Changed? then [s.reply.change] else []), s.reply.Panics())
  }

  // ---- the replica follows the lives of the orders ----

  /** The logs of every id are in form, done logs of a life that is over apart. */
  ghost predicate InForm(logs: seq<Log>) {
    forall id :: LifeAgain(Unborn, logs, id).stage != Broken
  }

  lemma {:induction false} PrefixInForm(logs: seq<Log>, log: Log)
    requires InForm(logs + [log])
    ensures InForm(logs)
    ensures forall id :: AdvanceAgain(LifeAgain(Unborn, logs, id), log, id).stage != Broken
    ensures forall id :: LifeAgain(Unborn, logs + [log], id) == AdvanceAgain(LifeAgain(Unborn, logs, id), log, id)
  {
    hide AdvanceAgain, LifeAgain;
    forall id
      ensures LifeAgain(Unborn, logs, id).stage != Broken
      ensures LifeAgain(Unborn, logs + [log], id) == AdvanceAgain(LifeAgain(Unborn, logs, id), log, id)
      ensures AdvanceAgain(LifeAgain(Unborn, logs, id), log, id).stage != Broken
    {
      AgainAppend(Unborn, logs, [log], id);
      AgainOne(LifeAgain(Unborn, logs, id), log, id);
      if LifeAgain(Unborn, logs, id).stage == Broken {
        BrokenStays(LifeAgain(Unborn, logs, id), [log], id);
      }
    }
  }

  /** The replica has an order exactly when the order's life is at rest with something left, at
      its price, on its side and for what is left. */
  predicate Mirrors(orders: map<nat, RestingOrder>, l: Life, id: nat) {
    && (l.stage == Resting ==> l.remaining >= 0 && l.side != OtherSide)
    && (id in orders <==> l.stage == Resting && l.remaining > 0)
    && (id in orders ==> orders[id] == RestingOrder(l.remaining, l.price, l.side))
  }

  ghost predicate MirrorsAll(orders: map<nat, RestingOrder>, logs: seq<Log>) {
    forall id :: Mirrors(orders, LifeAgain(Unborn, logs, id), id)
  }

  /** One log in form moves the replica as it moves the lives. */
  lemma {:induction false} OneLogMirrors(b: L2Book, offset: int, log: Log, id: nat, l: Life, other: Life, otherId: nat)
    requires Aggregated(b) && Mirrors(b.orders, l, id) && Mirrors(b.orders, other, otherId)
    requires id == (if log.MatchLog? then log.makerOrderId else log.orderId)
    requires AdvanceAgain(l, log, id).stage != Broken && AdvanceAgain(other, log, otherId).stage != Broken
    requires otherId == id ==> other == l
    ensures var s := ApplyLog(b, offset, log);
            !s.reply.Panics() && Aggregated(s.book) && Mirrors(s.book.orders, AdvanceAgain(other, log, otherId), otherId)
  {
    hide SaveOrder, Aggregated;
    match log
    case OpenLog(sequence, _, _, remainingSize, price, side, _) =>
      SaveKeepsAggregated(b, offset, sequence, id, remainingSize, price, side);
    case MatchLog(sequence, _, _, _, _, _, side, price, size, _, _) =>
      SaveKeepsAggregated(b, offset, sequence, id, l.remaining - size, price, side);
    case DoneLog(sequence, _, _, price, remainingSize, _, side, _) =>
      if id in b.orders {
        SaveKeepsAggregated(b, offset, sequence, id, 0, price, side);
      }
  }

  lemma {:induction false} ReplayMirrors(ds: seq<Delivery>)
    requires InForm(LogsIn(ds))
    ensures var r := Replay(NewL2Book, ds);
            !r.panicked && Aggregated(r.book) && MirrorsAll(r.book.orders, LogsIn(ds))
    decreases |ds|
  {
    hide SaveOrder, ApplyLog, Aggregated, AdvanceAgain;
    if ds == [] {
      NewBookAggregated();
      assert LogsIn(ds) == [];
    } else {
      var n := |ds| - 1;
      var log := ds[n].log;
      var logs := LogsIn(ds[..n]);
      assert LogsIn(ds) == logs + [log];
      PrefixInForm(logs, log);
      ReplayMirrors(ds[..n]);
      var b := Replay(NewL2Book, ds[..n]).book;
      var id := if log.MatchLog? then log.makerOrderId else log.orderId;
      forall otherId
        ensures var s := ApplyLog(b, ds[n].offset, log);
                && !s.reply.Panics() && Aggregated(s.book)
                && Mirrors(s.book.orders, LifeAgain(Unborn, LogsIn(ds), otherId), otherId)
      {
        OneLogMirrors(b, ds[n].offset, log, id, LifeAgain(Unborn, logs, id), LifeAgain(Unborn, logs, otherId), otherId);
      }
      assert Aggregated(ApplyLog(b, ds[n].offset, log).book) && !ApplyLog(b, ds[n].offset, log).reply.Panics() by {
        OneLogMirrors(b, ds[n].offset, log, id, LifeAgain(Unborn, logs, id), LifeAgain(Unborn, logs, id), id);
      }
    }
  }

  /** A copy of the engine's resting orders, as the replica keeps orders. */
  ghost predicate SameOrders(orders: map<nat, RestingOrder>, b: Book) {
    forall id ::
      match Find(b, id)
      case None => id !in orders
      case Some(o) => id in orders && orders[id] == RestingOrder(o.size, o.price, o.side)
  }

  /** Whatever orders the engine has been fed, each any number of times: a replica that has read its
      log has not panicked, holds exactly its resting orders, and shows at every price the total and
      number of the orders there. */
  lemma {:induction false} ReplicaAgrees(p: Product, orders: seq<Order>, ds: seq<Delivery>)
    requires AllWellFormed(orders) && Redelivered(orders) && LogsIn(ds) == Run(p, orders).logs
    ensures InForm(LogsIn(ds))
    ensures var r := Replay(NewL2Book, ds);
            !r.panicked && SameOrders(r.book.orders, Run(p, orders).book) && Aggregated(r.book)
  {
    hide Run, Replay, LifeAgain, Find, Aggregated;
    RunIsInForm(p, orders);
    ReplayMirrors(ds);
    var b := Run(p, orders).book;
    var replica := Replay(NewL2Book, ds).book.orders;
    forall id
      ensures match Find(b, id)
              case None => id !in replica
              case Some(o) => id in replica && replica[id] == RestingOrder(o.size, o.price, o.side)
    {
      EveryOrderLivesAgain(p, orders, id);
      assert Mirrors(replica, LifeAgain(Unborn, Run(p, orders).logs, id), id);
      FoundIsAlive(b, id);
    }
  }

  lemma {:induction false} RunIsInForm(p: Product, orders: seq<Order>)
    requires AllWellFormed(orders) && Redelivered(orders)
    ensures InForm(Run(p, orders).logs)
  {
    hide Run, LifeAgain, Find;
    forall id
      ensures LifeAgain(Unborn, Run(p, orders).logs, id).stage != Broken
    {
      EveryOrderLivesAgain(p, orders, id);
    }
  }

  lemma FoundIsAlive(b: Book, id: nat)
    requires Invariant(b)
    ensures Find(b, id).Some? ==> Find(b, id).value.size > 0
  {
    if Find(b, id).Some? {
      var o := Find(b, id).value;
      var i :| (0 <= i < |b.bids| && b.bids[i] == o) || (0 <= i < |b.asks| && b.asks[i] == o);
    }
  }

  lemma SaveSameSize(b: L2Book, offset: int, logSeq: nat, id: nat, rest: int)
    requires Aggregated(b) && id in b.orders && rest >= 0
    ensures var o := b.orders[id];
            var s := SaveOrder(b, offset, logSeq, id, rest, o.price, o.side);
            !s.reply.Panics() && (s.book.orders == b.orders <==> rest == o.size)
  {
    hide SaveOrder;
    var o := b.orders[id];
    SaveKeepsAggregated(b, offset, logSeq, id, rest, o.price, o.side);
    if rest == o.size {
      assert b.orders[id := o] == b.orders;
    } else {
      assert rest > 0 ==> b.orders[id := RestingOrder(rest, o.price, o.side)][id] != o;
    }
  }

  lemma SameOrdersOnce(orders: map<nat, RestingOrder>, orders': map<nat, RestingOrder>, b: Book)
    requires SameOrders(orders, b)
    ensures SameOrders(orders', b) <==> orders' == orders
  {
    if SameOrders(orders', b) {
      forall id
        ensures id in orders <==> id in orders'
        ensures id in orders ==> orders[id] == orders'[id]
      {
        var place := Find(b, id);
      }
    }
  }

  /** An order nullified under the id of a resting order ends it in the replica alone. The replica
      stays in step exactly when the id does not rest or the nullified size is zero, and it panics
      exactly when the nullified size is more than what rests. */
  lemma {:induction false} NullifyAgreesIff(b: Book, r: L2Book, offset: int, o: Order)
    requires Invariant(b) && Aggregated(r) && SameOrders(r.orders, b) && o.size >= 0
    requires Find(b, o.id).Some? ==> Find(b, o.id).value.side == o.side && Find(b, o.id).value.price == o.price
    ensures var n := NullifyOrder(b, o);
            var s := ApplyLog(r, offset, n.logs[0]);
            && (!s.reply.Panics() && SameOrders(s.book.orders, n.book) <==> Find(b, o.id).None? || o.size == 0)
            && (s.reply.Panics() <==> Find(b, o.id).Some? && o.size > Find(b, o.id).value.size)
  {
    hide Invariant, Aggregated, Lookup, Admit;
    var n := NullifyOrder(b, o);
    var s := ApplyLog(r, offset, n.logs[0]);
    NullifyMovesNothing(s.book.orders, b, o);
    SameOrdersOnce(r.orders, s.book.orders, b);
    if Find(b, o.id).Some? {
      FoundIsAlive(b, o.id);
      var rest := Find(b, o.id).value.size - o.size;
      assert r.orders[o.id] == RestingOrder(Find(b, o.id).value.size, o.price, o.side);
      if rest >= 0 {
        SaveSameSize(r, offset, n.logs[0].sequence, o.id, rest);
      }
    }
  }

  /** A bid of a unit, and the same under FOK, which finds no ask. */
  function ChangedTerms(): seq<Order> {
    var bid := Order(1, 1, Buy, Limit, GTC, 1, 1, 1, false);
    [bid, bid.(tif := FOK)]
  }

  /** So the terms must not change under an id: the bid rests, the FOK order is nullified, and the
      replica ends the bid. */
  lemma {:induction false} ChangedTermsPartTheReplica(p: Product, ds: seq<Delivery>)
    requires AllWellFormed(ChangedTerms()) && LogsIn(ds) == Run(p, ChangedTerms()).logs
    ensures !SameOrders(Replay(NewL2Book, ds).book.orders, Run(p, ChangedTerms()).book)
  {
    hide Aggregated, SameOrders, Replay, ApplyLog, Lookup;
    var bid, orders := ChangedTerms()[0], ChangedTerms();
    var rests := BidRests(p, bid);
    assert orders[..1] == [bid] && orders[..2] == orders;
    var n := |ds| - 1;
    assert LogsIn(ds[..n]) == LogsIn(ds)[..n];
    ReplicaAgrees(p, [bid], ds[..n]);
    NullifyAgreesIff(rests, Replay(NewL2Book, ds[..n]).book, ds[n].offset, orders[1]);
    LastLogReplayed(ds);
  }

  lemma LastLogReplayed(ds: seq<Delivery>)
    requires ds != [] && !Replay(NewL2Book, ds[..|ds| - 1]).panicked
    ensures var n := |ds| - 1;
            Replay(NewL2Book, ds).book == ApplyLog(Replay(NewL2Book, ds[..n]).book, ds[n].offset, ds[n].log).book
  {
    hide ApplyLog;
  }

  lemma {:induction false} BidRests(p: Product, bid: Order) returns (b: Book)
    requires bid == ChangedTerms()[0]
    ensures AllWellFormed([bid]) && AllWellFormed(ChangedTerms()) && Run(p, [bid]).book == b && Invariant(b)
    ensures Find(b, 1) == Some(NewBookOrder(bid))
    ensures var n := NullifyOrder(b, ChangedTerms()[1]);
            Run(p, ChangedTerms()) == Outcome(n.book, Run(p, [bid]).logs + n.logs)
  {
    b := Book([NewBookOrder(bid)], [], 0, 1, {1});
    assert [bid][..0] == [] && ChangedTerms()[..1] == [bid];
    assert Run(p, []) == Outcome(EmptyBook, []);
    assert Admissible({}, 1) && {} + {1} == {1};
    assert Step(p, EmptyBook, bid).book == b;
    assert Run(p, [bid]).book == b;
    assert !WillFullMatch(p, b, ChangedTerms()[1]);
  }

  lemma NullifyMovesNothing(orders: map<nat, RestingOrder>, b: Book, o: Order)
    ensures SameOrders(orders, NullifyOrder(b, o).book) <==> SameOrders(orders, b)
  {
    assert forall id :: Find(NullifyOrder(b, o).book, id) == Find(b, id);
  }

  // ---- deltas ----

  /** What a client sees of a book: the size at each price. */
  datatype LevelView = LevelView(bids: map<int, int>, asks: map<int, int>)

  function Sizes(levels: map<int, PriceLevel>): map<int, int> {
    map price | price in levels :: levels[price].size
  }

  function ViewOf(b: L2Book): LevelView {
    LevelView(Sizes(b.bids), Sizes(b.asks))
  }

  function SetLevel(levels: map<int, int>, price: int, size: int): map<int, int> {
    if size == 0 then levels - {price} else levels[price := size]
  }

  function ApplyChange(v: LevelView, c: Level2Change): LevelView {
    match c.side
    case Buy => v.(bids := SetLevel(v.bids, c.price, c.size))
    case Sell => v.(asks := SetLevel(v.asks, c.price, c.size))
    case OtherSide => v
  }

  lemma SizesAfter(levels: map<int, PriceLevel>, price: int, level: PriceLevel)
    ensures Sizes(levels[price := level]) == Sizes(levels)[price := level.size]
    ensures Sizes(levels - {price}) == Sizes(levels) - {price}
  {
  }

  lemma {:induction false} SaveIsTheDifference(b: L2Book, offset: int, logSeq: nat, id: nat, newSize: int, price: int, side: Side)
    requires Aggregated(b)
    ensures var s := SaveOrder(b, offset, logSeq, id, newSize, price, side);
            && (s.reply.Changed? ==>
                  ViewOf(s.book) == ApplyChange(ViewOf(b), s.reply.change)
                  && s.reply.change.sequence == s.book.sequence == b.sequence + 1)
            && (s.reply.Unchanged? ==> s.book == b)
  {
    hide Aggregated, Sizes;
    var s := SaveOrder(b, offset, logSeq, id, newSize, price, side);
    var levels := b.Levels(side);
    if price in levels {
      LevelsArePositive(b, side, price);
    }
    if price in s.book.Levels(side) {
      SizesAfter(levels, price, s.book.Levels(side)[price]);
    } else {
      SizesAfter(levels, price, PriceLevel(0, 0));
    }
  }

  /** Every published change is the exact difference between the view before and the view after,
      and the changes are numbered without a gap. */
  lemma {:induction false} ChangeIsTheDifference(b: L2Book, offset: int, log: Log)
    requires Aggregated(b)
    ensures var s := ApplyLog(b, offset, log);
            && (s.reply.Changed? ==>
                  ViewOf(s.book) == ApplyChange(ViewOf(b), s.reply.change)
                  && s.reply.change.sequence == s.book.sequence == b.sequence + 1)
            && (s.reply.Unchanged? ==> s.book == b)
  {
    hide Aggregated, SaveOrder, ViewOf, ApplyChange;
    match log
    case OpenLog(sequence, id, _, remainingSize, price, side, _) =>
      SaveIsTheDifference(b, offset, sequence, id, remainingSize, price, side);
    case MatchLog(sequence, _, _, id, _, _, side, price, size, _, _) =>
      if id in b.orders {
        SaveIsTheDifference(b, offset, sequence, id, b.orders[id].size - size, price, side);
      }
    case DoneLog(sequence, id, _, price, remainingSize, _, side, _) =>
      if id in b.orders {
        SaveIsTheDifference(b, offset, sequence, id, b.orders[id].size - remainingSize, price, side);
      }
  }

  lemma LevelsArePositive(b: L2Book, side: Side, price: int)
    requires Aggregated(b) && price in b.Levels(side)
    ensures b.Levels(side)[price].size > 0
  {
    assert LevelIsSum(b, side, price);
    CountsAndSizes(b.orders, side, price);
    EmptyIffCountZero(b.orders, side, price);
  }

  function ApplyChanges(v: LevelView, cs: seq<Level2Change>): LevelView
    decreases |cs|
  {
    if cs == [] then v else ApplyChange(ApplyChanges(v, cs[..|cs| - 1]), cs[|cs| - 1])
  }

  /** The view at every sequence number, and the changes between them. */
  ghost predicate IsHistory(views: seq<LevelView>, changes: seq<Level2Change>) {
    && |views| == |changes| + 1
    && forall i :: 0 <= i < |changes| ==>
         changes[i].sequence == i + 1 && views[i + 1] == ApplyChange(views[i], changes[i])
  }

  function HistoryOf(ds: seq<Delivery>): seq<LevelView>
    decreases |ds|
  {
    if ds == [] then [ViewOf(NewL2Book)]
    else
      var before := Replay(NewL2Book, ds[..|ds| - 1]);
      var s := ApplyLog(before.book, ds[|ds| - 1].offset, ds[|ds| - 1].log);
      HistoryOf(ds[..|ds| - 1]) + if s.reply.Changed? then [ViewOf(s.book)] else []
  }

  /** The stream's published changes form a history that ends at the book itself. */
  lemma {:induction false} ReplayIsHistory(ds: seq<Delivery>)
    requires InForm(LogsIn(ds))
    ensures var r := Replay(NewL2Book, ds);
            && IsHistory(HistoryOf(ds), r.changes)
            && r.book.sequence == |r.changes| && HistoryOf(ds)[|r.changes|] == ViewOf(r.book)
    decreases |ds|
  {
    hide ApplyLog, ViewOf, Aggregated, ApplyChange, LifeAgain;
    if ds != [] {
      var n := |ds| - 1;
      PrefixOfReplay(ds);
      ReplayMirrors(ds[..n]);
      ReplayMirrors(ds);
      ReplayIsHistory(ds[..n]);
      ChangeIsTheDifference(Replay(NewL2Book, ds[..n]).book, ds[n].offset, ds[n].log);
    }
  }

  lemma PrefixOfReplay(ds: seq<Delivery>)
    requires InForm(LogsIn(ds)) && ds != []
    ensures InForm(LogsIn(ds[..|ds| - 1]))
  {
    var n := |ds| - 1;
    assert LogsIn(ds) == LogsIn(ds[..n]) + [ds[n].log];
    PrefixInForm(LogsIn(ds[..n]), ds[n].log);
  }

  /** A level-2 snapshot at `s` and the changes after it up to `n` rebuild the level map at `n`. */
  lemma {:induction false} DeltasRebuild(views: seq<LevelView>, changes: seq<Level2Change>, s: nat, n: nat)
    requires IsHistory(views, changes) && s <= n <= |changes|
    ensures ApplyChanges(views[s], changes[s..n]) == views[n]
    decreases n - s
  {
    if s < n {
      DeltasRebuild(views, changes, s, n - 1);
      assert changes[s..n][..n - s - 1] == changes[s..n - 1];
    }
  }

  // ---- full snapshots ----

  datatype Entry = Entry(id: nat, order: RestingOrder)

  datatype FullSnapshot = FullSnapshot(entries: seq<Entry>, sequence: nat, logOffset: int, logSeq: nat)

  /** Every order of the book once, in any order, with the book's position. */
  ghost predicate FullSnapshotOf(s: FullSnapshot, b: L2Book) {
    && (forall i, j :: 0 <= i < j < |s.entries| ==> s.entries[i].id != s.entries[j].id)
    && (forall i :: 0 <= i < |s.entries| ==> s.entries[i].id in b.orders && b.orders[s.entries[i].id] == s.entries[i].order)
    && (forall id :: id in b.orders ==> exists i :: 0 <= i < |s.entries| && s.entries[i].id == id)
    && s.sequence == b.sequence && s.logOffset == b.logOffset && s.logSeq == b.logSeq
  }

  function SaveEntries(b: L2Book, entries: seq<Entry>): L2Book
    decreases |entries|
  {
    if entries == [] then b
    else
      var e := entries[|entries| - 1];
      SaveOrder(SaveEntries(b, entries[..|entries| - 1]), 0, 0, e.id, e.order.size, e.order.price, e.order.side).book
  }

  function RestoreFull(s: FullSnapshot): L2Book {
    SaveEntries(NewL2Book, s.entries).(sequence := s.sequence, logOffset := s.logOffset, logSeq := s.logSeq)
  }

  /** The levels of an aggregated book are decided by its orders. */
  lemma LevelsFollowOrders(a: L2Book, b: L2Book)
    requires Aggregated(a) && Aggregated(b) && a.orders == b.orders
    ensures a.bids == b.bids && a.asks == b.asks
  {
    forall price
      ensures price in a.bids <==> price in b.bids
      ensures price in a.bids ==> a.bids[price] == b.bids[price]
      ensures price in a.asks <==> price in b.asks
      ensures price in a.asks ==> a.asks[price] == b.asks[price]
    {
      assert LevelIsSum(a, Buy, price) && LevelIsSum(b, Buy, price);
      assert LevelIsSum(a, Sell, price) && LevelIsSum(b, Sell, price);
    }
  }

  lemma {:induction false} SaveEntriesRestores(s: FullSnapshot, b: L2Book, k: nat)
    requires FullSnapshotOf(s, b) && Aggregated(b) && k <= |s.entries|
    ensures var r := SaveEntries(NewL2Book, s.entries[..k]);
            && Aggregated(r)
            && (forall id :: id in r.orders <==> exists i :: 0 <= i < k && s.entries[i].id == id)
            && (forall id :: id in r.orders ==> id in b.orders && r.orders[id] == b.orders[id])
  {
    hide SaveOrder;
    if k == 0 {
      NewBookAggregated();
    } else {
      SaveEntriesRestores(s, b, k - 1);
      assert s.entries[..k][..k - 1] == s.entries[..k - 1];
      var e := s.entries[k - 1];
      assert s.entries[..k][k - 1] == e;
      var r := SaveEntries(NewL2Book, s.entries[..k - 1]);
      SaveKeepsAggregated(r, 0, 0, e.id, e.order.size, e.order.price, e.order.side);
    }
  }

  /** Restoring a full snapshot, however it lists the orders, gives back the book with every
      price level. */
  lemma {:induction false} RestoreFullUndoesSnapshot(s: FullSnapshot, b: L2Book)
    requires FullSnapshotOf(s, b) && Aggregated(b)
    ensures RestoreFull(s) == b
  {
    hide Aggregated;
    SaveEntriesRestores(s, b, |s.entries|);
    assert s.entries[..|s.entries|] == s.entries;
    var r := SaveEntries(NewL2Book, s.entries);
    assert r.orders == b.orders;
    LevelsFollowOrders(r, b);
  }

  lemma {:induction false} ReplaySplits(b: L2Book, a: seq<Delivery>, c: seq<Delivery>)
    requires !Replay(b, a + c).panicked
    ensures !Replay(b, a).panicked
    ensures Replay(b, a + c).book == Replay(Replay(b, a).book, c).book
    ensures Replay(b, a + c).changes == Replay(b, a).changes + Replay(Replay(b, a).book, c).changes
    ensures !Replay(Replay(b, a).book, c).panicked
    decreases |c|
  {
    hide ApplyLog;
    if c == [] {
      assert a + c == a;
    } else {
      var n := |c| - 1;
      assert (a + c)[..|a| + n] == a + c[..n];
      assert (a + c)[|a| + n] == c[n];
      ReplaySplits(b, a, c[..n]);
    }
  }

  /** The position a book records is that of the last log that changed it, so everything after
      that position may be read again. */
  lemma {:induction false} PositionIsLastChange(ds: seq<Delivery>) returns (j: nat)
    requires InForm(LogsIn(ds))
    ensures j <= |ds| && Replay(NewL2Book, ds[..j]).book == Replay(NewL2Book, ds).book
    ensures var b := Replay(NewL2Book, ds).book;
            if j == 0 then b.logSeq == 0 else b.logOffset == ds[j - 1].offset && b.logSeq == ds[j - 1].log.sequence
    decreases |ds|
  {
    hide ApplyLog, Aggregated, LifeAgain;
    if ds == [] {
      j := 0;
    } else {
      var n := |ds| - 1;
      PrefixOfReplay(ds);
      ReplayMirrors(ds[..n]);
      ReplayMirrors(ds);
      var b := Replay(NewL2Book, ds[..n]).book;
      ChangeIsTheDifference(b, ds[n].offset, ds[n].log);
      if ApplyLog(b, ds[n].offset, ds[n].log).reply.Changed? {
        j := |ds|;
        assert ds[..j] == ds;
        ChangeRecordsPosition(b, ds[n].offset, ds[n].log);
      } else {
        j := PositionIsLastChange(ds[..n]);
        assert ds[..n][..j] == ds[..j];
      }
    }
  }

  lemma ChangeRecordsPosition(b: L2Book, offset: int, log: Log)
    ensures var s := ApplyLog(b, offset, log);
            s.reply.Changed? ==> s.book.logOffset == offset && s.book.logSeq == log.sequence
  {
  }

  lemma {:induction false} PrefixesInForm(ds: seq<Delivery>, k: nat)
    requires InForm(LogsIn(ds)) && k <= |ds|
    ensures InForm(LogsIn(ds[..k]))
    decreases |ds|
  {
    if k < |ds| {
      PrefixOfReplay(ds);
      PrefixesInForm(ds[..|ds| - 1], k);
      assert ds[..|ds| - 1][..k] == ds[..k];
    } else {
      assert ds[..k] == ds;
    }
  }

  /** A replica restarted from a full snapshot taken after the first `k` logs, reading on from the
      position the snapshot records, ends with the book of one that never stopped. */
  lemma {:induction false} RestartedReplicaAgrees(ds: seq<Delivery>, k: nat, s: FullSnapshot) returns (j: nat)
    requires InForm(LogsIn(ds)) && k <= |ds|
    requires FullSnapshotOf(s, Replay(NewL2Book, ds[..k]).book)
    ensures j <= k
    ensures if j == 0 then s.logSeq == 0 else s.logOffset == ds[j - 1].offset && s.logSeq == ds[j - 1].log.sequence
    ensures Replay(RestoreFull(s), ds[j..]).book == Replay(NewL2Book, ds).book
    ensures !Replay(RestoreFull(s), ds[j..]).panicked
  {
    hide ApplyLog, Aggregated, LifeAgain;
    PrefixesInForm(ds, k);
    ReplayMirrors(ds[..k]);
    ReplayMirrors(ds);
    RestoreFullUndoesSnapshot(s, Replay(NewL2Book, ds[..k]).book);
    j := PositionIsLastChange(ds[..k]);
    assert ds[..k][..j] == ds[..j];
    assert ds[..j] + ds[j..] == ds;
    ReplaySplits(NewL2Book, ds[..j], ds[j..]);
  }
}
