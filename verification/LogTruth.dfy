/** What the log of a run says of its orders, log by log (matching/log.go). */
module LogTruth {
  import opened Exchange
  import opened Depths
  import opened Matcher
  import opened Invariants
  import opened Runs
  import opened TimeInForces
  import opened Lifecycle
  import opened Trades

  // ---- why an order is done ----

  /** The order traded all of its size or, a market buy, has no funds left. */
  predicate TradedAll(o: Order, l: Life) {
    if Sized(o) then l.filled == o.size else l.value >= o.funds
  }

  predicate DoneOf(log: Log, id: nat) {
    log.DoneLog? && log.orderId == id
  }

  ghost predicate NoneDone(logs: seq<Log>, id: nat) {
    forall k :: 0 <= k < |logs| ==> !DoneOf(logs[k], id)
  }

  /** Every done log of the order says filled exactly if it traded all. */
  ghost predicate ReasonsRight(logs: seq<Log>, o: Order, l: Life) {
    forall k :: 0 <= k < |logs| && DoneOf(logs[k], o.id) ==> (logs[k].reason == Filled <==> TradedAll(o, l))
  }

  /** Every done log of another id says filled exactly if nothing was left. */
  ghost predicate OthersRight(logs: seq<Log>, id: nat) {
    forall k :: 0 <= k < |logs| && logs[k].DoneLog? && logs[k].orderId != id ==>
      (logs[k].reason == Filled <==> logs[k].remainingSize == 0)
  }

  lemma {:induction false} MatchEndsMakers(p: Product, taker: BookOrder, makers: seq<BookOrder>, logSeq: nat, tradeSeq: nat)
    requires Priced(makers)
    ensures var logs := Match(p, taker, makers, logSeq, tradeSeq).logs;
            OthersRight(logs, taker.orderId) && (!HasId(makers, taker.orderId) ==> NoneDone(logs, taker.orderId))
    decreases |makers|
  {
    hide TradeLogs, TradeSize, PricesCross, Exhausted, HasId, DoneOf;
    if TradesFirst(p, taker, makers) {
      MatchUnfolds(p, taker, makers, logSeq, tradeSeq);
      var size := TradeSize(p, taker, makers[0]);
      var taker' := Spend(taker, size, makers[0].price);
      var logs := TradeLogs(logSeq, tradeSeq, taker', makers[0], size);
      OneTradeEnds(logSeq, tradeSeq, taker', makers[0], size);
      HeadOrTail(makers, taker.orderId);
      if !Exhausted(taker') {
        MatchEndsMakers(p, taker', makers[1..], logSeq + |logs|, tradeSeq + 1);
      }
      MakersEndAppend(logs, MatchRest(p, taker, makers, logSeq, tradeSeq).logs, taker.orderId);
    }
  }

  lemma OneTradeEnds(logSeq: nat, tradeSeq: nat, taker: BookOrder, maker: BookOrder, size: int)
    ensures var logs := TradeLogs(logSeq, tradeSeq, taker, maker, size);
            OthersRight(logs, taker.orderId) && (maker.orderId != taker.orderId ==> NoneDone(logs, taker.orderId))
  {
  }

  lemma MakersEndAppend(a: seq<Log>, c: seq<Log>, id: nat)
    requires OthersRight(a, id) && OthersRight(c, id)
    ensures OthersRight(a + c, id) && (NoneDone(a, id) && NoneDone(c, id) ==> NoneDone(a + c, id))
  {
  }

  lemma {:induction false} ApplyEndsOthers(p: Product, b: Book, o: Order)
    requires Sound(b)
    ensures OthersRight(ApplyOrder(p, b, o).logs, o.id)
  {
    hide Match;
    var taker := PrepareTaker(p, NewBookOrder(o));
    var makers := b.Resting(o.side.Opposite());
    MatchEndsMakers(p, taker, makers, b.logSeq, b.tradeSeq);
    MatchTakerFields(p, taker, makers, b.logSeq, b.tradeSeq);
  }

  /** Every done log of the id says filled exactly if nothing was left. */
  ghost predicate EndsRight(logs: seq<Log>, id: nat) {
    forall k :: 0 <= k < |logs| && DoneOf(logs[k], id) ==> (logs[k].reason == Filled <==> logs[k].remainingSize == 0)
  }

  /** In a step that does not bring an id the order that rests under it ends as filled exactly if
      nothing of it is left. */
  lemma {:induction false} StepEndsOthers(p: Product, b: Book, o: Order, id: nat)
    requires Invariant(b) && WellFormed(o) && (o.cancelling || o.id != id)
    ensures Sound(b) && EndsRight(Step(p, b, o).logs, id)
  {
    hide ApplyOrder, CancelOrder, WillFullMatch, WillNotMatch, Invariant, EndsRight, OthersRight;
    InvariantIsGood(b);
    CancelEnds(b, o);
    CancelledRight(CancelOrder(b, o).logs, id);
    if !o.cancelling {
      var applied := ApplyOrder(p, b, o);
      ApplyEndsOthers(p, b, o);
      OthersEndRight(applied.logs, o.id, id);
      OthersEndRight(NullifyOrder(b, o).logs, o.id, id) by {
        NullifyEndsOthers(b, o);
      }
      NothingEnds(id);
      ApplyKeepsInvariant(p, b, o);
      CancelEnds(applied.book, o);
      CancelledRight(CancelOrder(applied.book, o).logs, id);
      RightAppend(applied.logs, CancelOrder(applied.book, o).logs, id);
    }
  }

  lemma NullifyEndsOthers(b: Book, o: Order)
    ensures OthersRight(NullifyOrder(b, o).logs, o.id)
  {
  }

  lemma NothingEnds(id: nat)
    ensures EndsRight([], id)
  {
  }

  lemma OthersEndRight(logs: seq<Log>, other: nat, id: nat)
    requires OthersRight(logs, other) && other != id
    ensures EndsRight(logs, id)
  {
  }

  lemma CancelledRight(logs: seq<Log>, id: nat)
    requires forall k :: 0 <= k < |logs| ==> logs[k].DoneLog? && logs[k].reason == Cancelled && logs[k].remainingSize > 0
    ensures EndsRight(logs, id)
  {
  }

  lemma RightAppend(a: seq<Log>, c: seq<Log>, id: nat)
    requires EndsRight(a, id) && EndsRight(c, id)
    ensures EndsRight(a + c, id)
  {
  }

  lemma {:induction false} CancelEnds(b: Book, o: Order)
    requires Invariant(b)
    ensures var logs := CancelOrder(b, o).logs;
            forall k :: 0 <= k < |logs| ==>
              logs[k].DoneLog? && logs[k].orderId == o.id && logs[k].reason == Cancelled && logs[k].remainingSize > 0
  {
    var r := Lookup(b.Resting(o.side), o.id);
    if r.Some? {
      var i :| 0 <= i < |b.Resting(o.side)| && b.Resting(o.side)[i] == r.value;
    }
  }

  // ---- the automaton and done logs ----

  /** A done log settles what is left of a life that follows no further. */
  lemma {:induction false} DoneSettles(l: Life, logs: seq<Log>, id: nat, k: nat)
    requires LifeOf(l, logs, id).stage != Broken && k < |logs| && DoneOf(logs[k], id)
    ensures l.stage != Closed
    ensures LifeOf(l, logs, id).stage == Closed && LifeOf(l, logs, id).remaining == logs[k].remainingSize
    decreases |logs|
  {
    var l1 := Advance(l, logs[0], id);
    if l1.stage == Broken {
      BrokenForGood(l1, logs[1..], id);
    }
    if k == 0 {
      ClosedStays(l1, logs[1..], id);
    } else {
      DoneSettles(l1, logs[1..], id, k - 1);
    }
  }

  lemma {:induction false} BrokenForGood(l: Life, logs: seq<Log>, id: nat)
    requires l.stage == Broken
    ensures LifeOf(l, logs, id).stage == Broken
    decreases |logs|
  {
    if logs != [] {
      BrokenForGood(Advance(l, logs[0], id), logs[1..], id);
    }
  }

  lemma {:induction false} ClosedStays(l: Life, logs: seq<Log>, id: nat)
    requires l.stage == Closed && LifeOf(l, logs, id).stage != Broken
    ensures LifeOf(l, logs, id) == l
    decreases |logs|
  {
    if logs != [] {
      if Advance(l, logs[0], id).stage == Broken {
        BrokenForGood(Advance(l, logs[0], id), logs[1..], id);
      }
      ClosedStays(l, logs[1..], id);
    }
  }

  // ---- the step that brings the order ----

  lemma {:induction false} ApplyReasonsRight(p: Product, b: Book, o: Order)
    requires Invariant(b) && WellFormed(o) && Find(b, o.id) == None
    ensures Sound(b) && ReasonsRight(ApplyOrder(p, b, o).logs, o, LifeOf(Unborn, ApplyOrder(p, b, o).logs, o.id))
  {
    hide Match, Invariant, LifeOf, Admissible, Advance, MaxPrice, HasId;
    InvariantIsGood(b);
    if Admissible(b.accepted, o.id) {
      Lifecycle.NotFound(b, o.id);
      MatchSpends(p, b, o, None);
      MatchesAlike(p, b, o);
      var taker := PrepareTaker(p, NewBookOrder(o));
      MatchEndsMakers(p, taker, b.Resting(o.side.Opposite()), b.logSeq, b.tradeSeq);
      var m := MatchOrder(p, b, o);
      var b' := AfterTrades(b.(accepted := b.accepted + {o.id}), o.side, m);
      var l := LifeOf(Unborn, m.logs, o.id);
      LifeAppend(Unborn, m.logs, Settle(b', m.taker).logs, o.id);
      SettleReason(b', m.taker, o, l);
    }
  }

  lemma {:induction false} SettleReason(b: Book, t: BookOrder, o: Order, l: Life)
    requires WellFormed(o) && t.orderId == o.id && t.side == o.side && t.otype == o.otype
    requires if Sized(o) then l.filled + t.size == o.size && t.size >= 0 else l.value + t.funds == o.funds
    ensures ReasonsRight(Settle(b, t).logs, o, LifeOf(l, Settle(b, t).logs, o.id))
  {
    LifeOne(l, Settle(b, t).logs[0], o.id);
  }

  lemma {:induction false} NullifyReasonsRight(b: Book, o: Order)
    requires WellFormed(o)
    ensures ReasonsRight(NullifyOrder(b, o).logs, o, LifeOf(Unborn, NullifyOrder(b, o).logs, o.id))
  {
    LifeOne(Unborn, NullifyOrder(b, o).logs[0], o.id);
  }

  lemma {:induction false} StepReasonsRight(p: Product, b: Book, o: Order)
    requires Invariant(b) && WellFormed(o) && !o.cancelling && Find(b, o.id) == None
    ensures Sound(b) && ReasonsRight(Step(p, b, o).logs, o, LifeOf(Unborn, Step(p, b, o).logs, o.id))
  {
    hide Invariant, ApplyOrder, NullifyOrder, Find, LifeOf, WillFullMatch, WillNotMatch, WellFormed, TradedAll;
    InvariantIsGood(b);
    ApplyReasonsRight(p, b, o);
    NullifyReasonsRight(b, o);
    if o.tif == IOC {
      IocReasonsRight(p, b, o);
    }
  }

  lemma {:induction false} IocReasonsRight(p: Product, b: Book, o: Order)
    requires Invariant(b) && WellFormed(o) && !o.cancelling && Find(b, o.id) == None && o.tif == IOC
    ensures Sound(b) && ReasonsRight(Step(p, b, o).logs, o, LifeOf(Unborn, Step(p, b, o).logs, o.id))
  {
    hide Invariant, ApplyOrder, LifeOf, Lookup, Decrease, Admit, WellFormed;
    InvariantIsGood(b);
    var applied := ApplyOrder(p, b, o);
    var l := LifeOf(Unborn, applied.logs, o.id);
    ApplyReasonsRight(p, b, o);
    ApplyBears(p, b, o, None);
    ApplyKeepsInvariant(p, b, o);
    var cancelled := CancelOrder(applied.book, o);
    CancelEnds(applied.book, o);
    LifeAppend(Unborn, applied.logs, cancelled.logs, o.id);
    if cancelled.logs == [] {
      LifeNone(l, o.id);
      assert applied.logs + [] == applied.logs;
    } else {
      FindOnSide(applied.book, o.side, o.id) by {
        SideKnown(o);
      }
      LifeOne(l, cancelled.logs[0], o.id);
      RestingIsNotDone(p, applied.logs, o, l, Find(applied.book, o.id));
    }
  }

  lemma SideKnown(o: Order)
    requires WellFormed(o)
    ensures o.side != OtherSide
  {
  }

  /** While an order rests, it is a limit order with something left and no log says it is done. */
  lemma {:induction false} RestingIsNotDone(p: Product, logs: seq<Log>, o: Order, l: Life, place: Option<BookOrder>)
    requires Lived(p, l, place, o, None) && place.Some? && l == LifeOf(Unborn, logs, o.id)
    ensures NoneDone(logs, o.id) && !TradedAll(o, l) && l.remaining > 0 && l.stage == Resting
    ensures o.otype == Limit && l.filled + l.remaining == o.size
  {
    hide LifeOf;
    forall k | 0 <= k < |logs|
      ensures !DoneOf(logs[k], o.id)
    {
      if DoneOf(logs[k], o.id) {
        DoneSettles(Unborn, logs, o.id, k);
      }
    }
  }

  // ---- whole runs ----

  lemma {:induction false} NotClosedNoneDone(logs: seq<Log>, id: nat)
    requires LifeOf(Unborn, logs, id).stage !in {Broken, Closed}
    ensures NoneDone(logs, id)
  {
    hide LifeOf;
    forall k | 0 <= k < |logs|
      ensures !DoneOf(logs[k], id)
    {
      if DoneOf(logs[k], id) {
        DoneSettles(Unborn, logs, id, k);
      }
    }
  }

  lemma {:induction false} ClosedNoneDone(l: Life, logs: seq<Log>, id: nat)
    requires l.stage == Closed && LifeOf(l, logs, id).stage != Broken
    ensures NoneDone(logs, id) && LifeOf(l, logs, id) == l
  {
    hide LifeOf;
    ClosedStays(l, logs, id);
    forall k | 0 <= k < |logs|
      ensures !DoneOf(logs[k], id)
    {
      if DoneOf(logs[k], id) {
        DoneSettles(l, logs, id, k);
      }
    }
  }

  lemma ReasonsAppend(a: seq<Log>, c: seq<Log>, o: Order, l: Life)
    requires ReasonsRight(a, o, l) && ReasonsRight(c, o, l)
    ensures ReasonsRight(a + c, o, l)
  {
    hide TradedAll;
  }

  lemma NoneIsRight(logs: seq<Log>, o: Order, l: Life)
    requires NoneDone(logs, o.id)
    ensures ReasonsRight(logs, o, l)
  {
  }

  /** The logs of a step by which an order that rested is done. */
  lemma {:induction false} RestingEndsRight(p: Product, logs: seq<Log>, o: Order, l: Life, l': Life, place': Option<BookOrder>)
    requires o.otype == Limit && l.stage == Resting && l' == LifeOf(l, logs, o.id) && Lived(p, l', place', o, None)
    requires EndsRight(logs, o.id)
    ensures ReasonsRight(logs, o, l')
  {
    hide LifeOf;
    forall k | 0 <= k < |logs| && DoneOf(logs[k], o.id)
      ensures logs[k].reason == Filled <==> TradedAll(o, l')
    {
      DoneSettles(l, logs, o.id, k);
    }
  }

  /** A done log of a run says filled exactly if its order traded all of its size or, a market buy,
      has no funds left, and cancelled otherwise. */
  lemma {:induction false} DoneSaysFilledIff(p: Product, orders: seq<Order>, i: nat)
    requires AllWellFormed(orders) && DistinctNew(orders) && i < |orders| && !orders[i].cancelling
    ensures ReasonsRight(Run(p, orders).logs, orders[i], LifeOf(Unborn, Run(p, orders).logs, orders[i].id))
    decreases |orders|
  {
    hide Invariant, Step, Find, LifeOf, WellFormed, ReasonsRight, Tracks, Lived, NoneDone, EndsRight;
    var n, o, id := |orders| - 1, orders[i], orders[i].id;
    var before := Run(p, orders[..n]);
    var b, l := before.book, LifeOf(Unborn, before.logs, id);
    InvariantIsGood(b);
    var step := Step(p, b, orders[n]);
    var l' := LifeOf(l, step.logs, id);
    LifeAppend(Unborn, before.logs, step.logs, id);
    EveryOrderLives(p, orders[..n], id, None);
    EveryOrderLives(p, orders, id, None);
    assert Brings(orders[i], id);
    StageOf(l, Find(b, id));
    StageOf(l', Find(step.book, id));
    if i == n {
      BroughtOnce(orders, i);
      NotClosedNoneDone(before.logs, id);
      NoneIsRight(before.logs, o, l');
      StepReasonsRight(p, b, o);
    } else {
      assert orders[..n][i] == orders[i];
      DoneSaysFilledIff(p, orders[..n], i);
      assert orders[i].id != orders[n].id || orders[n].cancelling;
      if l.stage == Closed {
        ClosedNoneDone(l, step.logs, id);
        NoneIsRight(step.logs, o, l');
      } else {
        NotClosedNoneDone(before.logs, id);
        NoneIsRight(before.logs, o, l');
        StepEndsOthers(p, b, orders[n], id);
        if l.stage == Resting {
          PlaceOfResting(p, l, Find(b, id), o);
          RestingEndsRight(p, step.logs, o, l, l', Find(step.book, id));
        } else {
          StepCarries(p, b, orders[n], id, l);
          CarriedStaysUnborn(l, l', Find(b, id), Find(step.book, id));
          UnbornNoneDone(step.logs, id);
          NoneIsRight(step.logs, o, l');
        }
      }
    }
    ReasonsAppend(before.logs, step.logs, o, l');
  }

  lemma StageOf(l: Life, place: Option<BookOrder>)
    requires Tracks(l, place)
    ensures l == Unborn || l.stage == Resting || l.stage == Closed
  {
  }

  lemma PlaceOfResting(p: Product, l: Life, place: Option<BookOrder>, o: Order)
    requires Lived(p, l, place, o, None) && l.stage == Resting
    ensures o.otype == Limit
  {
  }

  lemma CarriedStaysUnborn(l: Life, l': Life, place: Option<BookOrder>, place': Option<BookOrder>)
    requires l == Unborn && Tracks(l, place) && Carried(l, l', place, place')
    ensures l' == Unborn
  {
  }

  lemma {:induction false} UnbornNoneDone(logs: seq<Log>, id: nat)
    requires LifeOf(Unborn, logs, id) == Unborn
    ensures NoneDone(logs, id)
  {
    NotClosedNoneDone(logs, id);
  }

  lemma BroughtOnce(orders: seq<Order>, i: nat)
    requires DistinctNew(orders) && i < |orders| && !orders[i].cancelling
    ensures !BroughtBy(orders[..i], orders[i].id)
  {
    assert forall k :: 0 <= k < i ==> orders[k].id != orders[i].id || orders[k].cancelling;
  }

  // ---- whom and what a log names ----

  predicate Describes(o: Order, id: nat, userId: nat, tif: TimeInForce) {
    Brings(o, id) && o.userId == userId && o.tif == tif
  }

  ghost predicate Named(orders: seq<Order>, id: nat, userId: nat, tif: TimeInForce) {
    exists i :: 0 <= i < |orders| && Describes(orders[i], id, userId, tif)
  }

  /** And on a side at a price. */
  ghost predicate Placed(orders: seq<Order>, id: nat, userId: nat, tif: TimeInForce, side: Side, price: int) {
    exists i :: 0 <= i < |orders| && Describes(orders[i], id, userId, tif) && orders[i].side == side && orders[i].price == price
  }

  /** The users, modes, sides and prices of a log are those of the orders it is about; a match is made
      on the maker's side at the maker's price. */
  ghost predicate TrueLog(orders: seq<Order>, log: Log) {
    match log
    case OpenLog(_, id, userId, _, price, side, tif) => Placed(orders, id, userId, tif, side, price)
    case MatchLog(_, _, takerId, makerId, takerUser, makerUser, side, price, _, takerTif, makerTif) =>
      Named(orders, takerId, takerUser, takerTif) && Placed(orders, makerId, makerUser, makerTif, side, price)
    case DoneLog(_, id, userId, price, _, _, side, tif) => Placed(orders, id, userId, tif, side, price)
  }

  ghost predicate TrueLogs(orders: seq<Order>, logs: seq<Log>) {
    forall k :: 0 <= k < |logs| ==> TrueLog(orders, logs[k])
  }

  ghost predicate KnownOrder(orders: seq<Order>, x: BookOrder) {
    Placed(orders, x.orderId, x.userId, x.tif, x.side, x.price)
  }

  ghost predicate AllKnown(orders: seq<Order>, s: seq<BookOrder>) {
    forall i :: 0 <= i < |s| ==> KnownOrder(orders, s[i])
  }

  lemma {:induction false} MatchLogsTrue(p: Product, orders: seq<Order>, taker: BookOrder, makers: seq<BookOrder>,
                                         logSeq: nat, tradeSeq: nat)
    requires Priced(makers) && AllKnown(orders, makers) && Named(orders, taker.orderId, taker.userId, taker.tif)
    ensures TrueLogs(orders, Match(p, taker, makers, logSeq, tradeSeq).logs)
    decreases |makers|
  {
    hide Named, Placed, TradeSize, PricesCross;
    if TradesFirst(p, taker, makers) {
      MatchUnfolds(p, taker, makers, logSeq, tradeSeq);
      var size := TradeSize(p, taker, makers[0]);
      var taker' := Spend(taker, size, makers[0].price);
      var logs := TradeLogs(logSeq, tradeSeq, taker', makers[0], size);
      assert KnownOrder(orders, makers[0]) && AllKnown(orders, makers[1..]);
      if !Exhausted(taker') {
        MatchLogsTrue(p, orders, taker', makers[1..], logSeq + |logs|, tradeSeq + 1);
      }
    }
  }

  lemma {:induction false} ApplyLogsTrue(p: Product, b: Book, o: Order, orders: seq<Order>)
    requires Sound(b) && WellFormed(o) && AllKnown(orders, b.Resting(o.side.Opposite()))
    requires Placed(orders, o.id, o.userId, o.tif, o.side, o.price)
    ensures TrueLogs(orders, ApplyOrder(p, b, o).logs)
  {
    hide Match, Placed, Named, MaxPrice, Admissible;
    PlacedIsNamed(orders, o.id, o.userId, o.tif, o.side, o.price);
    if Admissible(b.accepted, o.id) {
      var taker := PrepareTaker(p, NewBookOrder(o));
      var makers := b.Resting(o.side.Opposite());
      MatchLogsTrue(p, orders, taker, makers, b.logSeq, b.tradeSeq);
      MatchTakerFields(p, taker, makers, b.logSeq, b.tradeSeq);
    }
  }

  lemma PlacedIsNamed(orders: seq<Order>, id: nat, userId: nat, tif: TimeInForce, side: Side, price: int)
    requires Placed(orders, id, userId, tif, side, price)
    ensures Named(orders, id, userId, tif)
  {
  }

  lemma {:induction false} CancelLogsTrue(b: Book, o: Order, orders: seq<Order>)
    requires AllKnown(orders, b.Resting(o.side))
    ensures TrueLogs(orders, CancelOrder(b, o).logs)
  {
    hide Placed, Named;
    var r := Lookup(b.Resting(o.side), o.id);
    if r.Some? {
      var i :| 0 <= i < |b.Resting(o.side)| && b.Resting(o.side)[i] == r.value;
      assert KnownOrder(orders, b.Resting(o.side)[i]);
    }
  }

  lemma TrueLogsAppend(orders: seq<Order>, a: seq<Log>, c: seq<Log>)
    requires TrueLogs(orders, a) && TrueLogs(orders, c)
    ensures TrueLogs(orders, a + c)
  {
    hide TrueLog;
  }

  /** Whatever rests after a run is known to it. */
  lemma {:induction false} RestingIsKnown(p: Product, orders: seq<Order>, side: Side)
    requires AllWellFormed(orders) && DistinctNew(orders)
    ensures AllKnown(orders, Run(p, orders).book.Resting(side))
  {
    hide RunFrom, Invariant, Find, LifeOf;
    var b := Run(p, orders).book;
    var s := b.Resting(side);
    InvariantIsGood(b);
    forall i | 0 <= i < |s|
      ensures KnownOrder(orders, s[i])
    {
      EveryOrderLives(p, orders, s[i].orderId, None);
      FoundResting(b, side, i);
    }
  }

  /** Every log of a run names its orders truly. */
  lemma {:induction false} LogsDescribeOrders(p: Product, orders: seq<Order>)
    requires AllWellFormed(orders) && DistinctNew(orders)
    ensures TrueLogs(orders, Run(p, orders).logs)
    decreases |orders|
  {
    hide Step, Invariant, WellFormed, TrueLog, KnownOrder;
    if orders != [] {
      var n := |orders| - 1;
      LogsDescribeOrders(p, orders[..n]);
      TrueLogsLater(orders, n, Run(p, orders[..n]).logs);
      RestingIsKnown(p, orders[..n], Buy);
      RestingIsKnown(p, orders[..n], Sell);
      StepLogsTrue(p, orders);
      TrueLogsAppend(orders, Run(p, orders[..n]).logs, Step(p, Run(p, orders[..n]).book, orders[n]).logs);
    }
  }

  lemma TrueLogsLater(orders: seq<Order>, n: nat, logs: seq<Log>)
    requires n <= |orders| && TrueLogs(orders[..n], logs)
    ensures TrueLogs(orders, logs)
  {
    hide Describes;
    assert forall i :: 0 <= i < n ==> orders[..n][i] == orders[i];
    forall k | 0 <= k < |logs|
      ensures TrueLog(orders, logs[k])
    {
      assert TrueLog(orders[..n], logs[k]);
    }
  }

  lemma KnownLater(orders: seq<Order>, n: nat, s: seq<BookOrder>)
    requires n <= |orders| && AllKnown(orders[..n], s)
    ensures AllKnown(orders, s)
  {
    hide Describes;
    assert forall i :: 0 <= i < n ==> orders[..n][i] == orders[i];
    forall j | 0 <= j < |s|
      ensures KnownOrder(orders, s[j])
    {
      assert KnownOrder(orders[..n], s[j]);
    }
  }

  lemma {:induction false} StepLogsTrue(p: Product, orders: seq<Order>)
    requires orders != [] && AllWellFormed(orders) && DistinctNew(orders)
    requires var b := Run(p, orders[..|orders| - 1]).book;
             AllKnown(orders[..|orders| - 1], b.bids) && AllKnown(orders[..|orders| - 1], b.asks)
    ensures var b := Run(p, orders[..|orders| - 1]).book;
            Sound(b) && TrueLogs(orders, Step(p, b, orders[|orders| - 1]).logs)
  {
    hide Run, Invariant, ApplyOrder, CancelOrder, WillFullMatch, WillNotMatch, AllKnown, TrueLogs;
    var n := |orders| - 1;
    var o, b := orders[n], Run(p, orders[..n]).book;
    InvariantIsGood(b);
    KnownLater(orders, n, b.bids);
    KnownLater(orders, n, b.asks);
    CancelLogsTrue(b, o, orders);
    if !o.cancelling {
      assert Describes(orders[n], o.id, o.userId, o.tif);
      ApplyLogsTrue(p, b, o, orders);
      NullifyLogsTrue(b, o, orders);
      if o.tif == IOC {
        RestingStaysKnown(p, b, o, orders);
        CancelLogsTrue(ApplyOrder(p, b, o).book, o, orders);
        TrueLogsAppend(orders, ApplyOrder(p, b, o).logs, CancelOrder(ApplyOrder(p, b, o).book, o).logs);
      }
    }
    NoLogsTrue(orders);
  }

  lemma NoLogsTrue(orders: seq<Order>)
    ensures TrueLogs(orders, [])
  {
  }

  lemma NullifyLogsTrue(b: Book, o: Order, orders: seq<Order>)
    requires Placed(orders, o.id, o.userId, o.tif, o.side, o.price)
    ensures TrueLogs(orders, NullifyOrder(b, o).logs)
  {
    hide Placed;
  }

  lemma {:induction false} RestingStaysKnown(p: Product, b: Book, o: Order, orders: seq<Order>)
    requires Sound(b) && WellFormed(o) && AllKnown(orders, b.Resting(o.side))
    requires Placed(orders, o.id, o.userId, o.tif, o.side, o.price)
    ensures AllKnown(orders, ApplyOrder(p, b, o).book.Resting(o.side))
  {
    hide Match, Placed, MaxPrice, Admissible, Insert;
    if Admissible(b.accepted, o.id) {
      var taker := PrepareTaker(p, NewBookOrder(o));
      var makers := b.Resting(o.side.Opposite());
      MatchTakerFields(p, taker, makers, b.logSeq, b.tradeSeq);
      var t := MatchOrder(p, b, o).taker;
      var s := Insert(o.side, b.Resting(o.side), t);
      forall k | 0 <= k < |s| && o.otype == Limit
        ensures KnownOrder(orders, s[k])
      {
        InsertedIsOldOrNew(b.Resting(o.side), t, k);
      }
    }
  }
}
