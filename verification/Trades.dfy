/** What the matching log of a run says of each trade: whom it names, on which sides, and that it
    trades something (matching/order_book.go, matching/log.go). */
module Trades {
  import opened Exchange
  import opened Depths
  import opened Matcher
  import opened Invariants
  import opened Runs
  import opened Division
  import opened Overdrafts
  import opened Lifecycle

  ghost predicate BroughtOn(orders: seq<Order>, id: nat, side: Side) {
    exists i :: 0 <= i < |orders| && Brings(orders[i], id) && orders[i].side == side
  }

  /** A match trades a positive size at a positive price, between an order of the maker's side and
      a taker of the opposite one, both brought by the run. */
  ghost predicate TrueTrade(orders: seq<Order>, log: Log) {
    log.MatchLog? ==>
      log.size > 0 && log.price > 0 && log.side != OtherSide
      && BroughtOn(orders, log.makerOrderId, log.side) && BroughtOn(orders, log.takerOrderId, log.side.Opposite())
  }

  ghost predicate TrueTrades(orders: seq<Order>, logs: seq<Log>) {
    forall k :: 0 <= k < |logs| ==> TrueTrade(orders, logs[k])
  }

  ghost predicate AllBrought(orders: seq<Order>, makers: seq<BookOrder>) {
    forall i :: 0 <= i < |makers| ==> BroughtOn(orders, makers[i].orderId, makers[i].side)
  }

  /** The orders a match names are brought by the run, on the sides the log says. */
  ghost predicate NamedTrades(orders: seq<Order>, logs: seq<Log>) {
    forall k :: 0 <= k < |logs| && logs[k].MatchLog? ==>
      logs[k].side != OtherSide
      && BroughtOn(orders, logs[k].makerOrderId, logs[k].side) && BroughtOn(orders, logs[k].takerOrderId, logs[k].side.Opposite())
  }

  lemma {:induction false} MatchNames(p: Product, orders: seq<Order>, taker: BookOrder, makers: seq<BookOrder>,
                                      logSeq: nat, tradeSeq: nat)
    requires Priced(makers) && OnSide(makers, taker.side.Opposite()) && AllBrought(orders, makers)
    requires BroughtOn(orders, taker.orderId, taker.side) && taker.side != OtherSide
    ensures NamedTrades(orders, Match(p, taker, makers, logSeq, tradeSeq).logs)
    decreases |makers|
  {
    hide BroughtOn, TradeSize;
    if TradesFirst(p, taker, makers) {
      MatchUnfolds(p, taker, makers, logSeq, tradeSeq);
      var size := TradeSize(p, taker, makers[0]);
      var taker' := Spend(taker, size, makers[0].price);
      var logs := TradeLogs(logSeq, tradeSeq, taker', makers[0], size);
      assert AllBrought(orders, makers[1..]) && taker.side == makers[0].side.Opposite();
      assert NamedTrades(orders, logs);
      if !Exhausted(taker') {
        MatchNames(p, orders, taker', makers[1..], logSeq + |logs|, tradeSeq + 1);
      }
    }
  }

  lemma {:induction false} ApplyIsTrue(p: Product, b: Book, o: Order, orders: seq<Order>, bound: nat)
    requires Invariant(b) && WellFormed(o) && OwableBook(p, b, bound)
    requires AllBrought(orders, b.Resting(o.side.Opposite())) && BroughtOn(orders, o.id, o.side)
    ensures Sound(b) && TrueTrades(orders, ApplyOrder(p, b, o).logs)
  {
    hide Match, Invariant, BroughtOn, OwableSide, Solid;
    InvariantIsGood(b);
    if Admissible(b.accepted, o.id) {
      var taker := PrepareTaker(p, NewBookOrder(o));
      var makers := b.Resting(o.side.Opposite());
      FundedIsSolid(p, taker, makers, bound);
      MatchStaysSolid(p, taker, makers, b.logSeq, b.tradeSeq, bound);
      MatchNames(p, orders, taker, makers, b.logSeq, b.tradeSeq);
    }
  }

  lemma CancelIsTrue(b: Book, o: Order, orders: seq<Order>)
    ensures TrueTrades(orders, CancelOrder(b, o).logs)
  {
  }

  lemma TrueAppend(orders: seq<Order>, a: seq<Log>, c: seq<Log>)
    requires TrueTrades(orders, a) && TrueTrades(orders, c)
    ensures TrueTrades(orders, a + c)
  {
    hide TrueTrade;
  }

  lemma {:induction false} StepIsTrue(p: Product, b: Book, o: Order, orders: seq<Order>, bound: nat)
    requires Invariant(b) && WellFormed(o) && OwableBook(p, b, bound)
    requires AllBrought(orders, b.bids) && AllBrought(orders, b.asks) && (!o.cancelling ==> BroughtOn(orders, o.id, o.side))
    ensures Sound(b) && TrueTrades(orders, Step(p, b, o).logs)
  {
    hide Invariant, ApplyOrder, CancelOrder, WillFullMatch, WillNotMatch, BroughtOn, AllBrought;
    InvariantIsGood(b);
    CancelIsTrue(b, o, orders);
    if !o.cancelling {
      assert AllBrought(orders, b.Resting(o.side.Opposite()));
      ApplyIsTrue(p, b, o, orders, bound);
      CancelIsTrue(ApplyOrder(p, b, o).book, o, orders);
      TrueAppend(orders, ApplyOrder(p, b, o).logs, CancelOrder(ApplyOrder(p, b, o).book, o).logs);
    }
  }

  /** Whatever rests after a run was brought by it, on the side it rests on. */
  lemma {:induction false} RestingIsBrought(p: Product, orders: seq<Order>, side: Side)
    requires AllWellFormed(orders) && DistinctNew(orders)
    ensures AllBrought(orders, Run(p, orders).book.Resting(side))
  {
    hide RunFrom, Invariant, Lookup, LifeOf;
    var b := Run(p, orders).book;
    InvariantIsGood(b);
    var s := b.Resting(side);
    forall i | 0 <= i < |s|
      ensures BroughtOn(orders, s[i].orderId, s[i].side)
    {
      EveryOrderLives(p, orders, s[i].orderId, None);
      FoundResting(b, side, i);
    }
  }

  lemma FoundResting(b: Book, side: Side, i: nat)
    requires Invariant(b) && i < |b.Resting(side)|
    ensures Find(b, b.Resting(side)[i].orderId) == Some(b.Resting(side)[i])
  {
    var x := b.Resting(side)[i];
    assert x in b.Resting(side);
    FindOnSide(b, side, x.orderId);
    assert HasId(b.Resting(side), x.orderId);
    IdNamesOne(b.Resting(side), x, Lookup(b.Resting(side), x.orderId).value);
  }

  lemma BroughtLater(orders: seq<Order>, n: nat, s: seq<BookOrder>)
    requires n <= |orders| && AllBrought(orders[..n], s)
    ensures AllBrought(orders, s)
  {
    forall i | 0 <= i < |s|
      ensures BroughtOn(orders, s[i].orderId, s[i].side)
    {
      BroughtOnLater(orders, n, s[i].orderId, s[i].side);
    }
  }

  lemma TrueLater(orders: seq<Order>, n: nat, logs: seq<Log>)
    requires n <= |orders| && TrueTrades(orders[..n], logs)
    ensures TrueTrades(orders, logs)
  {
    forall k | 0 <= k < |logs|
      ensures TrueTrade(orders, logs[k])
    {
      assert TrueTrade(orders[..n], logs[k]);
      if logs[k].MatchLog? {
        BroughtOnLater(orders, n, logs[k].makerOrderId, logs[k].side);
        BroughtOnLater(orders, n, logs[k].takerOrderId, logs[k].side.Opposite());
      }
    }
  }

  lemma BroughtOnLater(orders: seq<Order>, n: nat, id: nat, side: Side)
    requires n <= |orders| && BroughtOn(orders[..n], id, side)
    ensures BroughtOn(orders, id, side)
  {
    var j :| 0 <= j < n && Brings(orders[..n][j], id) && orders[..n][j].side == side;
    assert orders[j] == orders[..n][j];
  }

  // ---- whole runs ----

  /** Every limit price is one at which an overdrawn market buy stops. */
  ghost predicate SafeOrders(p: Product, orders: seq<Order>) {
    forall i :: 0 <= i < |orders| && orders[i].otype == Limit ==> SafePrice(p, orders[i].price)
  }

  function DearestPrice(orders: seq<Order>): (m: nat)
    ensures forall i :: 0 <= i < |orders| && orders[i].otype == Limit ==> orders[i].price <= m
    decreases |orders|
  {
    if orders == [] then 0
    else
      var m, o := DearestPrice(orders[..|orders| - 1]), orders[|orders| - 1];
      assert forall i :: 0 <= i < |orders| - 1 ==> orders[i] == orders[..|orders| - 1][i];
      if o.otype == Limit && o.price > m then o.price else m
  }

  lemma SafeIsOwable(p: Product, orders: seq<Order>)
    requires SafeOrders(p, orders)
    ensures OwableOrders(p, orders, DearestPrice(orders))
  {
  }

  lemma {:induction false} OwableTradesAreTrue(p: Product, orders: seq<Order>, bound: nat)
    requires AllWellFormed(orders) && DistinctNew(orders) && OwableOrders(p, orders, bound)
    ensures TrueTrades(orders, Run(p, orders).logs)
    decreases |orders|
  {
    hide Step, Invariant, OwableBook, OwablePrice, WellFormed, TrueTrade, AllBrought;
    if orders != [] {
      var n := |orders| - 1;
      OwableTradesAreTrue(p, orders[..n], bound);
      TrueLater(orders, n, Run(p, orders[..n]).logs);
      var b := Run(p, orders[..n]).book;
      RunIsOwable(p, orders[..n], bound);
      RestingIsBrought(p, orders[..n], Buy);
      RestingIsBrought(p, orders[..n], Sell);
      BroughtLater(orders, n, b.bids);
      BroughtLater(orders, n, b.asks);
      assert !orders[n].cancelling ==> Brings(orders[n], orders[n].id);
      StepIsTrue(p, b, orders[n], orders, bound);
      TrueAppend(orders, Run(p, orders[..n]).logs, Step(p, b, orders[n]).logs);
    }
  }

  /** Every trade of a run at safe prices is a true one: on any product whose sizes have fewer than
      sixteen places, every trade of every run. */
  lemma {:induction false} RunTradesAreTrue(p: Product, orders: seq<Order>)
    requires AllWellFormed(orders) && DistinctNew(orders) && SafeOrders(p, orders)
    ensures TrueTrades(orders, Run(p, orders).logs)
  {
    hide Run, SafeOrders, OwableOrders, TrueTrades;
    SafeIsOwable(p, orders);
    OwableTradesAreTrue(p, orders, DearestPrice(orders));
  }

  // ---- the exact limit ----

  /** Orders as placement sends them, with limit prices of one unit and of `price`. */
  ghost predicate LimitsAt(p: Product, orders: seq<Order>, price: int) {
    && AllWellFormed(orders) && DistinctNew(orders)
    && (forall i :: 0 <= i < |orders| ==> Placeable(p, orders[i]))
    && forall i :: 0 <= i < |orders| && orders[i].otype == Limit ==> orders[i].price == 1 || orders[i].price == price
  }

  function AskAt(id: nat, size: int, price: int): Order {
    Order(id, 1, Sell, Limit, GTC, size, price, size * price, false)
  }

  /** What the price's worth of whole quote units exceeds half the price by. */
  function AllButHalf(p: Product, price: int): int {
    Pow10(p.baseScale) * price - price / 2
  }

  /** All but half a price's worth for sale at one, two units at the price, and a market buy that is
      left with the half. */
  function HalfAPrice(p: Product, price: int): seq<Order> {
    [AskAt(1, AllButHalf(p, price), 1), AskAt(2, 1, price), AskAt(3, 1, price),
     Order(4, 2, Buy, Market, GTC, 0, 0, Pow10(p.baseScale) * price, false)]
  }

  function ThreeAsks(p: Product, price: int): seq<BookOrder> {
    [NewBookOrder(AskAt(1, AllButHalf(p, price), 1)), NewBookOrder(AskAt(2, 1, price)), NewBookOrder(AskAt(3, 1, price))]
  }

  lemma {:induction false} RunNext(p: Product, orders: seq<Order>, o: Order)
    requires AllWellFormed(orders) && WellFormed(o)
    ensures AllWellFormed(orders + [o]) && Sound(Run(p, orders).book)
    ensures var step := Step(p, Run(p, orders).book, o);
            Run(p, orders + [o]) == Outcome(step.book, Run(p, orders).logs + step.logs)
  {
    hide Invariant, Step, Sound, WellFormed;
    InvariantIsGood(Run(p, orders).book);
    assert (orders + [o])[..|orders|] == orders;
  }

  ghost predicate Last(s: seq<BookOrder>, o: BookOrder) {
    forall i :: 0 <= i < |s| ==> Before(Sell, KeyOf(s[i]), KeyOf(o))
  }

  /** An ask that comes after all there are, over no bids, rests last. */
  lemma {:induction false} AskRests(p: Product, asks: seq<BookOrder>, logSeq: nat, ids: set<nat>, o: Order)
    requires o.side == Sell && o.otype == Limit && o.tif == GTC && !o.cancelling && o.size > 0 && Admissible(ids, o.id)
    requires Last(asks, NewBookOrder(o))
    requires Sound(Book([], asks, 0, logSeq, ids))
    ensures Step(p, Book([], asks, 0, logSeq, ids), o).book == Book([], asks + [NewBookOrder(o)], 0, logSeq + 1, ids + {o.id})
  {
    InsertedLast(asks, NewBookOrder(o));
  }

  lemma {:induction false} InsertedLast(s: seq<BookOrder>, o: BookOrder)
    requires Last(s, o)
    ensures Insert(Sell, s, o) == s + [o]
  {
    if s != [] {
      BeforeIsAStrictOrder(Sell, KeyOf(s[0]), KeyOf(o), KeyOf(o));
      InsertedLast(s[1..], o);
      assert s + [o] == [s[0]] + (s[1..] + [o]);
    }
  }

  function IdsUpTo(k: nat): (ids: set<nat>)
    ensures forall id :: id in ids <==> 1 <= id <= k
  {
    if k == 0 then {} else IdsUpTo(k - 1) + {k}
  }

  /** The first k asks rest in the order they come. */
  lemma {:induction false} AsksRest(p: Product, price: int, k: nat)
    requires price > 1 && k <= 3
    ensures AllWellFormed(HalfAPrice(p, price)[..k])
    ensures Run(p, HalfAPrice(p, price)[..k]).book == Book([], ThreeAsks(p, price)[..k], 0, k, IdsUpTo(k))
    decreases k
  {
    hide Step, Sound, AllButHalf, AskAt, WellFormed, Last, Admissible;
    var orders, asks := HalfAPrice(p, price), ThreeAsks(p, price);
    if k > 0 {
      AsksRest(p, price, k - 1);
      var o := orders[k - 1];
      AskIsNext(p, price, k);
      RunNext(p, orders[..k - 1], o);
      assert orders[..k] == orders[..k - 1] + [o] && asks[..k] == asks[..k - 1] + [asks[k - 1]];
      AskRests(p, asks[..k - 1], k - 1, IdsUpTo(k - 1), o);
    }
  }

  lemma {:induction false} AskIsNext(p: Product, price: int, k: nat)
    requires price > 1 && 0 < k <= 3
    ensures var o := HalfAPrice(p, price)[k - 1];
            && WellFormed(o) && o.side == Sell && o.otype == Limit && o.tif == GTC && !o.cancelling && o.id == k
            && ThreeAsks(p, price)[k - 1] == NewBookOrder(o) && Admissible(IdsUpTo(k - 1), o.id)
            && o.size > 0 && Last(ThreeAsks(p, price)[..k - 1], NewBookOrder(o))
  {
    hide AllButHalf;
    MoreThanHalf(p, price);
  }

  /** The market buy takes all that is for sale at one and a unit at the price, and then sells back
      to the third ask. */
  lemma {:induction false} BuysAndSellsBack(p: Product, price: int, taker: BookOrder, asks: seq<BookOrder>)
    requires price > 1 && !SafePrice(p, price) && asks == ThreeAsks(p, price)
    requires SpendsFunds(taker) && taker.price == MaxPrice(p) && taker.funds == Pow10(p.baseScale) * price
    ensures Priced(asks)
    ensures var logs := Match(p, taker, asks, 3, 0).logs; |logs| > 4 && logs[4].MatchLog? && logs[4].size == -1
  {
    hide AffordableSize, DivUnit, MaxPrice, Match, TradeSize, AllButHalf;
    MoreThanHalf(p, price);
    TradesOnTheWay(p, price, taker);
    var t1 := taker.(funds := price / 2);
    var t2 := taker.(funds := -(price / 2));
    MatchUnfolds(p, taker, asks, 3, 0);
    MatchUnfolds(p, t1, asks[1..], 5, 1);
    MatchUnfolds(p, t2, asks[1..][1..], 7, 2);
  }

  /** The sizes of the three trades and what they leave. */
  lemma {:induction false} TradesOnTheWay(p: Product, price: int, taker: BookOrder)
    requires price > 1 && !SafePrice(p, price) && SpendsFunds(taker) && taker.price == MaxPrice(p)
    requires taker.funds == Pow10(p.baseScale) * price
    ensures var asks, half := ThreeAsks(p, price), price / 2;
            var t1, t2 := taker.(funds := half), taker.(funds := -half);
            && 1 < price <= MaxPrice(p) && half > 0
            && TradeSize(p, taker, asks[0]) == AllButHalf(p, price) && Spend(taker, AllButHalf(p, price), 1) == t1
            && TradeSize(p, t1, asks[1]) == 1 && Spend(t1, 1, price) == t2 && TradeSize(p, t2, asks[2]) == -1
  {
    hide AffordableSize, DivUnit, MaxPrice, Pow10;
    MoreThanHalf(p, price);
    UnsafePriceSellsBack(p, price);
    UnitAboveOne(p);
    AffordsOneByOne(p, taker.funds);
  }

  lemma AffordsOneByOne(p: Product, funds: nat)
    requires DivUnit(p) == 1
    ensures AffordableSize(p, funds, 1) == funds
  {
    assert (2 * funds + 1) / 2 == funds;
  }

  lemma {:induction false} HalfAPriceSellsBack(p: Product, price: int)
    requires price > 0 && !SafePrice(p, price)
    ensures LimitsAt(p, HalfAPrice(p, price), price)
    ensures !TrueTrades(HalfAPrice(p, price), Run(p, HalfAPrice(p, price)).logs)
  {
    hide Step, Run, MaxPrice, AllButHalf, TradeSize, Match, Settle;
    var orders, before, buy := HalfAPrice(p, price), HalfAPrice(p, price)[..3], HalfAPrice(p, price)[3];
    HalfIsPlaceable(p, price);
    AsksRest(p, price, 3);
    MoreThanHalf(p, price);
    assert ThreeAsks(p, price)[..3] == ThreeAsks(p, price) && IdsUpTo(3) == {1, 2, 3};
    assert before + [buy] == orders;
    RunNext(p, before, buy);
    var b := Run(p, before).book;
    var taker := PrepareTaker(p, NewBookOrder(buy));
    BuysAndSellsBack(p, price, taker, b.asks);
    StepStartsWithMatch(p, b, buy);
    var logs := Match(p, taker, b.asks, 3, 0).logs;
    var earlier := Run(p, before).logs;
    assert Run(p, orders).logs[|earlier| + 4] == logs[4];
    assert !TrueTrade(orders, logs[4]);
  }

  lemma {:induction false} HalfIsPlaceable(p: Product, price: int)
    requires price > 0 && !SafePrice(p, price)
    ensures price > 1 && LimitsAt(p, HalfAPrice(p, price), price)
  {
    hide Pow10, AllButHalf, MaxPrice, AskAt, WellFormed, FitTerms;
    var d, half := Pow10(p.baseScale), AllButHalf(p, price);
    MoreThanHalf(p, price);
    DivUnique(d * price, d, price, 0);
    AskIsPlaceable(p, 1, half, 1);
    AskIsPlaceable(p, 2, 1, price);
    AskIsPlaceable(p, 3, 1, price);
    BuyIsPlaceable(p, d * price);
  }

  lemma MoreThanHalf(p: Product, price: int)
    requires price > 1
    ensures AllButHalf(p, price) > 0 && Pow10(p.baseScale) * price > 0
  {
    hide Pow10;
    assert (Pow10(p.baseScale) - 1) * price >= 0;
  }

  lemma AskIsPlaceable(p: Product, id: nat, size: int, price: int)
    requires size > 0 && price > 0
    ensures var o := AskAt(id, size, price);
            WellFormed(o) && Placeable(p, o) && o.otype == Limit && !o.cancelling && o.id == id && o.price == price
  {
    hide Pow10;
  }

  lemma BuyIsPlaceable(p: Product, funds: int)
    requires funds > 0 && funds % Pow10(p.baseScale) == 0
    ensures var o := Order(4, 2, Buy, Market, GTC, 0, 0, funds, false); WellFormed(o) && Placeable(p, o)
  {
    hide Pow10;
  }

  lemma {:induction false} StepStartsWithMatch(p: Product, b: Book, o: Order)
    requires Sound(b) && o.tif == GTC && !o.cancelling && o.side == Buy && o.id == 4 && b.accepted == {1, 2, 3}
    ensures var logs := Match(p, PrepareTaker(p, NewBookOrder(o)), b.asks, b.logSeq, b.tradeSeq).logs;
            logs <= Step(p, b, o).logs
  {
    hide Match, Settle, MaxPrice;
    assert Admissible(b.accepted, o.id);
  }

  /** The condition is exact: at an unsafe price, and at no other, some run of placed orders trades a
      size that is not positive. */
  lemma {:induction false} TradesAreTrueIffSafe(p: Product, price: int)
    requires price > 0
    ensures SafePrice(p, price)
            <==> forall orders :: LimitsAt(p, orders, price) ==> TrueTrades(orders, Run(p, orders).logs)
  {
    hide Run, TrueTrades, MaxPrice;
    if SafePrice(p, price) {
      forall orders | LimitsAt(p, orders, price)
        ensures TrueTrades(orders, Run(p, orders).logs)
      {
        RunTradesAreTrue(p, orders);
      }
    } else {
      HalfAPriceSellsBack(p, price);
      assert LimitsAt(p, HalfAPrice(p, price), price);
    }
  }
}
