/** What the GTX and FOK probes say against what applying the order would do, market orders
    included (matching/order_book.go, `IsOrderWillNotMatch` and `IsOrderWillFullMatch`). */
module Probes {
  import opened Exchange
  import opened Depths
  import opened Matcher
  import opened Invariants
  import opened Division
  import opened Overdrafts
  import opened Priority
  import opened TimeInForces

  /** The engine numbered a trade in going from one book to the other. */
  predicate Traded(b: Book, b': Book) {
    b'.tradeSeq > b.tradeSeq
  }

  lemma {:induction false} MatchTradesIff(p: Product, taker: BookOrder, makers: seq<BookOrder>, logSeq: nat, tradeSeq: nat)
    requires Priced(makers)
    ensures Match(p, taker, makers, logSeq, tradeSeq).tradeSeq >= tradeSeq
    ensures Match(p, taker, makers, logSeq, tradeSeq).tradeSeq > tradeSeq <==> TradesFirst(p, taker, makers)
    decreases |makers|
  {
    if TradesFirst(p, taker, makers) {
      MatchUnfolds(p, taker, makers, logSeq, tradeSeq);
      var size := TradeSize(p, taker, makers[0]);
      var taker' := Spend(taker, size, makers[0].price);
      var logs := TradeLogs(logSeq, tradeSeq, taker', makers[0], size);
      if !Exhausted(taker') {
        MatchTradesIff(p, taker', makers[1..], logSeq + |logs|, tradeSeq + 1);
      }
    }
  }

  /** The first maker crosses the order, and the funds of a market buy afford some of it. */
  predicate BestWouldTrade(p: Product, b: Book, o: Order)
    requires Sound(b)
  {
    var makers := b.Resting(o.side.Opposite());
    && makers != [] && PricesCross(o.side, PrepareTaker(p, NewBookOrder(o)).price, makers[0].price)
    && (Sized(o) || AffordableSize(p, o.funds, makers[0].price) > 0)
  }

  /** Whether applying a fresh order of any type trades is decided by the best opposite order. */
  lemma {:induction false} AppliedTradesIff(p: Product, b: Book, o: Order)
    requires Invariant(b) && WellFormed(o) && Admissible(b.accepted, o.id)
    ensures Sound(b) && (Traded(b, ApplyOrder(p, b, o).book) <==> BestWouldTrade(p, b, o))
  {
    hide Match, AffordableSize, Invariant;
    InvariantIsGood(b);
    var taker := PrepareTaker(p, NewBookOrder(o));
    var makers := b.Resting(o.side.Opposite());
    MatchTradesIff(p, taker, makers, b.logSeq, b.tradeSeq);
    if makers != [] && !Sized(o) {
      FundsAffordNoLess(p, o.funds, makers[0].price);
    }
  }

  lemma FundsAffordNoLess(p: Product, funds: nat, price: int)
    requires price > 0
    ensures AffordableSize(p, funds, price) >= funds / price >= 0
  {
    RoundedThenCut(funds, price, DivUnit(p));
    FloorIsTheMostAffordable(funds, price);
  }

  // ---- GTX ----

  lemma BestCrossesIfLastDoes(p: Product, b: Book, o: Order)
    requires Invariant(b) && !WillNotMatch(p, b, o)
    ensures var makers := b.Resting(o.side.Opposite());
            makers != [] && PricesCross(o.side, PrepareTaker(p, NewBookOrder(o)).price, makers[0].price)
  {
    var makers := b.Resting(o.side.Opposite());
    if |makers| > 1 {
      assert Before(o.side.Opposite(), KeyOf(makers[0]), KeyOf(makers[|makers| - 1]));
    }
  }

  /** A GTX order the probe nullifies would have traded, unless it is a market buy whose funds
      afford nothing of the first ask; and exactly then it would not. */
  lemma {:induction false} NullifiedGtxWouldTradeIff(p: Product, b: Book, o: Order)
    requires Invariant(b) && WellFormed(o) && Admissible(b.accepted, o.id)
    requires o.tif == GTX && !o.cancelling && !WillNotMatch(p, b, o)
    ensures Sound(b) && Step(p, b, o) == NullifyOrder(b, o)
    ensures Traded(b, ApplyOrder(p, b, o).book)
            <==> Sized(o) || (b.asks != [] && AffordableSize(p, o.funds, b.asks[0].price) > 0)
  {
    hide Match, AffordableSize, Invariant, ApplyOrder;
    AppliedTradesIff(p, b, o);
    BestCrossesIfLastDoes(p, b, o);
  }

  /** Sizes in whole units, one ask of a unit at 5: a market GTX buy with funds of 1, which placement
      lets through, is nullified though it affords nothing. */
  lemma {:induction false} GtxCanNullifyInVain()
    ensures var p: Product := ProductRow(0, 2);
            var b := Book([], [BookOrder(1, 0, 1, 5, 5, Sell, Limit, GTC)], 0, 1, {1});
            var o := Order(2, 0, Buy, Market, GTX, 0, 0, 1, false);
            && Invariant(b) && WellFormed(o) && Placeable(p, o) && Sound(b) && Step(p, b, o) == NullifyOrder(b, o)
            && !Traded(b, ApplyOrder(p, b, o).book)
  {
    hide Admissible, ApplyOrder, Match, MaxPrice, AffordableSize, DivUnit;
    var p: Product := ProductRow(0, 2);
    var b := Book([], [BookOrder(1, 0, 1, 5, 5, Sell, Limit, GTC)], 0, 1, {1});
    var o := Order(2, 0, Buy, Market, GTX, 0, 0, 1, false);
    OneFresh(1, 2);
    SmallPrices(p);
    AffordableIsFloor(p, 1, 5);
    NullifiedGtxWouldTradeIff(p, b, o);
  }

  lemma SmallPrices(p: Product)
    requires p.baseScale == 0
    ensures ExactPrice(p, 5) && 5 <= MaxPrice(p) && Pow10(0) == 1
  {
    assert Pow10(16) >= 10;
    assert MAX_FLOAT32 * Pow10(p.quoteScale) >= MAX_FLOAT32;
  }

  /** A GTX order of any type trades exactly when it is a sell above the lowest bid, the one the
      probe looks at, and not above the highest. A GTX buy never trades, nor does a market order. */
  lemma {:induction false} GtxTradesIff(p: Product, b: Book, o: Order)
    requires Invariant(b) && WellFormed(o) && Admissible(b.accepted, o.id)
    requires o.tif == GTX && !o.cancelling
    ensures Sound(b)
    ensures Traded(b, Step(p, b, o).book)
            <==> o.side == Sell && b.bids != [] && b.bids[|b.bids| - 1].price < o.price <= b.bids[0].price
  {
    hide ApplyOrder, Invariant, AffordableSize, MaxPrice;
    AppliedTradesIff(p, b, o);
    PricesArePositive(b);
  }

  lemma PricesArePositive(b: Book)
    requires Invariant(b)
    ensures forall i :: 0 <= i < |b.bids| ==> b.bids[i].price > 0
  {
  }

  /** Bids at 10 and 5, a GTX sell at 8: it trades with the bid at 10. */
  lemma {:induction false} GtxSellCanTrade(p: Product)
    ensures var bids := [BookOrder(1, 0, 1, 10, 10, Buy, Limit, GTC), BookOrder(2, 0, 1, 5, 5, Buy, Limit, GTC)];
            var b := Book(bids, [], 0, 2, {1, 2});
            var o := Order(3, 0, Sell, Limit, GTX, 1, 8, 8, false);
            Invariant(b) && WellFormed(o) && Sound(b) && Traded(b, Step(p, b, o).book)
  {
    hide Step, Traded;
    var bids := [BookOrder(1, 0, 1, 10, 10, Buy, Limit, GTC), BookOrder(2, 0, 1, 5, 5, Buy, Limit, GTC)];
    var b := Book(bids, [], 0, 2, {1, 2});
    var o := Order(3, 0, Sell, Limit, GTX, 1, 8, 8, false);
    assert Invariant(b);
    assert Admissible(b.accepted, o.id);
    GtxTradesIff(p, b, o);
  }

  // ---- market FOK buys ----

  /** The value an order's logs trade. */
  function TradedValue(logs: seq<Log>): int {
    if logs == [] then 0
    else (if logs[0].MatchLog? then logs[0].size * logs[0].price else 0) + TradedValue(logs[1..])
  }

  lemma ValueAppend(a: seq<Log>, c: seq<Log>)
    ensures TradedValue(a + c) == TradedValue(a) + TradedValue(c)
  {
    if a == [] {
      assert a + c == c;
    } else {
      assert (a + c)[1..] == a[1..] + c;
      ValueAppend(a[1..], c);
    }
  }

  lemma TradeLogsValue(logSeq: nat, tradeSeq: nat, taker: BookOrder, maker: BookOrder, size: int)
    ensures TradedValue(TradeLogs(logSeq, tradeSeq, taker, maker, size)) == size * maker.price
  {
    var logs := TradeLogs(logSeq, tradeSeq, taker, maker, size);
    var end := [NewDoneLog(logSeq + 2, maker, 0, Filled)];
    assert end[1..] == [] && TradedValue(end) == 0;
    assert maker.size == size ==> logs[1..] == end;
    assert maker.size != size ==> logs[1..] == [];
  }

  lemma {:induction false} MatchSpendsItsValue(p: Product, taker: BookOrder, makers: seq<BookOrder>,
                                               logSeq: nat, tradeSeq: nat)
    requires Priced(makers) && SpendsFunds(taker)
    ensures var m := Match(p, taker, makers, logSeq, tradeSeq); TradedValue(m.logs) == taker.funds - m.taker.funds
    decreases |makers|
  {
    hide TradeSize, TradeLogs;
    if TradesFirst(p, taker, makers) {
      MatchUnfolds(p, taker, makers, logSeq, tradeSeq);
      var size := TradeSize(p, taker, makers[0]);
      var taker' := Spend(taker, size, makers[0].price);
      var logs := TradeLogs(logSeq, tradeSeq, taker', makers[0], size);
      if !Exhausted(taker') {
        MatchSpendsItsValue(p, taker', makers[1..], logSeq + |logs|, tradeSeq + 1);
      }
      TradeLogsValue(logSeq, tradeSeq, taker', makers[0], size);
      ValueAppend(logs, MatchRest(p, taker, makers, logSeq, tradeSeq).logs);
    }
  }

  /** What a list of orders costs altogether. */
  function CostOf(s: seq<BookOrder>): int {
    if s == [] then 0 else s[0].size * s[0].price + CostOf(s[1..])
  }

  /** The running cost of the asks reaches the funds at ask k, within reach of a market buy, whose
      price divides what is left. */
  ghost predicate RunsOutAt(p: Product, funds: int, asks: seq<BookOrder>, k: nat)
    requires k < |asks| && asks[k].price > 0
  {
    && asks[k].price <= MaxPrice(p) && CostOf(asks[..k]) < funds <= CostOf(asks[..k + 1])
    && (funds - CostOf(asks[..k])) % asks[k].price == 0
  }

  ghost predicate RunsOutEvenly(p: Product, funds: int, asks: seq<BookOrder>)
    requires Priced(asks)
  {
    exists k :: 0 <= k < |asks| && RunsOutAt(p, funds, asks, k)
  }

  lemma CostNext(s: seq<BookOrder>, k: nat)
    requires k < |s|
    ensures CostOf(s[..k + 1]) == CostOf(s[..k]) + s[k].size * s[k].price
    decreases k
  {
    assert s[..k + 1][1..] == s[1..][..k];
    if k == 0 {
      assert s[..0] == [] && s[1..][..0] == [];
    } else {
      assert s[..k][1..] == s[1..][..k - 1];
      CostNext(s[1..], k - 1);
    }
  }

  /** Fills of a market buy that empty all their makers but the last. */
  lemma {:induction false} PaidInFull(taker: BookOrder, asks: seq<BookOrder>, fills: seq<int>)
    requires SpendsFunds(taker) && 0 < |fills| <= |asks|
    requires forall i :: 0 <= i < |fills| - 1 ==> fills[i] == asks[i].size
    ensures var k := |fills| - 1; Paid(taker, asks, fills) == CostOf(asks[..k]) + fills[k] * asks[k].price
    decreases |fills|
  {
    var k := |fills| - 1;
    if k == 0 {
      assert fills[1..] == [] && asks[..0] == [];
    } else {
      PaidInFull(taker, asks[1..], fills[1..]);
      assert asks[..k][1..] == asks[1..][..k - 1] && fills[1..][k - 1] == fills[k];
    }
  }

  lemma {:induction false} SpentIsEven(p: Product, taker: BookOrder, asks: seq<BookOrder>, fills: seq<int>)
    requires SpendsFunds(taker) && taker.funds > 0 && taker.price == MaxPrice(p) && Priced(asks)
    requires IsPriorityFill(p, taker, asks, fills) && Left(taker, asks, fills) == 0
    ensures RunsOutEvenly(p, taker.funds, asks)
  {
    hide CostOf, MaxPrice, OwesLittle, StopsAt;
    var k := |fills| - 1;
    PaidInFull(taker, asks, fills);
    CostNext(asks, k);
    var n, price := fills[k], asks[k].price;
    assert n * price <= asks[k].size * price by {
      assert (asks[k].size - n) * price >= 0;
    }
    AtLeastOne(n, price);
    DivUnique(n * price, price, n, 0);
    assert RunsOutAt(p, taker.funds, asks, k);
  }

  /** What runs out at ask k is the priority fill that ends there. */
  lemma {:induction false} EvenIsSpent(p: Product, taker: BookOrder, asks: seq<BookOrder>, k: nat, fills: seq<int>)
    requires SpendsFunds(taker) && taker.price == MaxPrice(p) && GoodSide(asks, Sell) && Priced(asks)
    requires k < |asks| && RunsOutAt(p, taker.funds, asks, k) && IsPriorityFill(p, taker, asks, fills)
    ensures Left(taker, asks, fills) == 0
  {
    hide CostOf, Paid, MaxPrice, OwesLittle, StopsAt, Bears;
    var price, left := asks[k].price, taker.funds - CostOf(asks[..k]);
    var n := left / price;
    assert n * price == left;
    CostNext(asks, k);
    var g := seq(k, i requires 0 <= i < k => asks[i].size) + [n];
    assert 0 < n <= asks[k].size by {
      MulBound(price, n);
      MulBound(price, n - asks[k].size);
      assert price * (n - asks[k].size) == left - asks[k].size * price;
    }
    PaidInFull(taker, asks, g);
    forall i | 0 <= i <= k
      ensures Crosses(taker, asks[i])
    {
      assert i < k ==> Before(Sell, KeyOf(asks[i]), KeyOf(asks[k]));
    }
    FundsAreBorne(p, taker, asks[k], 0);
    NothingLeftStops(p, taker, asks[k], 0);
    if k + 1 < |asks| {
      NothingLeftStops(p, taker, asks[k + 1], 0);
    }
    PriorityFillIsUnique(p, taker, asks, fills, g);
  }

  /** A market buy that trades takes something. */
  lemma {:induction false} SomethingIsPaid(p: Product, taker: BookOrder, asks: seq<BookOrder>, fills: seq<int>)
    requires SpendsFunds(taker) && Priced(asks) && |fills| <= |asks|
    requires forall i :: 0 <= i < |fills| ==> fills[i] > 0
    ensures Paid(taker, asks, fills) >= 0 && (Paid(taker, asks, fills) == 0 <==> fills == [])
    decreases |fills|
  {
    if fills != [] {
      SomethingIsPaid(p, taker, asks[1..], fills[1..]);
      AtLeastOne(fills[0], asks[0].price);
    }
  }

  /** A market FOK buy always passes the probe. At safe prices it spends exactly its funds iff they
      run out evenly: the price of the ask at which the running cost reaches them divides what is
      left. It spends nothing iff it affords nothing of the first ask; and so it is all or nothing
      iff one or the other. Where prices divide exactly it never spends more. */
  lemma {:induction false} MarketFokBuyIff(p: Product, b: Book, o: Order)
    requires Invariant(b) && WellFormed(o) && o.otype == Market && o.side == Buy && Admissible(b.accepted, o.id)
    requires o.tif == FOK && !o.cancelling && SafeSide(p, b.asks)
    ensures Sound(b) && Priced(b.asks)
    ensures var value := TradedValue(Step(p, b, o).logs);
            && 0 <= value
            && (value == 0 <==>
                 b.asks == [] || b.asks[0].price > MaxPrice(p) || AffordableSize(p, o.funds, b.asks[0].price) == 0)
            && (value == o.funds <==> RunsOutEvenly(p, o.funds, b.asks))
            && (ExactSide(p, b.asks) ==> value <= o.funds)
  {
    hide Match, Settle, Invariant, MaxPrice, RunsOutEvenly, TradedValue, Paid, LogsOf, Remaining, AffordableSize, SafePrice,
         OwesLittle, ExactPrice, RunsOutAt;
    InvariantIsGood(b);
    var taker := PrepareTaker(p, NewBookOrder(o));
    DryRunIsTheRealRun(p, taker, b.asks, b.logSeq, b.tradeSeq);
    MatchTakerFields(p, taker, b.asks, b.logSeq, b.tradeSeq);
    MatchSpendsItsValue(p, taker, b.asks, b.logSeq, b.tradeSeq);
    var m := MatchOrder(p, b, o);
    var b' := AfterTrades(b.(accepted := b.accepted + {o.id}), o.side, m);
    SettleMovesNoValue(b', m.taker);
    ValueAppend(m.logs, Settle(b', m.taker).logs);
    var fills := MatchFollowsPriority(p, taker, b.asks, b.logSeq, b.tradeSeq);
    SomethingIsPaid(p, taker, b.asks, fills);
    NothingTakenIff(p, taker, b.asks, b.logSeq, b.tradeSeq, fills);
    if RunsOutEvenly(p, o.funds, b.asks) {
      EvenlyAt(p, taker, b.asks, fills);
    }
    if Left(taker, b.asks, fills) == 0 {
      SpentIsEven(p, taker, b.asks, fills);
    }
    if ExactSide(p, b.asks) {
      ExactIsBorne(p, taker, b.asks, fills);
    }
  }

  lemma {:induction false} EvenlyAt(p: Product, taker: BookOrder, asks: seq<BookOrder>, fills: seq<int>)
    requires SpendsFunds(taker) && taker.price == MaxPrice(p) && GoodSide(asks, Sell) && Priced(asks)
    requires RunsOutEvenly(p, taker.funds, asks) && IsPriorityFill(p, taker, asks, fills)
    ensures Left(taker, asks, fills) == 0
  {
    hide RunsOutAt, MaxPrice, GoodSide, IsPriorityFill;
    var k :| 0 <= k < |asks| && RunsOutAt(p, taker.funds, asks, k);
    EvenIsSpent(p, taker, asks, k, fills);
  }

  /** Nothing is taken iff the first ask is out of reach or the funds afford none of it. */
  lemma {:induction false} NothingTakenIff(p: Product, taker: BookOrder, asks: seq<BookOrder>, logSeq: nat, tradeSeq: nat,
                                           fills: seq<int>)
    requires SpendsFunds(taker) && taker.funds > 0 && taker.price == MaxPrice(p) && GoodSide(asks, Sell)
    requires FollowsPriority(p, taker, asks, logSeq, tradeSeq, Match(p, taker, asks, logSeq, tradeSeq), fills)
    ensures fills == [] <==>
            asks == [] || asks[0].price > MaxPrice(p) || AffordableSize(p, taker.funds, asks[0].price) == 0
  {
    hide MaxPrice, AffordableSize, Remaining, Paid, StopsAt, OwesLittle, Sorted, DistinctIds;
    assert fills != [] ==> Crosses(taker, asks[0]);
    if asks != [] && asks[0].price <= MaxPrice(p) {
      FundsAffordNoLess(p, taker.funds, asks[0].price);
      if AffordableSize(p, taker.funds, asks[0].price) != 0 {
        MatchUnfolds(p, taker, asks, logSeq, tradeSeq);
        assert LogsOf(logSeq, tradeSeq, taker, asks, []) == [];
      } else if fills != [] {
        TradeLogsAreSome(logSeq, tradeSeq, taker, asks, fills);
      }
    }
  }

  lemma TradeLogsAreSome(logSeq: nat, tradeSeq: nat, taker: BookOrder, makers: seq<BookOrder>, fills: seq<int>)
    requires 0 < |fills| <= |makers|
    ensures LogsOf(logSeq, tradeSeq, taker, makers, fills) != []
  {
  }

  lemma {:induction false} ExactIsBorne(p: Product, taker: BookOrder, asks: seq<BookOrder>, fills: seq<int>)
    requires SpendsFunds(taker) && taker.funds > 0 && ExactSide(p, asks) && IsPriorityFill(p, taker, asks, fills)
    ensures Left(taker, asks, fills) >= 0
  {
    hide OwesLittle, ExactPrice, StopsAt;
    if fills == [] {
      assert Paid(taker, asks, []) == 0;
    } else {
      OwesLess(p, Left(taker, asks, fills), asks[|fills| - 1].price);
    }
  }

  lemma SettleMovesNoValue(b: Book, taker: BookOrder)
    ensures TradedValue(Settle(b, taker).logs) == 0
  {
    assert Settle(b, taker).logs[1..] == [];
  }

  /** Sizes in whole units, one ask of a unit at 5 and a placed market FOK buy with funds of 7: part
      of the funds is spent. */
  lemma {:induction false} MarketFokBuyCanSpendInPart()
    ensures var p: Product := ProductRow(0, 2);
            var b := Book([], [BookOrder(1, 0, 1, 5, 5, Sell, Limit, GTC)], 0, 1, {1});
            var o := Order(2, 0, Buy, Market, FOK, 0, 0, 7, false);
            && Invariant(b) && WellFormed(o) && Placeable(p, o) && Sound(b)
            && 0 < TradedValue(Step(p, b, o).logs) < o.funds
  {
    hide Admissible, Step, MaxPrice, TradedValue, AffordableSize, DivUnit;
    var p: Product := ProductRow(0, 2);
    var asks := [BookOrder(1, 0, 1, 5, 5, Sell, Limit, GTC)];
    var b := Book([], asks, 0, 1, {1});
    var o := Order(2, 0, Buy, Market, FOK, 0, 0, 7, false);
    OneFresh(1, 2);
    SmallPrices(p);
    AffordableIsFloor(p, 7, 5);
    MarketFokBuyIff(p, b, o);
    CostNext(asks, 0);
    assert asks[..0] == [];
    assert !RunsOutAt(p, 7, asks, 0);
  }
}
