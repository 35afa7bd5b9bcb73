/** A placed market buy whose hold ends negative, from its placement to its settlement: the run, its
    log, the fills made of it and the row and bills they lead to, worked out one by one
    (matching/order_book.go, service/order_service.go). */
module Shortfalls {
  import opened Exchange
  import opened Depths
  import opened Matcher
  import opened Invariants
  import opened Runs
  import opened Division
  import opened Lifecycle
  import opened Trades
  import opened Fills
  import opened Tables
  import opened Ledgers
  import opened Placement
  import opened LedgerRuns
  import opened Holds

  const SCALES: Product := ProductRow(8, 2)

  /** Sizes of eight places, prices of two, and no minimum. */
  function Info(pair: Pair): ProductInfo {
    ProductInfo(SCALES, pair, Fraction(0, 1), Fraction(0, 1), Fraction(0, 1))
  }

  /** A unit for sale at 2000000.01, and a market buy of 0.02. */
  const DEAR: int := 200000001

  function AskRequest(): Request {
    Request.Request(1, 1, Sell, Limit, GTC, Fraction(1, 1), Fraction(DEAR, 1), Fraction(0, 1), 0, 0)
  }

  function BuyRequest(): Request {
    Request.Request(2, 2, Buy, Market, GTC, Fraction(0, 1), Fraction(0, 1), Fraction(2, 1), 0, 0)
  }

  function AskRow(): OrderRow {
    OrderRow(1, 1, Sell, Limit, GTC, 1, DEAR, DEAR, 0, 0, IsNew, 0, 0, 0)
  }

  function BuyRow(): OrderRow {
    OrderRow(2, 2, Buy, Market, GTC, 0, 0, DEAR - 1, 0, 0, IsNew, 0, 0, 0)
  }

  function Orders(): seq<Order> {
    [Sent(AskRow()), Sent(BuyRow())]
  }

  function Accounts(pair: Pair): map<Ledgers.Key, Account> {
    map[(1, pair.baseCurrency) := Account(ONE, 0), (2, pair.quoteCurrency) := Account((DEAR - 1) * ONE, 0)]
  }

  const EVENTS: seq<Event> := [Place(AskRequest()), Place(BuyRequest()), Flush(4), SettleOrder(2)]

  lemma EightPlaces()
    ensures Pow10(8) == 100000000
  {
    assert Pow10(2) == 100;
    assert Pow10(4) == 10000;
    assert Pow10(6) == 1000000;
  }

  // ---- the engine ----

  /** The buy takes the unit, which costs one more than its funds. */
  lemma {:induction false} BuyTrades(logSeq: nat, tradeSeq: nat)
    ensures var taker := PrepareTaker(SCALES, NewBookOrder(Sent(BuyRow())));
            var maker := NewBookOrder(Sent(AskRow()));
            && DEAR <= MaxPrice(SCALES) && Priced([maker])
            && Match(SCALES, taker, [maker], logSeq, tradeSeq)
               == Matched(taker.(funds := -1), [], TradeLogs(logSeq, tradeSeq, taker, maker, 1), logSeq + 2, tradeSeq + 1)
  {
    hide AffordableSize;
    RoundingCanOverspend();
    var taker := PrepareTaker(SCALES, NewBookOrder(Sent(BuyRow())));
    var maker := NewBookOrder(Sent(AskRow()));
    assert Pow10(2) == 100;
    assert [maker][1..] == [];
    var taker' := taker.(funds := -1);
    assert Match(SCALES, taker', [], logSeq + 2, tradeSeq + 1) == Matched(taker', [], [], logSeq + 2, tradeSeq + 1);
  }

  lemma {:induction false} RunsShort()
    ensures AllWellFormed(Orders())
    ensures var logs := Run(SCALES, Orders()).logs;
            |logs| == 4 && logs[0].OpenLog?
            && logs[1] == MatchLog(2, 1, 2, 1, 2, 1, Sell, DEAR, 1, GTC, GTC)
            && logs[2].DoneLog? && logs[2].orderId == 1
            && logs[3].DoneLog? && logs[3].orderId == 2 && logs[3].reason == Filled
  {
    hide Match, MaxPrice, AffordableSize, Invariant, Insert;
    var ask, buy := Sent(AskRow()), Sent(BuyRow());
    var maker := NewBookOrder(ask);
    assert Orders() == ([] + [ask]) + [buy] && WellFormed(ask) && WellFormed(buy);
    RunNext(SCALES, [], ask);
    AskAlone(ask);
    RunNext(SCALES, [] + [ask], buy);
    BuyTrades(1, 0);
    assert Admissible({1}, 2);
  }

  lemma {:induction false} AskAlone(ask: Order)
    requires ask == Sent(AskRow())
    ensures Sound(EmptyBook) && Run(SCALES, []) == Outcome(EmptyBook, [])
    ensures Step(SCALES, EmptyBook, ask)
            == Outcome(Book([], [NewBookOrder(ask)], 0, 1, {1}), [NewOpenLog(1, NewBookOrder(ask))])
  {
    assert Admissible({}, 1) && {} + {1} == {1};
    assert Insert(Sell, [], NewBookOrder(ask)) == [NewBookOrder(ask)];
  }

  lemma {:induction false} FillsMade()
    requires AllWellFormed(Orders())
    ensures var feed := FillsOf(Run(SCALES, Orders()).logs);
            && |feed| == 4
            && feed[0].orderId == 2 && !feed[0].done && !feed[0].settled && feed[0].size == 1 && feed[0].price == DEAR
            && feed[0].liquidity == TakerLiquidity
            && feed[1].orderId == 1 && feed[2].orderId == 1
            && feed[3].orderId == 2 && feed[3].done && !feed[3].settled && feed[3].doneReason == Filled
  {
    hide Run, FillsOf;
    RunsShort();
    FourLogs(Run(SCALES, Orders()).logs);
  }

  lemma {:induction false} FourLogs(logs: seq<Log>)
    requires |logs| == 4
    ensures FillsOf(logs) == FillsOfLog(logs[0]) + FillsOfLog(logs[1]) + FillsOfLog(logs[2]) + FillsOfLog(logs[3])
  {
    hide FillsOfLog;
    FillsNext(logs, 0);
    FillsNext(logs, 1);
    FillsNext(logs, 2);
    FillsNext(logs, 3);
    assert logs[..0] == [] && logs[..4] == logs;
    assert FillsOf([]) + FillsOfLog(logs[0]) == FillsOfLog(logs[0]);
  }

  lemma FillsNext(logs: seq<Log>, n: nat)
    requires n < |logs|
    ensures FillsOf(logs[..n + 1]) == FillsOf(logs[..n]) + FillsOfLog(logs[n])
  {
    assert logs[..n + 1][..n] == logs[..n];
  }

  // ---- the ledger ----

  lemma {:induction false} AskPlaced(pair: Pair)
    ensures var r := PlaceOrder(Opening(Accounts(pair)), Info(pair), AskRequest());
            && r.Ok? && r.value.orders == map[1 := AskRow()] && r.value.fills == []
            && (2, pair.quoteCurrency) in r.value.accounts
            && r.value.accounts[(2, pair.quoteCurrency)] == Account((DEAR - 1) * ONE, 0)
  {
    assert TermsOf(Info(pair), AskRequest()) == Ok(Terms(1, DEAR, DEAR));
  }

  lemma {:induction false} BuyPlaced(pair: Pair, l: Ledger)
    requires (2, pair.quoteCurrency) in l.accounts && l.accounts[(2, pair.quoteCurrency)] == Account((DEAR - 1) * ONE, 0)
    requires l.orders == map[1 := AskRow()]
    ensures var r := PlaceOrder(l, Info(pair), BuyRequest());
            r.Ok? && r.value.orders == map[1 := AskRow(), 2 := BuyRow()] && r.value.fills == l.fills
  {
    hide Pow10;
    EightPlaces();
    assert TermsOf(Info(pair), BuyRequest()) == Ok(Terms(0, 0, DEAR - 1));
  }

  lemma {:induction false} BothPlaced(pair: Pair, feed: seq<Fill>)
    ensures var l := Play(Info(pair), feed, Accounts(pair), EVENTS[..2]);
            l.orders == map[1 := AskRow(), 2 := BuyRow()] && l.fills == []
  {
    hide PlaceOrder;
    assert EVENTS[..2][..1] == EVENTS[..1] && EVENTS[..1] == [Place(AskRequest())] && EVENTS[..1][..0] == [];
    assert Play(Info(pair), feed, Accounts(pair), []) == Opening(Accounts(pair));
    AskPlaced(pair);
    var l1 := Play(Info(pair), feed, Accounts(pair), EVENTS[..1]);
    assert l1 == PlaceOrder(Opening(Accounts(pair)), Info(pair), AskRequest()).value;
    BuyPlaced(pair, l1);
  }

  /** The buy's two fills are the first and the last. */
  lemma {:induction false} BuyPicks(feed: seq<Fill>)
    requires |feed| == 4 && !feed[0].settled && !feed[3].settled
    requires feed[0].orderId == 2 && feed[1].orderId == 1 && feed[2].orderId == 1 && feed[3].orderId == 2
    ensures Rows(feed, PendingFill(2), BATCH) == [0, 3] && Picked(feed, [0, 3]) == [feed[0], feed[3]]
  {
    hide Rows, Picked;
    var rows := Rows(feed, PendingFill(2), BATCH);
    assert PendingFill(2)(feed[0]) && PendingFill(2)(feed[3]);
    ShortRows(rows, 4);
    assert 0 in rows && 3 in rows;
    assert forall k :: 0 <= k < |rows| ==> rows[k] == 0 || rows[k] == 3;
    assert rows[0] == 0;
    var k :| 0 <= k < |rows| && rows[k] == 3;
    var m := |rows| - 1;
    assert forall j :: 0 <= j < m ==> rows[..m][j] < rows[m];
    ShortRows(rows[..m], 1);
  }

  lemma {:induction false} ShortRows(rows: seq<nat>, n: nat)
    requires Increasing(rows) && forall k :: 0 <= k < |rows| ==> rows[k] < n
    ensures |rows| <= n
    decreases |rows|
  {
    if rows != [] {
      var m := |rows| - 1;
      assert forall k :: 0 <= k < m ==> rows[..m][k] < rows[m];
      ShortRows(rows[..m], rows[m]);
    }
  }

  lemma {:induction false} SettledShort(pair: Pair, trade: Fill, end: Fill)
    requires !trade.done && trade.size == 1 && trade.price == DEAR && trade.liquidity == TakerLiquidity
    requires end.done && end.doneReason == Filled
    ensures var s := SettleFills(pair, BuyRow(), [trade, end]);
            s.Some? && s.value.row == BuyRow().(status := IsFilled, filledSize := 1, executedValue := DEAR)
  {
    var fills := [trade, end];
    var first := SettleFill(pair, BuyRow(), trade);
    assert fills[1..] == [end];
    assert SettleFills(pair, first.row, [end]) == Some(SettleFill(pair, first.row, end));
  }

  /** Both rows once the fills are written and the buy's are settled. */
  lemma {:induction false} SettlesShort(pair: Pair, feed: seq<Fill>)
    requires |feed| == 4 && !feed[0].settled && !feed[3].settled
    requires feed[0].orderId == 2 && feed[1].orderId == 1 && feed[2].orderId == 1 && feed[3].orderId == 2
    requires !feed[0].done && feed[0].size == 1 && feed[0].price == DEAR && feed[0].liquidity == TakerLiquidity
    requires feed[3].done && feed[3].doneReason == Filled
    ensures Play(Info(pair), feed, Accounts(pair), EVENTS).orders
            == map[1 := AskRow(), 2 := BuyRow().(status := IsFilled, filledSize := 1, executedValue := DEAR)]
  {
    hide PlaceOrder, Rows, Picked, SettleFills, Mark, PendingFill, MarkSettled, Pow10;
    BothPlaced(pair, feed);
    assert EVENTS[..4] == EVENTS && EVENTS[..3][..2] == EVENTS[..2] && EVENTS[..4][..3] == EVENTS[..3];
    var l2 := Play(Info(pair), feed, Accounts(pair), EVENTS[..2]);
    var l3 := Play(Info(pair), feed, Accounts(pair), EVENTS[..3]);
    assert l3.fills == feed && l3.orders == l2.orders by {
      assert [] + feed[0..0 + 4] == feed;
    }
    BuyPicks(feed);
    SettledShort(pair, feed[0], feed[3]);
  }

  /** Holds need not close where prices do not divide exactly: both orders are placed, the buy takes
      the unit, its settlement takes more than its hold, and its end leaves the hold negative. */
  lemma {:induction false} MarketBuyCanOverdraw(pair: Pair)
    ensures AllWellFormed(Orders()) && DistinctNew(Orders()) && SafeOrders(SCALES, Orders()) && Solvent(Accounts(pair))
    ensures var l := Play(Info(pair), FillsOf(Run(SCALES, Orders()).logs), Accounts(pair), EVENTS);
            && 1 in l.orders && 2 in l.orders && Agreed(l.orders, Orders())
            && l.orders[2].Finished() && Unreleased(l.orders[2]) < 0
  {
    hide Run, FillsOf, Play, Pow10;
    RunsShort();
    FillsMade();
    SettlesShort(pair, FillsOf(Run(SCALES, Orders()).logs));
  }
}
