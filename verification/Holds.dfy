/** Holds close exactly, from placement through matching to settlement
    (service/order_service.go, matching/order_book.go). */
module Holds {
  import opened Exchange
  import opened Matcher
  import opened Runs
  import opened TimeInForces
  import opened Overdrafts
  import opened Lifecycle
  import opened Trades
  import opened Fills
  import opened Sums
  import opened Tables
  import opened Ledgers
  import opened Placement
  import opened LedgerRuns
  import opened Conservation

  // ---- the fills of an order add up to its life in the log ----

  function SizeOf(id: nat): Fill -> int {
    (f: Fill) => if f.orderId == id && !f.done then f.size else 0
  }

  function ValueOf(id: nat): Fill -> int {
    (f: Fill) => if f.orderId == id && !f.done then f.size * f.price else 0
  }

  lemma AdvanceTotals(l: Life, log: Log, id: nat)
    requires Advance(l, log, id).stage != Broken
    ensures l.stage != Broken
    ensures Advance(l, log, id).filled == l.filled + SumSeq(FillsOfLog(log), SizeOf(id))
    ensures Advance(l, log, id).value == l.value + SumSeq(FillsOfLog(log), ValueOf(id))
  {
    var fills := FillsOfLog(log);
    if log.MatchLog? {
      assert fills == [fills[0]] + [fills[1]];
      SumOne(fills[0], SizeOf(id));
      SumOne(fills[1], SizeOf(id));
      SumOne(fills[0], ValueOf(id));
      SumOne(fills[1], ValueOf(id));
      SumAppend([fills[0]], [fills[1]], SizeOf(id));
      SumAppend([fills[0]], [fills[1]], ValueOf(id));
    } else if log.DoneLog? {
      SumOne(fills[0], SizeOf(id));
      SumOne(fills[0], ValueOf(id));
    }
  }

  /** The fills made of a log trade, for each id, what the log says that id traded. */
  lemma {:induction false} LifeTotals(logs: seq<Log>, id: nat)
    requires LifeOf(Unborn, logs, id).stage != Broken
    ensures SumSeq(FillsOf(logs), SizeOf(id)) == LifeOf(Unborn, logs, id).filled
    ensures SumSeq(FillsOf(logs), ValueOf(id)) == LifeOf(Unborn, logs, id).value
    decreases |logs|
  {
    hide Advance, FillsOfLog;
    if logs != [] {
      var n := |logs| - 1;
      assert logs == logs[..n] + [logs[n]];
      LifeAppend(Unborn, logs[..n], [logs[n]], id);
      LifeOne(LifeOf(Unborn, logs[..n], id), logs[n], id);
      AdvanceTotals(LifeOf(Unborn, logs[..n], id), logs[n], id);
      LifeTotals(logs[..n], id);
      SumAppend(FillsOf(logs[..n]), FillsOfLog(logs[n]), SizeOf(id));
      SumAppend(FillsOf(logs[..n]), FillsOfLog(logs[n]), ValueOf(id));
    }
  }

  // ---- a row adds up its settled fills ----

  function SettledSize(id: nat): Fill -> int {
    (f: Fill) => if f.settled && f.orderId == id && !f.done then f.size else 0
  }

  function SettledValue(id: nat): Fill -> int {
    (f: Fill) => if f.settled && f.orderId == id && !f.done then f.size * f.price else 0
  }

  ghost predicate Totalled(l: Ledger, id: nat) {
    id in l.orders ==>
      && FitTerms(Sent(l.orders[id]))
      && l.orders[id].filledSize == SumSeq(l.fills, SettledSize(id))
      && l.orders[id].executedValue == SumSeq(l.fills, SettledValue(id))
  }

  /** A settlement adds up the fills it counts. */
  ghost predicate Adds(row: OrderRow, fills: seq<Fill>, s: Settlement, id: nat) {
    && s.count <= |fills|
    && s.row.filledSize == row.filledSize + SumSeq(fills[..s.count], SizeOf(id))
    && s.row.executedValue == row.executedValue + SumSeq(fills[..s.count], ValueOf(id))
    && SameOrder(row, s.row)
  }

  ghost predicate AllOf(fills: seq<Fill>, id: nat) {
    forall i :: 0 <= i < |fills| ==> fills[i].orderId == id
  }

  lemma {:induction false} SettleFillsAdds(pair: Pair, row: OrderRow, fills: seq<Fill>, id: nat)
    requires AllOf(fills, id) && SettleFills(pair, row, fills).Some?
    ensures Adds(row, fills, SettleFills(pair, row, fills).value, id)
    decreases |fills|
  {
    hide SumSeq, TradeBills, RefundBills, Fee;
    if fills == [] {
      NoFills(SizeOf(id));
      NoFills(ValueOf(id));
    } else {
      var first := SettleFill(pair, row, fills[0]);
      assert fills[..1] == [fills[0]];
      SumOne(fills[0], SizeOf(id));
      SumOne(fills[0], ValueOf(id));
      if !fills[0].done {
        SettleFillsAdds(pair, first.row, fills[1..], id);
        var k := SettleFills(pair, first.row, fills[1..]).value.count;
        assert fills[..1 + k] == [fills[0]] + fills[1..][..k];
        SumAppend([fills[0]], fills[1..][..k], SizeOf(id));
        SumAppend([fills[0]], fills[1..][..k], ValueOf(id));
      }
    }
  }

  lemma NoFills(f: Fill -> int)
    ensures SumSeq([], f) == 0
  {
  }

  lemma {:induction false} PlaceKeepsTotals(l: Ledger, feed: seq<Fill>, info: ProductInfo, r: Request, id: nat)
    requires Fair(l, feed) && Totalled(l, id) && PlaceOrder(l, info, r).Ok?
    ensures Totalled(PlaceOrder(l, info, r).value, id)
  {
    hide PlaceOrder, FairRow, FairBills, Solvent, SumSeq, SettledSize, SettledValue;
    var row := PlacedShape(l, info, r);
    PlacedIsFitIff(l, info, r);
    if id == r.id {
      NothingSettled(l, feed, id);
    }
  }

  lemma NothingSettled(l: Ledger, feed: seq<Fill>, id: nat)
    requires Fed(l, feed) && id !in l.orders
    ensures SumSeq(l.fills, SettledSize(id)) == 0 && SumSeq(l.fills, SettledValue(id)) == 0
  {
    hide SumSeq;
    forall i | 0 <= i < |l.fills|
      ensures SettledSize(id)(l.fills[i]) == 0 && SettledValue(id)(l.fills[i]) == 0
    {
      assert l.fills[i].settled ==> l.fills[i].orderId != id;
    }
    SumOfZeros(l.fills, SettledSize(id));
    SumOfZeros(l.fills, SettledValue(id));
  }

  lemma FlushKeepsTotals(l: Ledger, feed: seq<Fill>, n: nat, id: nat)
    requires FairFeed(feed) && Fed(l, feed) && Totalled(l, id)
    ensures Totalled(Flushed(l, feed, n), id)
  {
    hide SumSeq;
    var k := |l.fills|;
    if k + n <= |feed| {
      SumAppend(l.fills, feed[k..k + n], SettledSize(id));
      SumAppend(l.fills, feed[k..k + n], SettledValue(id));
      SumOfZeros(feed[k..k + n], SettledSize(id));
      SumOfZeros(feed[k..k + n], SettledValue(id));
    }
  }

  /** Marking pending fills of order `of` settled adds them to its totals and to no other's. */
  lemma {:induction false} TotalsMarked(fills: seq<Fill>, rows: seq<nat>, of: nat, id: nat)
    requires InTable(fills, rows) && Increasing(rows)
    requires forall k :: 0 <= k < |rows| ==> PendingFill(of)(fills[rows[k]])
    ensures SumSeq(Mark(fills, rows, MarkSettled()), SettledSize(id))
            == SumSeq(fills, SettledSize(id)) + if id == of then SumSeq(Picked(fills, rows), SizeOf(id)) else 0
    ensures SumSeq(Mark(fills, rows, MarkSettled()), SettledValue(id))
            == SumSeq(fills, SettledValue(id)) + if id == of then SumSeq(Picked(fills, rows), ValueOf(id)) else 0
  {
    hide SumSeq, Mark;
    if id == of {
      SumMark(fills, rows, MarkSettled(), SettledSize(id), SizeOf(id));
      SumMark(fills, rows, MarkSettled(), SettledValue(id), ValueOf(id));
    } else {
      var none: Fill -> int := (f: Fill) => 0;
      SumOfZeros(Picked(fills, rows), none);
      SumMark(fills, rows, MarkSettled(), SettledSize(id), none);
      SumMark(fills, rows, MarkSettled(), SettledValue(id), none);
    }
  }

  lemma {:induction false} ExecuteFillKeepsTotals(l: Ledger, pair: Pair, of: nat, id: nat)
    requires Totalled(l, id) && ExecuteFill(l, pair, of).Ok?
    ensures Totalled(ExecuteFill(l, pair, of).value, id)
  {
    hide SumSeq, SettleFills, SizeOf, ValueOf, SettledSize, SettledValue, WellFormed, Mark, Picked, Rows;
    var rows := Rows(l.fills, PendingFill(of), BATCH);
    var picked := Picked(l.fills, rows);
    if rows != [] {
      SettleFillsAdds(pair, l.orders[of], picked, of);
      var s := SettleFills(pair, l.orders[of], picked).value;
      PickedPrefix(l.fills, rows, s.count);
      TotalsMarked(l.fills, rows[..s.count], of, id);
      assert Sent(s.row) == Sent(l.orders[of]);
    }
  }

  lemma {:induction false} NextKeepsTotals(info: ProductInfo, feed: seq<Fill>, l: Ledger, event: Event, id: nat)
    requires Fair(l, feed) && FairFeed(feed) && Totalled(l, id)
    ensures Totalled(Next(info, feed, l, event), id)
  {
    hide PlaceOrder, ExecuteFill, FairRows, FairBills, Solvent, FairFeed, SumSeq, WellFormed, Rows, Mark;
    match event
    case Place(r) =>
      if PlaceOrder(l, info, r).Ok? {
        PlaceKeepsTotals(l, feed, info, r, id);
      }
    case Flush(n) => FlushKeepsTotals(l, feed, n, id);
    case Opened(of) =>
    case SettleOrder(of) =>
      if ExecuteFill(l, info.pair, of).Ok? {
        ExecuteFillKeepsTotals(l, info.pair, of, id);
      }
    case SettleAccount(u, c) =>
  }

  /** However its fills are batched, an order's row is at all times the sum of its settled fills. */
  lemma {:induction false} RowsAddUp(info: ProductInfo, feed: seq<Fill>, accounts: map<Key, Account>,
                                     events: seq<Event>, id: nat)
    requires FairFeed(feed) && Solvent(accounts)
    ensures Totalled(Play(info, feed, accounts, events), id)
    decreases |events|
  {
    hide Next, Fair, FairFeed, InBooks;
    if events != [] {
      var n := |events| - 1;
      PlayKeeps(info, feed, accounts, events[..n], 0, 0);
      RowsAddUp(info, feed, accounts, events[..n], id);
      NextKeepsTotals(info, feed, Play(info, feed, accounts, events[..n]), events[n], id);
    }
  }

  // ---- end to end ----

  /** The engine was sent the orders the ledger placed. */
  ghost predicate Agreed(rows: map<nat, OrderRow>, orders: seq<Order>) {
    forall i :: 0 <= i < |orders| && !orders[i].cancelling && orders[i].id in rows ==> Sent(rows[orders[i].id]) == orders[i]
  }

  lemma TrueTradesAreFair(orders: seq<Order>, logs: seq<Log>)
    requires TrueTrades(orders, logs)
    ensures FairFeed(FillsOf(logs))
    decreases |logs|
  {
    if logs != [] {
      var n := |logs| - 1;
      TrueTradesAreFair(orders, logs[..n]);
      assert TrueTrade(orders, logs[n]);
    }
  }

  /** What is settled of a feed is no more than all of it. */
  lemma {:induction false} SettledIsPart(fills: seq<Fill>, feed: seq<Fill>, id: nat)
    requires Copies(fills, feed) && FairFeed(feed)
    ensures 0 <= SumSeq(fills, SettledSize(id)) <= SumSeq(feed, SizeOf(id))
    ensures 0 <= SumSeq(fills, SettledValue(id)) <= SumSeq(feed, ValueOf(id))
    decreases |feed|
  {
    if feed != [] {
      var n := |feed| - 1;
      FairValue(feed[n], id);
      if |fills| == |feed| {
        SettledIsPart(fills[..n], feed[..n], id);
      } else {
        SettledIsPart(fills, feed[..n], id);
      }
    }
  }

  lemma FairValue(f: Fill, id: nat)
    requires FairFill(f)
    ensures SizeOf(id)(f) >= 0 && ValueOf(id)(f) >= 0
  {
    if !f.done {
      assert f.size * f.price >= 0;
    }
  }

  /** The trades of a limit order or a market sell in the engine's log stay within its size and its
      funds, at any prices. */
  lemma {:induction false} TradesWithinOrder(p: Product, orders: seq<Order>, i: nat)
    requires AllWellFormed(orders) && DistinctNew(orders) && i < |orders| && !orders[i].cancelling && Sized(orders[i])
    ensures var o := orders[i];
            var feed := FillsOf(Run(p, orders).logs);
            if o.side == Buy then SumSeq(feed, ValueOf(o.id)) <= o.funds else SumSeq(feed, SizeOf(o.id)) <= o.size
  {
    LifeIsAccounted(p, orders, i, None);
  }

  /** Those of a market buy exceed its funds by no more than half a last place of the dearest price
      that does not divide exactly. */
  lemma {:induction false} MarketBuyOwesLittle(p: Product, orders: seq<Order>, i: nat, bound: nat)
    requires AllWellFormed(orders) && DistinctNew(orders) && i < |orders| && !orders[i].cancelling && !Sized(orders[i])
    requires OwableOrders(p, orders, bound)
    ensures OwesLittle(p, orders[i].funds - SumSeq(FillsOf(Run(p, orders).logs), ValueOf(orders[i].id)), bound)
  {
    hide OwesLittle;
    LifeIsAccounted(p, orders, i, Some(bound));
  }

  lemma {:induction false} LifeIsAccounted(p: Product, orders: seq<Order>, i: nat, bound: Option<nat>)
    requires AllWellFormed(orders) && DistinctNew(orders) && i < |orders| && !orders[i].cancelling
    requires bound.Some? ==> OwableOrders(p, orders, bound.value)
    ensures var o := orders[i];
            var feed := FillsOf(Run(p, orders).logs);
            if !Sized(o) then bound.Some? ==> OwesLittle(p, o.funds - SumSeq(feed, ValueOf(o.id)), bound.value)
            else if o.side == Buy then SumSeq(feed, ValueOf(o.id)) <= o.funds else SumSeq(feed, SizeOf(o.id)) <= o.size
  {
    hide RunFrom, LifeOf, Find, SumSeq, OwesLittle;
    var o := orders[i];
    EveryOrderLives(p, orders, o.id, bound);
    assert Brings(o, o.id);
    var l := LifeOf(Unborn, Run(p, orders).logs, o.id);
    assert Lived(p, l, Find(Run(p, orders).book, o.id), o, bound);
    LifeTotals(Run(p, orders).logs, o.id);
    AccountsBound(p, l, o, bound);
  }

  lemma AccountsBound(p: Product, l: Life, o: Order, bound: Option<nat>)
    requires Accounts(p, l, o, bound) && WellFormed(o)
    ensures if !Sized(o) then bound.Some? ==> OwesLittle(p, o.funds - l.value, bound.value)
            else if o.side == Buy then l.value <= o.funds else l.filled <= o.size
  {
    if l == Unborn && bound.Some? && o.funds >= 0 {
      FundedOwesNothing(p, o.funds, bound.value);
    } else if o.otype == Limit {
      assert l.remaining * o.price >= 0;
    }
  }

  /** An id the run does not bring has no trades. */
  lemma {:induction false} NoTradesUnbrought(p: Product, orders: seq<Order>, id: nat)
    requires AllWellFormed(orders) && DistinctNew(orders) && !BroughtBy(orders, id)
    ensures SumSeq(FillsOf(Run(p, orders).logs), SizeOf(id)) == 0 && SumSeq(FillsOf(Run(p, orders).logs), ValueOf(id)) == 0
  {
    hide RunFrom, LifeOf, Find, SumSeq;
    EveryOrderLives(p, orders, id, None);
    LifeTotals(Run(p, orders).logs, id);
  }

  ghost predicate Closes(row: OrderRow) {
    && 0 <= row.Used() <= row.Held()
    && 0 <= Unreleased(row) <= row.Held()
    && (row.Finished() ==> Unreleased(row) == 0)
  }

  /** Over placement, matching and settlement in any interleaving, at safe prices: no limit order's
      and no market sell's settled trades ever exceed its hold, so what it still holds is never
      negative, and once its end is settled it holds exactly nothing. So does a market buy where
      prices divide exactly; elsewhere it exceeds its hold by no more than half a last place of the
      dearest price. */
  lemma {:induction false} HoldsClose(p: Product, orders: seq<Order>, info: ProductInfo, accounts: map<Key, Account>,
                                      events: seq<Event>, id: nat)
    requires AllWellFormed(orders) && DistinctNew(orders) && SafeOrders(p, orders) && Solvent(accounts)
    requires var l := Play(info, FillsOf(Run(p, orders).logs), accounts, events);
             id in l.orders && Agreed(l.orders, orders)
    ensures var row := Play(info, FillsOf(Run(p, orders).logs), accounts, events).orders[id];
            && (Sized(Sent(row)) || ExactOrders(p, orders) ==> Closes(row))
            && (!Sized(Sent(row)) ==> OwesLittle(p, row.funds - row.executedValue, DearestPrice(orders)))
  {
    hide Play, Run, FillsOf, SumSeq, FairFeed, FitTerms, SafeOrders, ExactOrders, OwableOrders, OwesLittle;
    var feed := FillsOf(Run(p, orders).logs);
    RunTradesAreTrue(p, orders);
    TrueTradesAreFair(orders, Run(p, orders).logs);
    var l := Play(info, feed, accounts, events);
    PlayKeeps(info, feed, accounts, events, 0, 0);
    RowsAddUp(info, feed, accounts, events, id);
    RowIsFair(l.orders, id);
    SettledIsPart(l.fills, feed, id);
    var row := l.orders[id];
    if !BroughtBy(orders, id) {
      NoTradesUnbrought(p, orders, id);
      HeldIsPositive(row);
      if !Sized(Sent(row)) {
        FundedOwesNothing(p, row.funds - row.executedValue, DearestPrice(orders));
      }
    } else {
      var i :| 0 <= i < |orders| && Brings(orders[i], id);
      assert Sent(row) == orders[i];
      if Sized(Sent(row)) {
        TradesWithinOrder(p, orders, i);
      } else {
        SafeIsOwable(p, orders);
        MarketBuyOwesLittle(p, orders, i, DearestPrice(orders));
        var total := SumSeq(feed, ValueOf(id));
        OwesNoMore(p, row.funds - total, row.funds - row.executedValue, DearestPrice(orders));
        if ExactOrders(p, orders) {
          ExactIsOwable(p, orders);
          MarketBuyOwesLittle(p, orders, i, 0);
          NothingOwed(p, row.funds - total);
        }
      }
    }
  }

  lemma HeldIsPositive(row: OrderRow)
    requires FitTerms(Sent(row))
    ensures row.Held() > 0
  {
    if row.otype == Limit {
      assert row.size * row.price > 0;
    }
  }

  // ---- accounts and money, end to end ----

  function OpenHoldFor(pair: Pair, u: nat, c: nat): OrderRow -> int {
    (row: OrderRow) =>
      if row.userId == u && row.HoldCurrency(pair) == c && !row.Finished() then row.Held() - row.Used() else 0
  }

  /** What finished orders have taken beyond their holds. */
  function OverdrawnFor(pair: Pair, u: nat, c: nat): OrderRow -> int {
    (row: OrderRow) =>
      if row.userId == u && row.HoldCurrency(pair) == c && row.Finished() && row.Used() > row.Held()
      then row.Used() - row.Held() else 0
  }

  /** No order of the account is a market buy. */
  ghost predicate OnlySized(orders: map<nat, OrderRow>, pair: Pair, u: nat, c: nat) {
    forall id :: id in orders && orders[id].userId == u && orders[id].HoldCurrency(pair) == c ==> Sized(Sent(orders[id]))
  }

  /** For every account, the hold with the holds not yet settled is exactly what the account's
      unfinished orders have left of their holds, less what finished ones were overdrawn; and no
      limit order or sell, and where prices divide exactly no order at all, is ever overdrawn. */
  lemma {:induction false} AccountsHoldOpenOrders(p: Product, orders: seq<Order>, info: ProductInfo,
                                                  accounts: map<Key, Account>,
                                                  events: seq<Event>, u: nat, c: nat)
    requires AllWellFormed(orders) && DistinctNew(orders) && SafeOrders(p, orders) && Solvent(accounts)
    requires Agreed(Play(info, FillsOf(Run(p, orders).logs), accounts, events).orders, orders)
    ensures var l := Play(info, FillsOf(Run(p, orders).logs), accounts, events);
            && l.AccountOf(u, c).hold + SumSeq(l.bills, PendingHold(u, c))
               == OpeningOf(accounts, u, c).hold + SumMap(l.orders, OpenHoldFor(info.pair, u, c))
                  - SumMap(l.orders, OverdrawnFor(info.pair, u, c))
            && (ExactOrders(p, orders) || OnlySized(l.orders, info.pair, u, c) ==>
                  SumMap(l.orders, OverdrawnFor(info.pair, u, c)) == 0)
  {
    hide Play, Run, FillsOf, SumSeq, SumMap, FairFeed, WellFormed, ExactOrders, SafeOrders, DistinctNew, AllWellFormed,
         OwesLittle;
    var feed := FillsOf(Run(p, orders).logs);
    RunTradesAreTrue(p, orders);
    TrueTradesAreFair(orders, Run(p, orders).logs);
    LedgerBalances(info, feed, accounts, events, u, c);
    var l := Play(info, feed, accounts, events);
    SumMapDifference(l.orders, UnreleasedFor(info.pair, u, c), OpenHoldFor(info.pair, u, c), OverdrawnFor(info.pair, u, c));
    if ExactOrders(p, orders) || OnlySized(l.orders, info.pair, u, c) {
      forall id | id in l.orders
        ensures OverdrawnFor(info.pair, u, c)(l.orders[id]) == 0
      {
        HoldsClose(p, orders, info, accounts, events, id);
      }
      SumMapOfZeros(l.orders, OverdrawnFor(info.pair, u, c));
    }
  }

  /** The ledger knows the side a run brought an order on. */
  lemma SideIsKnown(rows: map<nat, OrderRow>, orders: seq<Order>, id: nat, side: Side)
    requires Agreed(rows, orders) && BroughtOn(orders, id, side) && id in rows
    ensures rows[id].side == side
  {
    var i :| 0 <= i < |orders| && Brings(orders[i], id) && orders[i].side == side;
    assert Sent(rows[orders[i].id]) == orders[i];
  }

  lemma {:induction false} OneTradeIsOpposed(rows: map<nat, OrderRow>, orders: seq<Order>, log: Log)
    requires TrueTrade(orders, log) && Agreed(rows, orders) && log.MatchLog?
    requires log.takerOrderId in rows && log.makerOrderId in rows
    ensures rows[log.takerOrderId].side == rows[log.makerOrderId].side.Opposite()
  {
    hide Agreed, BroughtOn;
    SideIsKnown(rows, orders, log.takerOrderId, log.side.Opposite());
    SideIsKnown(rows, orders, log.makerOrderId, log.side);
  }

  lemma {:induction false} TrueTradesAreOpposed(rows: map<nat, OrderRow>, orders: seq<Order>, logs: seq<Log>)
    requires TrueTrades(orders, logs) && Agreed(rows, orders)
    ensures Opposed(rows, FillsOf(logs))
    decreases |logs|
  {
    hide Agreed, BroughtOn;
    if logs != [] {
      var n := |logs| - 1;
      TrueTradesAreOpposed(rows, orders, logs[..n]);
      var before, feed := FillsOf(logs[..n]), FillsOf(logs);
      forall i | 0 <= i < |feed| - 1 && feed[i].liquidity == TakerLiquidity
                 && feed[i].orderId in rows && feed[i + 1].orderId in rows
        ensures rows[feed[i].orderId].side == rows[feed[i + 1].orderId].side.Opposite()
      {
        if i < |before| {
          TakerIsFollowed(logs[..n], i);
          assert before[i] == feed[i] && before[i + 1] == feed[i + 1];
        } else {
          assert TrueTrade(orders, logs[n]);
          OneTradeIsOpposed(rows, orders, logs[n]);
          assert feed[i] == FillsOfLog(logs[n])[0] && feed[i + 1] == FillsOfLog(logs[n])[1];
        }
      }
    }
  }

  /** Over any run of the engine and any interleaving of settlements, once every match is settled
      on both sides or on neither, all bills together are worth nothing in every currency. */
  lemma {:induction false} MoneyIsConserved(p: Product, orders: seq<Order>, info: ProductInfo, accounts: map<Key, Account>,
                                            events: seq<Event>, c: nat)
    requires AllWellFormed(orders) && DistinctNew(orders) && SafeOrders(p, orders) && Solvent(accounts)
    requires var feed := FillsOf(Run(p, orders).logs);
             var l := Play(info, feed, accounts, events);
             Agreed(l.orders, orders) && EvenlySettled(l.fills, feed)
    ensures SumSeq(Play(info, FillsOf(Run(p, orders).logs), accounts, events).bills, Worth(c)) == 0
  {
    hide Play, Run, FillsOf, SumSeq, FairFeed, EvenlySettled, SafeOrders, DistinctNew, AllWellFormed;
    RunTradesAreTrue(p, orders);
    TrueTradesAreFair(orders, Run(p, orders).logs);
    TrueTradesAreOpposed(Play(info, FillsOf(Run(p, orders).logs), accounts, events).orders, orders, Run(p, orders).logs);
    TradesConserve(info, Run(p, orders).logs, accounts, events, c);
  }

  /** A fill carries the side opposite to its order's. */
  lemma {:induction false} FillSidesAreSwapped(rows: map<nat, OrderRow>, orders: seq<Order>, logs: seq<Log>, i: nat)
    requires TrueTrades(orders, logs) && Agreed(rows, orders) && i < |FillsOf(logs)|
    requires var f := FillsOf(logs)[i]; !f.done && f.orderId in rows
    ensures var f := FillsOf(logs)[i]; f.side == Some(rows[f.orderId].side.Opposite())
    decreases |logs|
  {
    hide Agreed, BroughtOn;
    var n := |logs| - 1;
    var before := FillsOf(logs[..n]);
    if i < |before| {
      FillSidesAreSwapped(rows, orders, logs[..n], i);
    } else {
      assert TrueTrade(orders, logs[n]);
      var id := FillsOf(logs)[i].orderId;
      SideIsKnown(rows, orders, id, if i == |before| then logs[n].side.Opposite() else logs[n].side);
    }
  }

  /** Which settlement never looks at. */
  lemma SideIsNotRead(pair: Pair, row: OrderRow, fill: Fill, side: Option<Side>)
    ensures SettleFill(pair, row, fill.(side := side)) == SettleFill(pair, row, fill)
  {
  }
}
