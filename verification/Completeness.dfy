/** A finished order has settled everything it traded: its row is the engine's own account of it
    (service/order_service.go, `ExecuteFill`; worker/fill_maker.go). */
module Completeness {
  import opened Exchange
  import opened Matcher
  import opened Runs
  import opened Lifecycle
  import opened Trades
  import opened Fills
  import opened Sums
  import opened Tables
  import opened Ledgers
  import opened Placement
  import opened LedgerRuns
  import opened Holds
  import opened LogTruth
  import opened Batches

  // ---- nothing of an order follows its end in the feed ----

  ghost predicate HasEnd(feed: seq<Fill>, id: nat) {
    exists d :: 0 <= d < |feed| && feed[d].orderId == id && feed[d].done
  }

  /** No fill of the order comes after its end. */
  ghost predicate EndsLast(feed: seq<Fill>, id: nat) {
    forall d, j {:trigger feed[d].done, feed[j].orderId} :: 0 <= d < j < |feed| && feed[d].done && feed[d].orderId == id ==>
      feed[j].orderId != id
  }

  lemma {:induction false} ClosedByEnd(logs: seq<Log>, id: nat)
    requires LifeOf(Unborn, logs, id).stage != Broken
    ensures HasEnd(FillsOf(logs), id) <==> LifeOf(Unborn, logs, id).stage == Closed
    ensures EndsLast(FillsOf(logs), id)
    decreases |logs|
  {
    if logs != [] {
      var n := |logs| - 1;
      assert logs == logs[..n] + [logs[n]];
      LifeAppend(Unborn, logs[..n], [logs[n]], id);
      var l := LifeOf(Unborn, logs[..n], id);
      LifeOne(l, logs[n], id);
      AdvanceTotals(l, logs[n], id);
      ClosedByEnd(logs[..n], id);
      OneMoreLog(FillsOf(logs[..n]), l, logs[n], id);
    }
  }

  lemma OneMoreLog(before: seq<Fill>, l: Life, log: Log, id: nat)
    requires EndsLast(before, id) && (HasEnd(before, id) <==> l.stage == Closed) && Advance(l, log, id).stage != Broken
    ensures EndsLast(before + FillsOfLog(log), id)
    ensures HasEnd(before + FillsOfLog(log), id) <==> Advance(l, log, id).stage == Closed
  {
    var more := FillsOfLog(log);
    var feed := before + more;
    assert l.stage == Closed ==> forall j :: 0 <= j < |more| ==> more[j].orderId != id;
    forall d, j | 0 <= d < j < |feed| && feed[d].done && feed[d].orderId == id
      ensures feed[j].orderId != id
    {
      if j >= |before| && d < |before| {
        assert before[d].done && HasEnd(before, id);
        assert more[j - |before|] == feed[j];
      }
    }
    if HasEnd(before, id) {
      var d :| 0 <= d < |before| && before[d].orderId == id && before[d].done;
      assert feed[d] == before[d];
    } else if log.DoneLog? && log.orderId == id {
      assert feed[|before|].done && feed[|before|].orderId == id;
    }
  }

  // ---- an order's fills are settled in order, its end last ----

  /** Whatever of an order is settled, everything of it before is settled too. */
  ghost predicate InTurn(fills: seq<Fill>, id: nat) {
    forall i, j {:trigger fills[i].orderId, fills[j].settled} ::
      0 <= i < j < |fills| && fills[i].orderId == id == fills[j].orderId && fills[j].settled ==> fills[i].settled
  }

  /** The status that ends an order: filled if its end says so, else cancelled if it traded nothing and
      partial if it traded something. */
  predicate EndsAs(row: OrderRow, reason: DoneReason) {
    && (row.status == IsFilled <==> reason == Filled)
    && (row.status == IsCancelled <==> reason == Cancelled && row.filledSize == 0)
    && (row.status == IsPartial <==> reason == Cancelled && row.filledSize != 0)
  }

  ghost predicate EndTold(fills: seq<Fill>, row: OrderRow, id: nat) {
    exists d :: 0 <= d < |fills| && fills[d].orderId == id && fills[d].done && fills[d].settled
                && EndsAs(row, fills[d].doneReason)
  }

  ghost predicate Orderly(l: Ledger, id: nat) {
    InTurn(l.fills, id) && (id in l.orders && l.orders[id].Finished() ==> EndTold(l.fills, l.orders[id], id))
  }

  /** The order is finished by its end and by nothing else. */
  lemma {:induction false} FinishedByEnd(pair: Pair, row: OrderRow, fills: seq<Fill>)
    requires !row.Finished() && SettleFills(pair, row, fills).Some?
    ensures var s := SettleFills(pair, row, fills).value;
            s.row.Finished() ==>
              0 < s.count <= |fills| && fills[s.count - 1].done && EndsAs(s.row, fills[s.count - 1].doneReason)
    decreases |fills|
  {
    if fills != [] && !fills[0].done {
      FinishedByEnd(pair, SettleFill(pair, row, fills[0]).row, fills[1..]);
    }
  }

  lemma MarkedInTurn(fills: seq<Fill>, of: nat, count: nat, id: nat)
    requires InTurn(fills, id)
    requires count <= |Rows(fills, PendingFill(of), BATCH)|
    ensures InTurn(Mark(fills, Rows(fills, PendingFill(of), BATCH)[..count], MarkSettled()), id)
  {
    hide Rows, Mark;
    var rows := Rows(fills, PendingFill(of), BATCH);
    var marked := Mark(fills, rows[..count], MarkSettled());
    forall i, j | 0 <= i < j < |fills| && marked[i].orderId == id == marked[j].orderId && marked[j].settled
      ensures marked[i].settled
    {
      assert fills[i].orderId == id == fills[j].orderId;
      if !fills[i].settled {
        var k :| 0 <= k < count && rows[k] == j;
        assert PendingFill(of)(fills[rows[k]]) && PendingFill(of)(fills[i]);
        assert i in rows;
        var k' :| 0 <= k' < |rows| && rows[k'] == i;
        assert k' < k;
        assert rows[..count][k'] == i;
      }
    }
  }

  lemma {:induction false} ExecuteFillKeepsOrder(l: Ledger, pair: Pair, of: nat, id: nat)
    requires Orderly(l, id) && ExecuteFill(l, pair, of).Ok?
    ensures Orderly(ExecuteFill(l, pair, of).value, id)
  {
    hide SettleFills, Rows, Mark, InTurn;
    var rows := Rows(l.fills, PendingFill(of), BATCH);
    var picked := Picked(l.fills, rows);
    if rows != [] {
      var s := SettleFills(pair, l.orders[of], picked).value;
      var l' := ExecuteFill(l, pair, of).value;
      MarkedInTurn(l.fills, of, s.count, id);
      FinishedByEnd(pair, l.orders[of], picked);
      if id != of {
        if id in l.orders && EndTold(l.fills, l.orders[id], id) {
          var d :| 0 <= d < |l.fills| && l.fills[d].orderId == id && l.fills[d].done && l.fills[d].settled
                   && EndsAs(l.orders[id], l.fills[d].doneReason);
          assert l'.fills[d] == l.fills[d];
        }
      } else if s.row.Finished() {
        var d := rows[s.count - 1];
        assert rows[..s.count][s.count - 1] == d;
        assert picked[s.count - 1] == l.fills[d] && PendingFill(of)(l.fills[d]);
        assert l'.fills[d] == l.fills[d].(settled := true);
      }
    }
  }

  lemma FlushKeepsOrder(l: Ledger, feed: seq<Fill>, n: nat, id: nat)
    requires Orderly(l, id) && Fed(l, feed) && FairFeed(feed)
    ensures Orderly(Flushed(l, feed, n), id)
  {
    var l' := Flushed(l, feed, n);
    if |l.fills| + n <= |feed| {
      FlushKeepsFed(l, feed, n);
      var k := |l.fills|;
      assert forall j :: k <= j < |l'.fills| ==> l'.fills[j] == feed[k..k + n][j - k] && !l'.fills[j].settled;
      forall i, j | 0 <= i < j < |l'.fills| && l'.fills[i].orderId == id == l'.fills[j].orderId && l'.fills[j].settled
        ensures l'.fills[i].settled
      {
        assert j < k;
        assert l.fills[i] == l'.fills[i] && l.fills[j] == l'.fills[j];
      }
      if id in l.orders && EndTold(l.fills, l.orders[id], id) {
        var d :| 0 <= d < |l.fills| && l.fills[d].orderId == id && l.fills[d].done && l.fills[d].settled
                 && EndsAs(l.orders[id], l.fills[d].doneReason);
        assert l'.fills[d] == l.fills[d];
      }
    }
  }

  lemma {:induction false} NextKeepsOrder(info: ProductInfo, feed: seq<Fill>, l: Ledger, event: Event, id: nat)
    requires Fair(l, feed) && FairFeed(feed) && Orderly(l, id)
    ensures Orderly(Next(info, feed, l, event), id)
  {
    hide PlaceOrder, ExecuteFill, FairRows, FairBills, Solvent, FairFeed, InTurn, EndTold, Rows, Mark;
    match event
    case Place(r) =>
      if PlaceOrder(l, info, r).Ok? {
        var row := PlacedShape(l, info, r);
      }
    case Flush(n) => FlushKeepsOrder(l, feed, n, id);
    case Opened(of) =>
    case SettleOrder(of) =>
      if ExecuteFill(l, info.pair, of).Ok? {
        ExecuteFillKeepsOrder(l, info.pair, of, id);
      }
    case SettleAccount(u, c) =>
  }

  lemma {:induction false} SettlementIsOrderly(info: ProductInfo, feed: seq<Fill>, accounts: map<Key, Account>,
                                               events: seq<Event>, id: nat)
    requires FairFeed(feed) && Solvent(accounts)
    ensures Orderly(Play(info, feed, accounts, events), id)
    decreases |events|
  {
    hide Next, Fair, FairFeed, InBooks;
    if events != [] {
      var n := |events| - 1;
      PlayKeeps(info, feed, accounts, events[..n], 0, 0);
      SettlementIsOrderly(info, feed, accounts, events[..n], id);
      NextKeepsOrder(info, feed, Play(info, feed, accounts, events[..n]), events[n], id);
    }
  }

  // ---- and its end finishes it ----

  ghost predicate EndSettled(fills: seq<Fill>, id: nat) {
    exists d :: 0 <= d < |fills| && fills[d].orderId == id && fills[d].done && fills[d].settled
  }

  ghost predicate EndCounts(l: Ledger, id: nat) {
    id in l.orders && EndSettled(l.fills, id) ==> l.orders[id].Finished()
  }

  lemma {:induction false} ExecuteFillKeepsEnds(l: Ledger, feed: seq<Fill>, pair: Pair, of: nat, id: nat)
    requires Fair(l, feed) && FairFeed(feed) && EndCounts(l, id) && ExecuteFill(l, pair, of).Ok?
    ensures EndCounts(ExecuteFill(l, pair, of).value, id)
  {
    hide ExecuteFill, Fair, FairFeed, Reached;
    var l' := ExecuteFill(l, pair, of).value;
    OnlyUnfinished(l, pair, of);
    FillsGoOn(l, feed, pair, of);
    if id in l'.orders && EndSettled(l'.fills, id) {
      var d :| 0 <= d < |l'.fills| && l'.fills[d].orderId == id && l'.fills[d].done && l'.fills[d].settled;
      if l.fills[d].settled {
        assert EndSettled(l.fills, id);
        RowsOfOthers(l.orders, l'.orders, of, id);
      } else {
        ReachedIsOwn(l.fills, of, d);
      }
    }
  }

  lemma OnlyUnfinished(l: Ledger, pair: Pair, id: nat)
    requires ExecuteFill(l, pair, id).Ok?
    ensures id in l.orders && !l.orders[id].Finished()
  {
  }

  lemma RowsOfOthers(rows: map<nat, OrderRow>, rows': map<nat, OrderRow>, of: nat, id: nat)
    requires rows' - {of} == rows - {of} && id in rows' && id != of
    ensures id in rows && rows[id] == rows'[id]
  {
    assert id in rows' - {of} && (rows' - {of})[id] == rows'[id];
    assert id in rows - {of} && (rows - {of})[id] == rows[id];
  }

  lemma ReachedIsOwn(fills: seq<Fill>, id: nat, i: nat)
    requires i < |fills| && Reached(fills, id, i)
    ensures fills[i].orderId == id
  {
  }

  lemma {:induction false} NextKeepsEnds(info: ProductInfo, feed: seq<Fill>, l: Ledger, event: Event, id: nat)
    requires Fair(l, feed) && FairFeed(feed) && EndCounts(l, id)
    ensures EndCounts(Next(info, feed, l, event), id)
  {
    hide PlaceOrder, ExecuteFill, FairRows, FairBills, Solvent, FairFeed, Rows, Mark, Copies;
    match event
    case Place(r) =>
      if PlaceOrder(l, info, r).Ok? {
        var row := PlacedShape(l, info, r);
      }
    case Flush(n) => FlushEndsNothing(l, feed, n, id);
    case Opened(of) =>
    case SettleOrder(of) =>
      if ExecuteFill(l, info.pair, of).Ok? {
        ExecuteFillKeepsEnds(l, feed, info.pair, of, id);
      }
    case SettleAccount(u, c) =>
  }

  lemma {:induction false} FlushEndsNothing(l: Ledger, feed: seq<Fill>, n: nat, id: nat)
    requires Fed(l, feed) && FairFeed(feed) && EndCounts(l, id)
    ensures EndCounts(Flushed(l, feed, n), id)
  {
    hide Fed, FairFeed;
    var k := |l.fills|;
    var l' := Flushed(l, feed, n);
    if k + n <= |feed| && EndSettled(l'.fills, id) {
      FlushKeepsFed(l, feed, n);
      var d :| 0 <= d < |l'.fills| && l'.fills[d].orderId == id && l'.fills[d].done && l'.fills[d].settled;
      assert d < k;
      assert l.fills[d] == l'.fills[d];
    }
  }

  lemma {:induction false} EndsCount(info: ProductInfo, feed: seq<Fill>, accounts: map<Key, Account>,
                                     events: seq<Event>, id: nat)
    requires FairFeed(feed) && Solvent(accounts)
    ensures EndCounts(Play(info, feed, accounts, events), id)
    decreases |events|
  {
    hide Next, Fair, FairFeed, InBooks, EndSettled;
    if events != [] {
      var n := |events| - 1;
      PlayKeeps(info, feed, accounts, events[..n], 0, 0);
      EndsCount(info, feed, accounts, events[..n], id);
      NextKeepsEnds(info, feed, Play(info, feed, accounts, events[..n]), events[n], id);
    }
  }

  // ---- finished means complete ----

  /** If the end of an order is settled, so is everything of it in the whole feed. */
  lemma EndSettlesAll(fills: seq<Fill>, feed: seq<Fill>, row: OrderRow, id: nat)
    requires Copies(fills, feed)
    requires EndsLast(feed, id) && InTurn(fills, id) && EndTold(fills, row, id)
    ensures forall j :: 0 <= j < |feed| && feed[j].orderId == id ==> j < |fills| && fills[j].settled
  {
    var d :| 0 <= d < |fills| && fills[d].orderId == id && fills[d].done && fills[d].settled;
    assert feed[d].done && feed[d].orderId == id;
  }

  lemma {:induction false} SumsOfAll(fills: seq<Fill>, feed: seq<Fill>, id: nat)
    requires Copies(fills, feed)
    requires forall j :: 0 <= j < |feed| && feed[j].orderId == id ==> j < |fills| && fills[j].settled
    ensures SumSeq(fills, SettledSize(id)) == SumSeq(feed, SizeOf(id))
    ensures SumSeq(fills, SettledValue(id)) == SumSeq(feed, ValueOf(id))
  {
    hide SumSeq;
    var k := |fills|;
    SumSame(fills, feed[..k], SettledSize(id), SizeOf(id));
    SumSame(fills, feed[..k], SettledValue(id), ValueOf(id));
    SumOfZeros(feed[k..], SizeOf(id));
    SumOfZeros(feed[k..], ValueOf(id));
    assert feed == feed[..k] + feed[k..];
    SumAppend(feed[..k], feed[k..], SizeOf(id));
    SumAppend(feed[..k], feed[k..], ValueOf(id));
  }

  /** Over any run and any interleaving of settlements: the row of a finished order shows exactly
      the size and the value the engine's log says it traded. */
  lemma {:induction false} FinishedIsComplete(p: Product, orders: seq<Order>, info: ProductInfo,
                                              accounts: map<Key, Account>, events: seq<Event>, id: nat)
    requires AllWellFormed(orders) && DistinctNew(orders) && SafeOrders(p, orders) && Solvent(accounts)
    requires var l := Play(info, FillsOf(Run(p, orders).logs), accounts, events); id in l.orders && l.orders[id].Finished()
    ensures var row := Play(info, FillsOf(Run(p, orders).logs), accounts, events).orders[id];
            var life := LifeOf(Unborn, Run(p, orders).logs, id);
            life.stage == Closed && row.filledSize == life.filled && row.executedValue == life.value
  {
    hide Play, Run, FillsOf, SumSeq, FairFeed, WellFormed, LifeOf, Find, EndsLast, InTurn;
    var logs := Run(p, orders).logs;
    var feed := FillsOf(logs);
    RunTradesAreTrue(p, orders);
    TrueTradesAreFair(orders, logs);
    var l := Play(info, feed, accounts, events);
    PlayKeeps(info, feed, accounts, events, 0, 0);
    RowsAddUp(info, feed, accounts, events, id);
    SettlementIsOrderly(info, feed, accounts, events, id);
    LogsAreInForm(p, orders, id);
    ClosedByEnd(logs, id);
    LifeTotals(logs, id);
    EndSettlesAll(l.fills, feed, l.orders[id], id);
    SumsOfAll(l.fills, feed, id);
    var d :| 0 <= d < |l.fills| && l.fills[d].orderId == id && l.fills[d].done && l.fills[d].settled;
    assert feed[d].done && feed[d].orderId == id;
  }

  ghost predicate AllSettled(fills: seq<Fill>, feed: seq<Fill>, id: nat) {
    forall j :: 0 <= j < |feed| && feed[j].orderId == id ==> j < |fills| && fills[j].settled
  }

  lemma SettledEnd(fills: seq<Fill>, feed: seq<Fill>, id: nat)
    requires Copies(fills, feed) && HasEnd(feed, id) && AllSettled(fills, feed, id)
    ensures EndSettled(fills, id)
  {
    var d :| 0 <= d < |feed| && feed[d].orderId == id && feed[d].done;
    assert fills[d] == feed[d].(settled := true);
  }

  /** A row is finished exactly when the engine is done with its order and all of it is settled. */
  lemma {:induction false} FinishedIff(p: Product, orders: seq<Order>, info: ProductInfo,
                                       accounts: map<Key, Account>, events: seq<Event>, id: nat)
    requires AllWellFormed(orders) && DistinctNew(orders) && SafeOrders(p, orders) && Solvent(accounts)
    requires id in Play(info, FillsOf(Run(p, orders).logs), accounts, events).orders
    ensures var logs := Run(p, orders).logs;
            var l := Play(info, FillsOf(logs), accounts, events);
            l.orders[id].Finished() <==> LifeOf(Unborn, logs, id).stage == Closed && AllSettled(l.fills, FillsOf(logs), id)
  {
    hide Play, Run, FillsOf, FairFeed, FitTerms, LifeOf, Find, SafeOrders, InTurn, EndsLast, DistinctNew, AllWellFormed;
    var logs := Run(p, orders).logs;
    var feed := FillsOf(logs);
    RunTradesAreTrue(p, orders);
    TrueTradesAreFair(orders, logs);
    var l := Play(info, feed, accounts, events);
    PlayKeeps(info, feed, accounts, events, 0, 0);
    SettlementIsOrderly(info, feed, accounts, events, id);
    EndsCount(info, feed, accounts, events, id);
    LogsAreInForm(p, orders, id);
    ClosedByEnd(logs, id);
    if l.orders[id].Finished() {
      EndSettlesAll(l.fills, feed, l.orders[id], id);
      FinishedIsComplete(p, orders, info, accounts, events, id);
    }
    if HasEnd(feed, id) && AllSettled(l.fills, feed, id) {
      SettledEnd(l.fills, feed, id);
    }
  }

  /** An end in the feed is a done log, and a done log is an end. */
  lemma {:induction false} EndsAreLogged(logs: seq<Log>, id: nat)
    ensures forall d :: 0 <= d < |FillsOf(logs)| && FillsOf(logs)[d].done && FillsOf(logs)[d].orderId == id ==>
              exists k :: 0 <= k < |logs| && DoneOf(logs[k], id) && logs[k].reason == FillsOf(logs)[d].doneReason
    decreases |logs|
  {
    if logs != [] {
      var n := |logs| - 1;
      var before, feed := FillsOf(logs[..n]), FillsOf(logs);
      EndsAreLogged(logs[..n], id);
      forall d | 0 <= d < |feed| && feed[d].done && feed[d].orderId == id
        ensures exists k :: 0 <= k < |logs| && DoneOf(logs[k], id) && logs[k].reason == feed[d].doneReason
      {
        if d < |before| {
          assert before[d] == feed[d];
          var k :| 0 <= k < n && DoneOf(logs[..n][k], id) && logs[..n][k].reason == before[d].doneReason;
          assert logs[..n][k] == logs[k];
        } else {
          assert FillsOfLog(logs[n])[d - |before|] == feed[d];
          assert DoneOf(logs[n], id);
        }
      }
    }
  }

  /** The order traded all of its size or, a market buy, spent its funds. */
  predicate RowTradedAll(row: OrderRow) {
    if row.otype == Market && row.side == Buy then row.executedValue >= row.funds else row.filledSize == row.size
  }

  /** The status of a finished row is that of the done log of its order. */
  lemma {:induction false} StatusIsLogged(logs: seq<Log>, l: Ledger, id: nat) returns (k: nat)
    requires Copies(l.fills, FillsOf(logs)) && id in l.orders && EndTold(l.fills, l.orders[id], id)
    ensures k < |logs| && DoneOf(logs[k], id) && EndsAs(l.orders[id], logs[k].reason)
  {
    hide FillsOf, EndsAs;
    var feed := FillsOf(logs);
    var d :| 0 <= d < |l.fills| && l.fills[d].orderId == id && l.fills[d].done && l.fills[d].settled
             && EndsAs(l.orders[id], l.fills[d].doneReason);
    assert feed[d].done && feed[d].orderId == id && feed[d].doneReason == l.fills[d].doneReason;
    EndsAreLogged(logs, id);
    k :| 0 <= k < |logs| && DoneOf(logs[k], id) && logs[k].reason == feed[d].doneReason;
  }

  /** A finished order's status tells what became of it: filled exactly if it traded all of its size
      or, a market buy, spent its funds; otherwise cancelled if it traded nothing and partial if it
      traded something. */
  lemma {:induction false} FinishedSaysHow(p: Product, orders: seq<Order>, info: ProductInfo,
                                           accounts: map<Key, Account>, events: seq<Event>, id: nat)
    requires AllWellFormed(orders) && DistinctNew(orders) && SafeOrders(p, orders) && Solvent(accounts)
    requires var l := Play(info, FillsOf(Run(p, orders).logs), accounts, events);
             id in l.orders && l.orders[id].Finished() && Agreed(l.orders, orders)
    ensures var row := Play(info, FillsOf(Run(p, orders).logs), accounts, events).orders[id];
            && (row.status == IsFilled <==> RowTradedAll(row))
            && (row.status == IsCancelled <==> !RowTradedAll(row) && row.filledSize == 0)
            && (row.status == IsPartial <==> !RowTradedAll(row) && row.filledSize != 0)
  {
    hide Play, Run, FillsOf, FairFeed, FitTerms, LifeOf, Find, SafeOrders, InTurn, EndTold, DistinctNew, AllWellFormed, Copies,
         FairRows, FairBills, Solvent;
    var logs := Run(p, orders).logs;
    var feed := FillsOf(logs);
    RunTradesAreTrue(p, orders);
    TrueTradesAreFair(orders, logs);
    var l := Play(info, feed, accounts, events);
    PlayKeeps(info, feed, accounts, events, 0, 0);
    SettlementIsOrderly(info, feed, accounts, events, id);
    FinishedIsComplete(p, orders, info, accounts, events, id);
    var k := StatusIsLogged(logs, l, id);
    EveryOrderLives(p, orders, id, None);
    var i :| 0 <= i < |orders| && Brings(orders[i], id);
    assert Sent(l.orders[id]) == orders[i] by {
      SentIs(l.orders, orders, i);
    }
    DoneSaysFilledIff(p, orders, i);
  }

  lemma SentIs(rows: map<nat, OrderRow>, orders: seq<Order>, i: nat)
    requires Agreed(rows, orders) && i < |orders| && !orders[i].cancelling && orders[i].id in rows
    ensures Sent(rows[orders[i].id]) == orders[i]
  {
  }

  /** An order of which the engine logs nothing is never finished, and nothing of its hold is ever
      released. */
  lemma {:induction false} SilentOrderKeepsItsHold(p: Product, orders: seq<Order>, info: ProductInfo,
                                                   accounts: map<Key, Account>, events: seq<Event>, id: nat)
    requires AllWellFormed(orders) && DistinctNew(orders) && SafeOrders(p, orders) && Solvent(accounts)
    requires LifeOf(Unborn, Run(p, orders).logs, id).stage == Unseen
    requires id in Play(info, FillsOf(Run(p, orders).logs), accounts, events).orders
    ensures var row := Play(info, FillsOf(Run(p, orders).logs), accounts, events).orders[id];
            !row.Finished() && Unreleased(row) == row.Held()
  {
    hide Play, Run, FillsOf, SumSeq, FairFeed, FitTerms, LifeOf, Find, SafeOrders, Copies;
    var logs := Run(p, orders).logs;
    var feed := FillsOf(logs);
    RunTradesAreTrue(p, orders);
    TrueTradesAreFair(orders, logs);
    var l := Play(info, feed, accounts, events);
    PlayKeeps(info, feed, accounts, events, 0, 0);
    RowsAddUp(info, feed, accounts, events, id);
    EveryOrderLives(p, orders, id, None);
    LifeTotals(logs, id);
    SettledIsPart(l.fills, feed, id);
    if l.orders[id].Finished() {
      FinishedIsComplete(p, orders, info, accounts, events, id);
    }
  }
}
