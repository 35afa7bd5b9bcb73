/** The machines together: engine, store and reader with a replica and its clients, or with the
    ledger, over any crashes that leave the stored log reaching the persisted snapshot. */
module EndToEnd {
  import opened Exchange
  import opened Runs
  import opened Lifecycle
  import opened Arrivals
  import opened Trades
  import opened LogReader
  import opened Replica
  import Sums
  import opened Agreement
  import opened Fills
  import Ledgers
  import Placement
  import LedgerRuns
  import Conservation
  import opened Holds
  import Completeness
  import TimeInForces
  import Overdrafts
  import Engines
  import Recoveries
  import ClientFeed

  /** A log in form is in form at every moment. */
  lemma {:induction false} FirstLogsInForm(p: Product, orders: seq<Order>, n: nat)
    requires AllWellFormed(orders) && Redelivered(orders) && n <= |Run(p, orders).logs|
    ensures InForm(Run(p, orders).logs[..n])
  {
    hide Run, LifeAgain;
    var logs := Run(p, orders).logs;
    RunIsInForm(p, orders);
    forall id
      ensures LifeAgain(Unborn, logs[..n], id).stage != Broken
    {
      assert logs == logs[..n] + logs[n..];
      AgainAppend(Unborn, logs[..n], logs[n..], id);
      if LifeAgain(Unborn, logs[..n], id).stage == Broken {
        BrokenStays(LifeAgain(Unborn, logs[..n], id), logs[n..], id);
      }
    }
  }

  /** Every view of a stream's history is the book after some of its logs. */
  lemma {:induction false} HistoryIsOfBooks(ds: seq<Delivery>, s: nat) returns (k: nat)
    requires InForm(LogsIn(ds)) && s < |HistoryOf(ds)|
    ensures k <= |ds| && HistoryOf(ds)[s] == ViewOf(Replay(NewL2Book, ds[..k]).book)
    decreases |ds|
  {
    hide ApplyLog, ViewOf, Replay;
    if ds == [] {
      k := 0;
      NothingReplayed();
      assert ds[..0] == [];
    } else {
      var n := |ds| - 1;
      PrefixOfReplay(ds);
      ReplayIsHistory(ds);
      if s < |HistoryOf(ds[..n])| {
        k := HistoryIsOfBooks(ds[..n], s);
        assert ds[..n][..k] == ds[..k];
      } else {
        k := |ds|;
        assert ds[..k] == ds;
      }
    }
  }

  lemma NothingReplayed()
    ensures Replay(NewL2Book, []).book == NewL2Book
  {
  }

  /** The messages a stream reads of what a reader of the engine's store is delivered. */
  ghost predicate ReadsTheStore(p: Product, orders: seq<Order>, events: seq<Engines.Event>, ds: seq<Delivery>) {
    LogsIn(ds) == ReadAll(0, Engines.Play(p, orders, events).stored).delivered
  }

  /** After any events and any redelivery of orders, the replica has not panicked, and it is the replica of a prefix of the
      crash-free log; once the engine has run dry it holds exactly the engine's resting orders. */
  lemma {:induction false} StoredReplicaAgrees(p: Product, orders: seq<Order>, events: seq<Engines.Event>, ds: seq<Delivery>)
    requires AllWellFormed(orders) && Redelivered(orders) && Engines.CrashesCovered(p, orders, events)
    requires ReadsTheStore(p, orders, events, ds)
    ensures LogsIn(ds) <= Run(p, orders).logs && InForm(LogsIn(ds))
    ensures var r := Replay(NewL2Book, ds);
            var e := Engines.Play(p, orders, events);
            && !r.panicked && Aggregated(r.book)
            && (e.Applied() == |orders| && e.logCh == [] && e.emitting == [] ==> SameOrders(r.book.orders, Run(p, orders).book))
  {
    hide Run, Replay, InForm, ReadAll, Engines.Play, AllWellFormed, Redelivered, Engines.CrashesCovered, Aggregated, SameOrders;
    Recoveries.RecoveryIsExact(p, orders, events);
    var e := Engines.Play(p, orders, events);
    FirstLogsInForm(p, orders, ReadAll(0, e.stored).lastSeq);
    ReplayMirrors(ds);
    if e.Applied() == |orders| && e.logCh == [] && e.emitting == [] {
      ReplicaAgrees(p, orders, ds);
    }
  }

  /** What a client of that replica shows, over any losses and reorderings of its changes and as
      long as it is sent no stale change that is neither made good nor true, is the level view of the
      replica at some position of that log. */
  lemma {:induction false} ClientsShowTheEnginesBook(p: Product, orders: seq<Order>, events: seq<Engines.Event>,
                                                     ds: seq<Delivery>, turns: seq<ClientFeed.Turn>) returns (k: nat)
    requires AllWellFormed(orders) && Redelivered(orders) && Engines.CrashesCovered(p, orders, events)
    requires ReadsTheStore(p, orders, events, ds)
    requires ClientFeed.AllGenuine(turns, HistoryOf(ds), Replay(NewL2Book, ds).changes)
    requires ClientFeed.AllClean(turns, HistoryOf(ds), Replay(NewL2Book, ds).changes)
    ensures k <= |ds| && LogsIn(ds[..k]) <= Run(p, orders).logs
    ensures var f := ClientFeed.AdvanceAll(ClientFeed.NewFeed, turns);
            f.shown.Some? ==> f.view == Some(ViewOf(Replay(NewL2Book, ds[..k]).book))
  {
    hide Run, Replay, InForm, ReadsTheStore, ClientFeed.AllGenuine, ClientFeed.AllClean, ClientFeed.AdvanceAll, AllWellFormed, Redelivered,
         Engines.CrashesCovered, IsHistory, ViewOf;
    StoredReplicaAgrees(p, orders, events, ds);
    ReplayIsHistory(ds);
    ClientFeed.ClientShowsTrueBooksIff(turns, HistoryOf(ds), Replay(NewL2Book, ds).changes);
    assert turns[..|turns|] == turns;
    var f := ClientFeed.AdvanceAll(ClientFeed.NewFeed, turns);
    k := 0;
    if f.shown.Some? {
      k := HistoryIsOfBooks(ds, f.shown.value);
    }
    assert LogsIn(ds[..k]) == LogsIn(ds)[..k];
  }

  // ---- the ledger ----

  /** The fills made of what a reader of the engine's store is delivered. */
  ghost function StoredFeed(p: Product, orders: seq<Order>, events: seq<Engines.Event>): seq<Fill> {
    FillsOf(ReadAll(0, Engines.Play(p, orders, events).stored).delivered)
  }

  lemma {:induction false} FillsOfPrefix(logs: seq<Log>, n: nat)
    requires n <= |logs|
    ensures FillsOf(logs[..n]) <= FillsOf(logs)
    decreases |logs|
  {
    if n == |logs| {
      assert logs[..n] == logs;
    } else {
      FillsOfPrefix(logs[..|logs| - 1], n);
      assert logs[..|logs| - 1][..n] == logs[..n];
    }
  }

  /** A ledger fed only the first fills of a feed does nothing a ledger fed all of it could not do. */
  lemma {:induction false} PartPlays(info: Placement.ProductInfo, part: seq<Fill>, feed: seq<Fill>,
                                     accounts: map<Ledgers.Key, Ledgers.Account>, events: seq<LedgerRuns.Event>)
    returns (events': seq<LedgerRuns.Event>)
    requires part <= feed
    ensures LedgerRuns.Play(info, feed, accounts, events') == LedgerRuns.Play(info, part, accounts, events)
    ensures |LedgerRuns.Play(info, part, accounts, events).fills| <= |part|
    decreases |events|
  {
    hide Placement.PlaceOrder, Ledgers.ExecuteFill, Ledgers.ExecuteBill;
    if events == [] {
      events' := [];
    } else {
      var n := |events| - 1;
      var before := PartPlays(info, part, feed, accounts, events[..n]);
      var l := LedgerRuns.Play(info, part, accounts, events[..n]);
      var event := if events[n].Flush? && |l.fills| + events[n].n > |part| then LedgerRuns.Flush(0) else events[n];
      events' := before + [event];
      assert events'[..|before|] == before;
      PartGoesOn(info, part, feed, l, events[n], event);
    }
  }

  lemma {:induction false} PartGoesOn(info: Placement.ProductInfo, part: seq<Fill>, feed: seq<Fill>, l: Ledgers.Ledger,
                                      event: LedgerRuns.Event, event': LedgerRuns.Event)
    requires part <= feed && |l.fills| <= |part|
    requires event' == if event.Flush? && |l.fills| + event.n > |part| then LedgerRuns.Flush(0) else event
    ensures LedgerRuns.Next(info, feed, l, event') == LedgerRuns.Next(info, part, l, event)
    ensures |LedgerRuns.Next(info, part, l, event).fills| <= |part|
  {
    var k := |l.fills|;
    if event.Flush? {
      if k + event.n > |part| {
        assert l.fills + feed[k..k + 0] == l.fills;
      } else {
        assert feed[k..k + event.n] == part[k..k + event.n];
      }
    } else {
      FillsStay(info, part, l, event);
    }
  }

  lemma FillsStay(info: Placement.ProductInfo, part: seq<Fill>, l: Ledgers.Ledger, event: LedgerRuns.Event)
    requires !event.Flush?
    ensures |LedgerRuns.Next(info, part, l, event).fills| == |l.fills|
  {
    hide Placement.TermsOf, Ledgers.SettleFills;
  }

  /** What is delivered of the store is a part of the engine's whole log, and its fills of its fills. */
  lemma {:induction false} StoredFeedIsPart(p: Product, orders: seq<Order>, events: seq<Engines.Event>) returns (n: nat)
    requires AllWellFormed(orders) && Engines.CrashesCovered(p, orders, events)
    ensures n <= |Run(p, orders).logs| && StoredFeed(p, orders, events) == FillsOf(Run(p, orders).logs[..n])
    ensures StoredFeed(p, orders, events) <= FillsOf(Run(p, orders).logs)
  {
    hide Run, ReadAll, Engines.Play, Engines.CrashesCovered, FillsOf;
    Recoveries.RecoveryIsExact(p, orders, events);
    n := ReadAll(0, Engines.Play(p, orders, events).stored).lastSeq;
    FillsOfPrefix(Run(p, orders).logs, n);
  }

  /** Whatever the engine has gone through, a ledger settling what is read of its store, in any
      interleaving, charges no order more than its hold, rounding of market buys apart, and releases
      all of it at the end. */
  lemma {:induction false} StoredHoldsClose(p: Product, orders: seq<Order>, events: seq<Engines.Event>,
                                            info: Placement.ProductInfo, accounts: map<Ledgers.Key, Ledgers.Account>,
                                            transactions: seq<LedgerRuns.Event>, id: nat)
    requires AllWellFormed(orders) && DistinctNew(orders) && SafeOrders(p, orders) && LedgerRuns.Solvent(accounts)
    requires Engines.CrashesCovered(p, orders, events)
    requires var l := LedgerRuns.Play(info, StoredFeed(p, orders, events), accounts, transactions);
             id in l.orders && Agreed(l.orders, orders)
    ensures var row := LedgerRuns.Play(info, StoredFeed(p, orders, events), accounts, transactions).orders[id];
            && (TimeInForces.Sized(Placement.Sent(row)) || ExactOrders(p, orders) ==> Closes(row))
            && (!TimeInForces.Sized(Placement.Sent(row)) ==>
                  Overdrafts.OwesLittle(p, row.funds - row.executedValue, DearestPrice(orders)))
            && (row.Finished() ==>
                  var life := LifeOf(Unborn, Run(p, orders).logs, id);
                  life.stage == Closed && row.filledSize == life.filled && row.executedValue == life.value)
  {
    hide Run, LedgerRuns.Play, StoredFeed, Engines.CrashesCovered, Agreed, Closes, Overdrafts.OwesLittle, AllWellFormed, DistinctNew,
         SafeOrders, ExactOrders, LedgerRuns.Solvent, LifeOf, TimeInForces.Sized;
    var n := StoredFeedIsPart(p, orders, events);
    var all := PartPlays(info, StoredFeed(p, orders, events), FillsOf(Run(p, orders).logs), accounts, transactions);
    HoldsClose(p, orders, info, accounts, all, id);
    if LedgerRuns.Play(info, FillsOf(Run(p, orders).logs), accounts, all).orders[id].Finished() {
      Completeness.FinishedIsComplete(p, orders, info, accounts, all, id);
    }
  }

  /** And its bills sum to zero in every currency once every match it has read of is settled on both
      sides or on neither. */
  lemma {:induction false} StoredMoneyIsConserved(p: Product, orders: seq<Order>, events: seq<Engines.Event>,
                                                  info: Placement.ProductInfo, accounts: map<Ledgers.Key, Ledgers.Account>,
                                                  transactions: seq<LedgerRuns.Event>, c: nat)
    requires AllWellFormed(orders) && DistinctNew(orders) && SafeOrders(p, orders) && LedgerRuns.Solvent(accounts)
    requires Engines.CrashesCovered(p, orders, events)
    requires var l := LedgerRuns.Play(info, StoredFeed(p, orders, events), accounts, transactions);
             Agreed(l.orders, orders) && Conservation.EvenlySettled(l.fills, StoredFeed(p, orders, events))
    ensures var l := LedgerRuns.Play(info, StoredFeed(p, orders, events), accounts, transactions);
            Sums.SumSeq(l.bills, Ledgers.Worth(c)) == 0
  {
    hide Run, LedgerRuns.Play, StoredFeed, Engines.CrashesCovered, Agreed, AllWellFormed, DistinctNew, SafeOrders,
         LedgerRuns.Solvent, Conservation.EvenlySettled, FillsOf;
    var feed := FillsOf(Run(p, orders).logs);
    var n := StoredFeedIsPart(p, orders, events);
    var all := PartPlays(info, StoredFeed(p, orders, events), feed, accounts, transactions);
    var l := LedgerRuns.Play(info, StoredFeed(p, orders, events), accounts, transactions);
    EvenForAll(l.fills, Run(p, orders).logs, n);
    MoneyIsConserved(p, orders, info, accounts, all, c);
  }

  /** A match is read with both its fills or not at all. */
  lemma {:induction false} EvenForAll(fills: seq<Fill>, logs: seq<Log>, n: nat)
    requires n <= |logs| && |fills| <= |FillsOf(logs[..n])| && FillsOf(logs[..n]) <= FillsOf(logs)
    requires Conservation.EvenlySettled(fills, FillsOf(logs[..n]))
    ensures Conservation.EvenlySettled(fills, FillsOf(logs))
  {
    hide FillsOf;
    var part, feed := FillsOf(logs[..n]), FillsOf(logs);
    forall i | 0 <= i < |feed| && feed[i].liquidity == TakerLiquidity
      ensures Conservation.SettledAt(fills, i) <==> Conservation.SettledAt(fills, i + 1)
    {
      if i < |part| {
        assert part[i] == feed[i];
      }
    }
  }
}
