/** Whole runs of the engine: what the book and the log look like after any list of orders. */
module Runs {
  import opened Exchange
  import opened Depths
  import opened Matcher
  import opened Invariants

  ghost predicate AllWellFormed(orders: seq<Order>) {
    forall i :: 0 <= i < |orders| ==> WellFormed(orders[i])
  }

  /** The book and the whole log after feeding `orders` to a book. */
  ghost function RunFrom(p: Product, b: Book, orders: seq<Order>): (r: Outcome)
    requires Invariant(b) && AllWellFormed(orders)
    ensures Invariant(r.book)
    decreases |orders|
  {
    if orders == [] then Outcome(b, [])
    else
      var before := RunFrom(p, b, orders[..|orders| - 1]);
      InvariantIsSound(before.book);
      StepKeepsInvariant(p, before.book, orders[|orders| - 1]);
      var step := Step(p, before.book, orders[|orders| - 1]);
      Outcome(step.book, before.logs + step.logs)
  }

  lemma EmptyBookInvariant()
    ensures Invariant(EmptyBook)
  {
  }

  ghost function Run(p: Product, orders: seq<Order>): (r: Outcome)
    requires AllWellFormed(orders)
    ensures Invariant(r.book)
  {
    EmptyBookInvariant();
    RunFrom(p, EmptyBook, orders)
  }

  /** After any orders in any time-in-force mode, every bid is priced below every ask, every
      resting order has a size and a price, and every resting id is one its window refuses from
      now on. */
  lemma {:induction false} NeverCrossed(p: Product, orders: seq<Order>)
    requires AllWellFormed(orders)
    ensures var b := Run(p, orders).book;
            && (forall i, j :: 0 <= i < |b.bids| && 0 <= j < |b.asks| ==> b.bids[i].price < b.asks[j].price)
            && Settled(b.bids, b.accepted) && Settled(b.asks, b.accepted)
  {
    RestingIsSettled(Run(p, orders).book);
  }

  ghost predicate Settled(s: seq<BookOrder>, accepted: set<nat>) {
    forall i :: 0 <= i < |s| ==> s[i].size > 0 && s[i].price > 0 && !Admissible(accepted, s[i].orderId)
  }

  lemma RestingIsSettled(b: Book)
    requires Invariant(b)
    ensures Uncrossed(b) && Settled(b.bids, b.accepted) && Settled(b.asks, b.accepted)
  {
  }

  /** Orders may be fed in pieces. */
  lemma {:induction false} RunSplits(p: Product, b: Book, first: seq<Order>, second: seq<Order>)
    requires Invariant(b) && AllWellFormed(first) && AllWellFormed(second)
    ensures AllWellFormed(first + second)
    ensures var r := RunFrom(p, b, first);
            RunFrom(p, b, first + second)
            == Outcome(RunFrom(p, r.book, second).book, r.logs + RunFrom(p, r.book, second).logs)
    decreases |second|
  {
    hide Step, Invariant;
    var r := RunFrom(p, b, first);
    if second == [] {
      assert first + second == first;
      assert r.logs + [] == r.logs;
    } else {
      var n := |second| - 1;
      RunSplits(p, b, first, second[..n]);
      assert (first + second)[..|first| + n] == first + second[..n];
      var mid := RunFrom(p, r.book, second[..n]);
      InvariantIsSound(mid.book);
      var step := Step(p, mid.book, second[n]);
      assert (r.logs + mid.logs) + step.logs == r.logs + (mid.logs + step.logs);
    }
  }

  // ---- sequence numbers ----

  ghost predicate Numbered(logs: seq<Log>, after: nat) {
    forall i :: 0 <= i < |logs| ==> logs[i].sequence == after + i + 1
  }

  function TradeCount(logs: seq<Log>): nat {
    if logs == [] then 0 else (if logs[0].MatchLog? then 1 else 0) + TradeCount(logs[1..])
  }

  ghost predicate TradesNumbered(logs: seq<Log>, after: nat) {
    logs != [] ==>
      if logs[0].MatchLog? then logs[0].tradeSeq == after + 1 && TradesNumbered(logs[1..], after + 1)
      else TradesNumbered(logs[1..], after)
  }

  /** Log and trade sequences run on without a gap from the book before to the book after. */
  ghost predicate GapFree(b: Book, r: Outcome) {
    && Numbered(r.logs, b.logSeq) && r.book.logSeq == b.logSeq + |r.logs|
    && TradesNumbered(r.logs, b.tradeSeq) && r.book.tradeSeq == b.tradeSeq + TradeCount(r.logs)
  }

  lemma TradesAppend(a: seq<Log>, c: seq<Log>, after: nat)
    requires TradesNumbered(a, after) && TradesNumbered(c, after + TradeCount(a))
    ensures TradesNumbered(a + c, after) && TradeCount(a + c) == TradeCount(a) + TradeCount(c)
  {
    if a == [] {
      assert a + c == c;
    } else {
      assert (a + c)[1..] == a[1..] + c;
      TradesAppend(a[1..], c, if a[0].MatchLog? then after + 1 else after);
    }
  }

  lemma GapFreeAppend(b0: Book, first: Outcome, second: Outcome)
    requires GapFree(b0, first) && GapFree(first.book, second)
    ensures GapFree(b0, Outcome(second.book, first.logs + second.logs))
  {
    TradesAppend(first.logs, second.logs, b0.tradeSeq);
  }

  ghost predicate GapFreeMatch(m: Matched, logSeq: nat, tradeSeq: nat) {
    && Numbered(m.logs, logSeq) && m.logSeq == logSeq + |m.logs|
    && TradesNumbered(m.logs, tradeSeq) && m.tradeSeq == tradeSeq + TradeCount(m.logs)
  }

  lemma {:induction false} MatchIsGapFree(p: Product, taker: BookOrder, makers: seq<BookOrder>, logSeq: nat, tradeSeq: nat)
    requires Priced(makers)
    ensures GapFreeMatch(Match(p, taker, makers, logSeq, tradeSeq), logSeq, tradeSeq)
    decreases |makers|
  {
    if TradesFirst(p, taker, makers) {
      MatchUnfolds(p, taker, makers, logSeq, tradeSeq);
      var size := TradeSize(p, taker, makers[0]);
      var taker' := Spend(taker, size, makers[0].price);
      var logs := TradeLogs(logSeq, tradeSeq, taker', makers[0], size);
      var rest := MatchRest(p, taker, makers, logSeq, tradeSeq);
      if !Exhausted(taker') {
        MatchIsGapFree(p, taker', makers[1..], logSeq + |logs|, tradeSeq + 1);
      }
      TradeLogsNumbered(logSeq, tradeSeq, taker', makers[0], size);
      TradesAppend(logs, rest.logs, tradeSeq);
    }
  }

  lemma TradeLogsNumbered(logSeq: nat, tradeSeq: nat, taker: BookOrder, maker: BookOrder, size: int)
    ensures Numbered(TradeLogs(logSeq, tradeSeq, taker, maker, size), logSeq)
    ensures TradesNumbered(TradeLogs(logSeq, tradeSeq, taker, maker, size), tradeSeq)
    ensures TradeCount(TradeLogs(logSeq, tradeSeq, taker, maker, size)) == 1
  {
    var logs := TradeLogs(logSeq, tradeSeq, taker, maker, size);
    var end := [NewDoneLog(logSeq + 2, maker, 0, Filled)];
    assert end[1..] == [];
    assert TradeCount(end) == 0 && TradesNumbered(end, tradeSeq + 1);
    assert maker.size == size ==> logs[1..] == end;
    assert maker.size != size ==> logs[1..] == [];
  }

  lemma OneLogIsGapFree(b: Book, b': Book, log: Log)
    requires log.sequence == b.logSeq + 1 && !log.MatchLog?
    requires b'.logSeq == b.logSeq + 1 && b'.tradeSeq == b.tradeSeq
    ensures GapFree(b, Outcome(b', [log]))
  {
    assert [log][1..] == [];
  }

  lemma {:induction false} ApplyIsGapFree(p: Product, b: Book, o: Order)
    requires Sound(b)
    ensures GapFree(b, ApplyOrder(p, b, o))
  {
    if Admissible(b.accepted, o.id) {
      var m := MatchOrder(p, b, o);
      MatchIsGapFree(p, PrepareTaker(p, NewBookOrder(o)), b.Resting(o.side.Opposite()), b.logSeq, b.tradeSeq);
      var b' := AfterTrades(b.(accepted := b.accepted + {o.id}), o.side, m);
      var settled := Settle(b', m.taker);
      OneLogIsGapFree(b', settled.book, settled.logs[0]);
      GapFreeAppend(b, Outcome(b', m.logs), settled);
    }
  }

  lemma CancelIsGapFree(b: Book, o: Order)
    ensures GapFree(b, CancelOrder(b, o))
  {
    var r := CancelOrder(b, o);
    if r.logs != [] {
      OneLogIsGapFree(b, r.book, r.logs[0]);
    }
  }

  lemma {:induction false} StepIsGapFree(p: Product, b: Book, o: Order)
    requires Invariant(b) && WellFormed(o)
    ensures Sound(b) && GapFree(b, Step(p, b, o))
  {
    hide Invariant, ApplyOrder, CancelOrder, WillFullMatch, GapFree;
    InvariantIsSound(b);
    ApplyIsGapFree(p, b, o);
    CancelIsGapFree(b, o);
    CancelIsGapFree(ApplyOrder(p, b, o).book, o);
    GapFreeAppend(b, ApplyOrder(p, b, o), CancelOrder(ApplyOrder(p, b, o).book, o));
    NullifyIsGapFree(b, o);
  }

  lemma NullifyIsGapFree(b: Book, o: Order)
    ensures GapFree(b, NullifyOrder(b, o)) && GapFree(b, Outcome(b, []))
  {
    OneLogIsGapFree(b, NullifyOrder(b, o).book, NullifyOrder(b, o).logs[0]);
  }

  /** The whole log of any run is numbered 1, 2, 3, ... and so are its trades; a snapshot's
      counters are the lengths of the log and of the tape at its instant. */
  lemma {:induction false} RunIsGapFree(p: Product, b: Book, orders: seq<Order>)
    requires Invariant(b) && AllWellFormed(orders)
    ensures GapFree(b, RunFrom(p, b, orders))
    decreases |orders|
  {
    if orders == [] {
      NullifyIsGapFree(b, Order(0, 0, Buy, Limit, GTC, 1, 1, 1, false));
    } else {
      var n := |orders| - 1;
      RunIsGapFree(p, b, orders[..n]);
      var before := RunFrom(p, b, orders[..n]);
      StepIsGapFree(p, before.book, orders[n]);
      GapFreeAppend(b, before, Step(p, before.book, orders[n]));
    }
  }
}
