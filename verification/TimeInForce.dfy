/** What the four time-in-force modes promise of a fresh order, and where a probe of the book
    promises less (matching/engine.go, the applier; matching/order_book.go, the two probes). */
module TimeInForces {
  import opened Exchange
  import opened Depths
  import opened Matcher
  import opened Invariants
  import opened Priority

  /** The size an order's logs trade. */
  function TradedSize(logs: seq<Log>): int {
    if logs == [] then 0 else (if logs[0].MatchLog? then logs[0].size else 0) + TradedSize(logs[1..])
  }

  lemma TradedAppend(a: seq<Log>, c: seq<Log>)
    ensures TradedSize(a + c) == TradedSize(a) + TradedSize(c)
  {
    if a == [] {
      assert a + c == c;
    } else {
      assert (a + c)[1..] == a[1..] + c;
      TradedAppend(a[1..], c);
    }
  }

  function TotalSize(s: seq<BookOrder>): int {
    if s == [] then 0 else s[0].size + TotalSize(s[1..])
  }

  lemma TotalIsPositive(s: seq<BookOrder>)
    requires Alive(s)
    ensures TotalSize(s) >= |s|
  {
    if s != [] {
      TotalIsPositive(s[1..]);
    }
  }

  /** An order whose size, not its funds, bounds what it trades. */
  predicate Sized(o: Order) {
    o.otype == Limit || o.side != Buy
  }

  /** A sized taker trades exactly the size it loses. */
  lemma {:induction false} MatchTradesWhatItSpends(p: Product, taker: BookOrder, makers: seq<BookOrder>,
                                                   logSeq: nat, tradeSeq: nat)
    requires Priced(makers) && !SpendsFunds(taker)
    ensures TradedSize(Match(p, taker, makers, logSeq, tradeSeq).logs)
            == taker.size - Match(p, taker, makers, logSeq, tradeSeq).taker.size
    decreases |makers|
  {
    if TradesFirst(p, taker, makers) {
      MatchUnfolds(p, taker, makers, logSeq, tradeSeq);
      var size := TradeSize(p, taker, makers[0]);
      var taker' := Spend(taker, size, makers[0].price);
      var logs := TradeLogs(logSeq, tradeSeq, taker', makers[0], size);
      if !Exhausted(taker') {
        MatchTradesWhatItSpends(p, taker', makers[1..], logSeq + |logs|, tradeSeq + 1);
      }
      TradeLogsTrade(logSeq, tradeSeq, taker', makers[0], size);
      TradedAppend(logs, MatchRest(p, taker, makers, logSeq, tradeSeq).logs);
    }
  }

  lemma TradeLogsTrade(logSeq: nat, tradeSeq: nat, taker: BookOrder, maker: BookOrder, size: int)
    ensures TradedSize(TradeLogs(logSeq, tradeSeq, taker, maker, size)) == size
  {
    var logs := TradeLogs(logSeq, tradeSeq, taker, maker, size);
    var end := [NewDoneLog(logSeq + 2, maker, 0, Filled)];
    assert end[1..] == [] && TradedSize(end) == 0;
    assert maker.size == size ==> logs[1..] == end;
    assert maker.size != size ==> logs[1..] == [];
  }

  lemma SettleTradesNothing(b: Book, taker: BookOrder)
    ensures TradedSize(Settle(b, taker).logs) == 0
  {
    assert Settle(b, taker).logs[1..] == [];
  }

  /** What an applied sized order trades is its size less what the matching loop left of it. */
  lemma {:induction false} ApplyTrades(p: Product, b: Book, o: Order)
    requires Sound(b) && Sized(o) && Admissible(b.accepted, o.id)
    ensures TradedSize(ApplyOrder(p, b, o).logs) == o.size - MatchOrder(p, b, o).taker.size
  {
    var taker := PrepareTaker(p, NewBookOrder(o));
    var m := MatchOrder(p, b, o);
    MatchTradesWhatItSpends(p, taker, b.Resting(o.side.Opposite()), b.logSeq, b.tradeSeq);
    var b' := AfterTrades(b.(accepted := b.accepted + {o.id}), o.side, m);
    SettleTradesNothing(b', m.taker);
    TradedAppend(m.logs, Settle(b', m.taker).logs);
  }

  // ---- FOK ----

  /** The dry run shrinks no maker, and still ends with the taker the real run ends with. */
  lemma {:induction false} DryRunIsTheRealRun(p: Product, taker: BookOrder, makers: seq<BookOrder>, logSeq: nat,
                                              tradeSeq: nat)
    requires Priced(makers)
    ensures DryRun(p, taker, makers) == Match(p, taker, makers, logSeq, tradeSeq).taker
    decreases |makers|
  {
    if TradesFirst(p, taker, makers) {
      var size := TradeSize(p, taker, makers[0]);
      var taker' := Spend(taker, size, makers[0].price);
      var logs := TradeLogs(logSeq, tradeSeq, taker', makers[0], size);
      DryRunIsTheRealRun(p, taker', makers[1..], logSeq + |logs|, tradeSeq + 1);
    }
  }

  /** The FOK probe of a fresh limit order says yes if and only if applying the order trades its
      whole size, and then and only then nothing of it rests. */
  lemma {:induction false} FokProbeIsExact(p: Product, b: Book, o: Order)
    requires Invariant(b) && WellFormed(o) && o.otype == Limit && Admissible(b.accepted, o.id)
    ensures Sound(b)
    ensures WillFullMatch(p, b, o) <==> TradedSize(ApplyOrder(p, b, o).logs) == o.size
    ensures WillFullMatch(p, b, o) <==> !HasId(ApplyOrder(p, b, o).book.Resting(o.side), o.id)
  {
    hide DryRun, Match, TradedSize;
    InvariantIsSound(b);
    var taker := PrepareTaker(p, NewBookOrder(o));
    var makers := b.Resting(o.side.Opposite());
    var m := MatchOrder(p, b, o);
    DryRunIsTheRealRun(p, taker, makers, b.logSeq, b.tradeSeq);
    MatchUncrosses(p, taker, makers, b.logSeq, b.tradeSeq);
    MatchTakerFields(p, taker, makers, b.logSeq, b.tradeSeq);
    ApplyTrades(p, b, o);
    FreshAfterTrades(p, b, o);
    InsertMembers(o.side, b.Resting(o.side), m.taker);
  }

  /** A limit FOK order trades all of its size or none of it. */
  lemma {:induction false} FokIsAllOrNothing(p: Product, b: Book, o: Order)
    requires Invariant(b) && WellFormed(o) && o.otype == Limit && Admissible(b.accepted, o.id)
    requires o.tif == FOK && !o.cancelling
    ensures Sound(b)
    ensures TradedSize(Step(p, b, o).logs) == o.size || TradedSize(Step(p, b, o).logs) == 0
    ensures !HasId(Step(p, b, o).book.Resting(o.side), o.id)
  {
    FokProbeIsExact(p, b, o);
    FreshIds(b, o);
    assert NullifyOrder(b, o).logs[1..] == [];
  }

  lemma FreshIds(b: Book, o: Order)
    requires Invariant(b) && Admissible(b.accepted, o.id)
    ensures !HasId(b.bids, o.id) && !HasId(b.asks, o.id)
  {
  }

  lemma PaidBySize(taker: BookOrder, makers: seq<BookOrder>, fills: seq<int>)
    requires |fills| <= |makers| && !SpendsFunds(taker) && Alive(makers)
    requires forall i :: 0 <= i < |fills| ==> fills[i] <= makers[i].size
    ensures Paid(taker, makers, fills) <= TotalSize(makers)
    ensures |fills| == |makers| && (forall i :: 0 <= i < |fills| ==> fills[i] == makers[i].size)
            ==> Paid(taker, makers, fills) == TotalSize(makers)
  {
    if fills == [] {
      TotalIsPositive(makers);
    } else {
      PaidBySize(taker, makers[1..], fills[1..]);
    }
  }

  /** A market sell trades what it asks for or everything there is. */
  lemma {:induction false} MarketSellTakesWhatThereIs(p: Product, b: Book, o: Order)
    requires Invariant(b) && WellFormed(o) && o.otype == Market && o.side == Sell && Admissible(b.accepted, o.id)
    ensures Sound(b)
    ensures TradedSize(ApplyOrder(p, b, o).logs) == Min(o.size, TotalSize(b.bids))
  {
    hide ApplyOrder, Match, TradedSize, TotalSize, LogsOf, Remaining, MaxPrice;
    InvariantIsSound(b);
    var taker := PrepareTaker(p, NewBookOrder(o));
    ApplyTrades(p, b, o);
    var fills := MatchFollowsPriority(p, taker, b.bids, b.logSeq, b.tradeSeq);
    PaidBySize(taker, b.bids, fills);
    assert MatchOrder(p, b, o).taker.size == Left(taker, b.bids, fills);
  }

  /** The FOK probe lets every market order pass, so a market FOK sell is all-or-nothing exactly
      when the bids are empty or hold at least its size. */
  lemma {:induction false} MarketFokSellIff(p: Product, b: Book, o: Order)
    requires Invariant(b) && WellFormed(o) && o.otype == Market && o.side == Sell && Admissible(b.accepted, o.id)
    requires o.tif == FOK && !o.cancelling
    ensures Sound(b)
    ensures (TradedSize(Step(p, b, o).logs) == o.size || TradedSize(Step(p, b, o).logs) == 0)
            <==> b.bids == [] || TotalSize(b.bids) >= o.size
    ensures TradedSize(Step(p, b, o).logs) == Min(o.size, TotalSize(b.bids))
  {
    hide Match, ApplyOrder, Invariant;
    InvariantIsSound(b);
    var taker := PrepareTaker(p, NewBookOrder(o));
    DryRunIsTheRealRun(p, taker, b.bids, b.logSeq, b.tradeSeq);
    MatchTakerFields(p, taker, b.bids, b.logSeq, b.tradeSeq);
    MarketSellTakesWhatThereIs(p, b, o);
    BidsTotal(b);
  }

  lemma BidsTotal(b: Book)
    requires Invariant(b)
    ensures TotalSize(b.bids) >= 0 && (TotalSize(b.bids) == 0 <==> b.bids == [])
  {
    TotalIsPositive(b.bids);
  }

  /** One resting bid of 1 and a market FOK sell of 2: half of the order trades. */
  lemma {:induction false} MarketFokCanTradeInPart(p: Product)
    ensures var bid := BookOrder(1, 0, 1, 5, 5, Buy, Limit, GTC);
            var b := Book([bid], [], 0, 1, {1});
            var o := Order(2, 0, Sell, Market, FOK, 2, 0, 0, false);
            Invariant(b) && WellFormed(o) && Sound(b) && TradedSize(Step(p, b, o).logs) == 1
  {
    hide Step, TradedSize, TotalSize, Admissible;
    var bid := BookOrder(1, 0, 1, 5, 5, Buy, Limit, GTC);
    var b := Book([bid], [], 0, 1, {1});
    var o := Order(2, 0, Sell, Market, FOK, 2, 0, 0, false);
    OneFresh(1, 2);
    OneBid(bid);
    MarketFokSellIff(p, b, o);
  }

  lemma OneFresh(a: nat, id: nat)
    requires a < id
    ensures Admissible({a}, id)
  {
  }

  lemma OneBid(bid: BookOrder)
    ensures TotalSize([bid]) == bid.size
  {
    assert [bid][1..] == [];
  }

  // ---- GTX and IOC ----

  /** Whether a fresh limit order would trade is decided by the best opposite order. */
  lemma {:induction false} LimitTradesIffBestCrosses(p: Product, b: Book, o: Order)
    requires Invariant(b) && WellFormed(o) && o.otype == Limit && Admissible(b.accepted, o.id)
    ensures Sound(b)
    ensures var makers := b.Resting(o.side.Opposite());
            TradedSize(ApplyOrder(p, b, o).logs) > 0
            <==> makers != [] && PricesCross(o.side, o.price, makers[0].price)
  {
    hide TradedSize, AffordableSize;
    InvariantIsSound(b);
    var taker := PrepareTaker(p, NewBookOrder(o));
    var makers := b.Resting(o.side.Opposite());
    ApplyTrades(p, b, o);
    MatchNeverAdds(p, taker, makers, b.logSeq, b.tradeSeq);
  }

  lemma {:induction false} MatchNeverAdds(p: Product, taker: BookOrder, makers: seq<BookOrder>, logSeq: nat, tradeSeq: nat)
    requires GoodSide(makers, taker.side.Opposite()) && taker.otype == Limit && taker.size > 0
    ensures Match(p, taker, makers, logSeq, tradeSeq).taker.size <= taker.size
    ensures TradesFirst(p, taker, makers) ==> Match(p, taker, makers, logSeq, tradeSeq).taker.size < taker.size
    decreases |makers|
  {
    if TradesFirst(p, taker, makers) {
      MatchUnfolds(p, taker, makers, logSeq, tradeSeq);
      TailIsGood(makers, taker.side.Opposite());
      var size := TradeSize(p, taker, makers[0]);
      var taker' := Spend(taker, size, makers[0].price);
      var logs := TradeLogs(logSeq, tradeSeq, taker', makers[0], size);
      if !Exhausted(taker') {
        MatchNeverAdds(p, taker', makers[1..], logSeq + |logs|, tradeSeq + 1);
      }
    }
  }

  ghost predicate SameButTif(t: BookOrder, t': BookOrder) {
    t.(tif := GTC) == t'.(tif := GTC)
  }

  lemma TradeIgnoresTif(p: Product, t: BookOrder, t': BookOrder, maker: BookOrder)
    requires SameButTif(t, t') && maker.price > 0
    ensures TradeSize(p, t, maker) == TradeSize(p, t', maker)
    ensures SameButTif(Spend(t, TradeSize(p, t, maker), maker.price), Spend(t', TradeSize(p, t', maker), maker.price))
    ensures Exhausted(t) == Exhausted(t')
  {
    hide AffordableSize;
  }

  lemma {:induction false} MatchIgnoresTif(p: Product, t: BookOrder, t': BookOrder, makers: seq<BookOrder>,
                                           logSeq: nat, tradeSeq: nat)
    requires Priced(makers) && SameButTif(t, t')
    ensures var m, m' := Match(p, t, makers, logSeq, tradeSeq), Match(p, t', makers, logSeq, tradeSeq);
            m'.makers == m.makers && SameButTif(m.taker, m'.taker)
            && m'.logSeq == m.logSeq && m'.tradeSeq == m.tradeSeq
    decreases |makers|
  {
    hide TradeSize, Spend;
    if TradesFirst(p, t, makers) {
      TradeIgnoresTif(p, t, t', makers[0]);
      var size := TradeSize(p, t, makers[0]);
      var u, u' := Spend(t, size, makers[0].price), Spend(t', size, makers[0].price);
      var logs := TradeLogs(logSeq, tradeSeq, u, makers[0], size);
      assert |TradeLogs(logSeq, tradeSeq, u', makers[0], size)| == |logs|;
      SpentAlike(u, u');
      MatchIgnoresTif(p, u, u', makers[1..], logSeq + |logs|, tradeSeq + 1);
    } else if makers != [] {
      TradeIgnoresTif(p, t, t', makers[0]);
    }
  }

  lemma SpentAlike(t: BookOrder, t': BookOrder)
    requires SameButTif(t, t')
    ensures Exhausted(t) == Exhausted(t')
  {
  }

  /** An IOC order takes from the other side exactly what it would take as GTC, and leaves its own
      side as it was: nothing of it rests. */
  lemma {:induction false} IocTakesAsGtcAndNeverRests(p: Product, b: Book, o: Order)
    requires Invariant(b) && WellFormed(o) && Admissible(b.accepted, o.id)
    requires o.tif == IOC && !o.cancelling
    ensures Sound(b)
    ensures var ioc := Step(p, b, o);
            var gtc := Step(p, b, o.(tif := GTC));
            && ioc.book.Resting(o.side.Opposite()) == gtc.book.Resting(o.side.Opposite())
            && ioc.book.tradeSeq == gtc.book.tradeSeq
            && ioc.book.Resting(o.side) == b.Resting(o.side)
            && (HasId(gtc.book.Resting(o.side), o.id) ==>
                 ioc.logs == ApplyOrder(p, b, o).logs
                             + [NewDoneLog(ioc.book.logSeq, MatchOrder(p, b, o).taker, MatchOrder(p, b, o).taker.size, Cancelled)])
  {
    InvariantIsSound(b);
    var taker := PrepareTaker(p, NewBookOrder(o));
    var makers := b.Resting(o.side.Opposite());
    MatchIgnoresTif(p, taker, taker.(tif := GTC), makers, b.logSeq, b.tradeSeq);
    assert PrepareTaker(p, NewBookOrder(o.(tif := GTC))) == taker.(tif := GTC);
    MatchTakerFields(p, taker, makers, b.logSeq, b.tradeSeq);
    FreshIds(b, o);
    var m := MatchOrder(p, b, o);
    var own := b.Resting(o.side);
    InsertMembers(o.side, own, MatchOrder(p, b, o.(tif := GTC)).taker);
    DecreaseUndoesInsert(o.side, own, m.taker);
    assert Lookup(own, o.id) == None;
  }
}
