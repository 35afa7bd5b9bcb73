/** Orders of no known side: placement holds for them as for a sell, and the engine has no depth
    for them (service/order_service.go, matching/order_book.go). */
module Strays {
  import opened Exchange
  import opened Depths
  import opened Matcher
  import opened Invariants
  import opened Runs
  import opened TimeInForces
  import opened Ledgers
  import opened Placement
  import opened Engines

  /** An order of a known side never stops the process. */
  lemma {:induction false} SidedNeverKills(p: Product, b: Book, o: Order)
    requires Sound(b) && o.side != OtherSide
    ensures !Kills(p, b, o)
  {
    hide Match, DryRun, Admissible, WillNotMatch;
  }

  /** What the makers hold at prices the taker crosses. */
  function CrossingSize(taker: BookOrder, makers: seq<BookOrder>): int {
    if makers == [] then 0
    else (if PricesCross(taker.side, taker.price, makers[0].price) then makers[0].size else 0)
         + CrossingSize(taker, makers[1..])
  }

  lemma CrossingIsPositive(taker: BookOrder, makers: seq<BookOrder>)
    requires Alive(makers)
    ensures CrossingSize(taker, makers) >= 0
    ensures NoneCross(taker, makers) ==> CrossingSize(taker, makers) == 0
  {
    if makers != [] {
      CrossingIsPositive(taker, makers[1..]);
    }
  }

  lemma CrossingIgnoresSize(taker: BookOrder, taker': BookOrder, makers: seq<BookOrder>)
    requires taker'.side == taker.side && taker'.price == taker.price
    ensures CrossingSize(taker', makers) == CrossingSize(taker, makers)
  {
  }

  /** A limit taker is left with what the makers it crosses do not hold. */
  lemma {:induction false} LeftBeyondCrossing(p: Product, taker: BookOrder, makers: seq<BookOrder>, logSeq: nat, tradeSeq: nat)
    requires GoodSide(makers, taker.side.Opposite()) && taker.otype == Limit && taker.size > 0
    ensures var left := taker.size - CrossingSize(taker, makers);
            Match(p, taker, makers, logSeq, tradeSeq).taker.size == if left > 0 then left else 0
    decreases |makers|
  {
    if TradesFirst(p, taker, makers) {
      TailIsGood(makers, taker.side.Opposite());
      CrossingIsPositive(taker, makers[1..]);
      var size := TradeSize(p, taker, makers[0]);
      var taker' := Spend(taker, size, makers[0].price);
      var logs := TradeLogs(logSeq, tradeSeq, taker', makers[0], size);
      if !Exhausted(taker') {
        CrossingIgnoresSize(taker, taker', makers[1..]);
        LeftBeyondCrossing(p, taker', makers[1..], logSeq + |logs|, tradeSeq + 1);
      }
    } else {
      FirstCrossesBest(taker, makers);
      CrossingIsPositive(taker, makers);
    }
  }

  /** More is asked than the bids hold at its price, or of a market order, anything. */
  predicate Outsizes(o: Order, bids: seq<BookOrder>) {
    if o.otype == Market then bids != [] else o.size > CrossingSize(NewBookOrder(o), bids)
  }

  lemma {:induction false} ApplyKillsIff(p: Product, b: Book, o: Order)
    requires Invariant(b) && FitTerms(o) && o.side == OtherSide
    ensures Sound(b)
    ensures ApplyKills(p, b, o) <==> Admissible(b.accepted, o.id) && Outsizes(o, b.bids)
    ensures OrderLoopKills(p, b, o) <==> o.otype == Market && b.bids != []
  {
    hide Match, Admissible, CrossingSize, TradeSize;
    InvariantIsSound(b);
    if o.otype == Limit {
      LeftBeyondCrossing(p, NewBookOrder(o), b.bids, b.logSeq, b.tradeSeq);
    }
  }

  lemma {:induction false} StrayLimitFok(p: Product, b: Book, o: Order)
    requires Invariant(b) && FitTerms(o) && o.side == OtherSide && o.otype == Limit
    ensures Sound(b) && (WillFullMatch(p, b, o) ==> !Outsizes(o, b.bids))
  {
    hide Match, DryRun, CrossingSize, TradeSize;
    InvariantIsSound(b);
    DryRunIsTheRealRun(p, NewBookOrder(o), b.bids, b.logSeq, b.tradeSeq);
    MatchTakerFields(p, NewBookOrder(o), b.bids, b.logSeq, b.tradeSeq);
    LeftBeyondCrossing(p, NewBookOrder(o), b.bids, b.logSeq, b.tradeSeq);
  }

  /** Exactly when an order of neither side stops the process: always as a cancel or an IOC, which
      look it up in a depth that is not there; as GTC, if something of it is left to rest there or a
      market order meets a bid; as GTX, the same behind its probe, which no market order passes over
      a bid; as FOK, only a market order, over any bid. */
  lemma {:induction false} StrayKillsIff(p: Product, b: Book, o: Order)
    requires Invariant(b) && FitTerms(o) && o.side == OtherSide
    ensures Sound(b)
    ensures Kills(p, b, o) <==>
              o.cancelling
              || match o.tif
                 case GTC => Admissible(b.accepted, o.id) && Outsizes(o, b.bids)
                 case IOC => true
                 case GTX =>
                   && Admissible(b.accepted, o.id) && o.otype == Limit && Outsizes(o, b.bids)
                   && (b.bids == [] || b.bids[|b.bids| - 1].price < o.price)
                 case FOK => o.otype == Market && b.bids != []
                 case Unknown => false
  {
    hide ApplyKills, OrderLoopKills, Outsizes, WillFullMatch, Admissible;
    ApplyKillsIff(p, b, o);
    if o.otype == Limit {
      StrayLimitFok(p, b, o);
    } else {
      MarketOutsizes(o, b.bids);
    }
  }

  lemma MarketOutsizes(o: Order, bids: seq<BookOrder>)
    requires o.otype == Market
    ensures Outsizes(o, bids) <==> bids != []
  {
  }

  /** One that does not stop it leaves the book as it should be. */
  lemma {:induction false} SurvivedStrayKeepsInvariant(p: Product, b: Book, o: Order)
    requires Invariant(b) && FitTerms(o) && o.side == OtherSide
    ensures Sound(b) && (!Kills(p, b, o) ==> Invariant(Step(p, b, o).book))
  {
    hide Match, Admissible, GoodSide, WillFullMatch, WillNotMatch, OrderLoopKills;
    InvariantIsSound(b);
    AcceptKeeps(b, Admit(b.accepted, o.id));
    CountersKeep(b.(accepted := Admit(b.accepted, o.id)), b.logSeq + 1, b.tradeSeq);
    if Admissible(b.accepted, o.id) && !ApplyKills(p, b, o) {
      ApplyStrayKeeps(p, b, o);
    }
  }

  lemma {:induction false} ApplyStrayKeeps(p: Product, b: Book, o: Order)
    requires Invariant(b) && Sound(b) && o.side == OtherSide && !ApplyKills(p, b, o)
    ensures Invariant(ApplyOrder(p, b, o).book)
  {
    hide Match, Invariant, Admissible, GoodSide;
    if Admissible(b.accepted, o.id) {
      var b1 := b.(accepted := b.accepted + {o.id});
      AcceptKeeps(b, b1.accepted);
      var taker := PrepareTaker(p, NewBookOrder(o));
      TradesKeep(p, b1, taker);
      MatchTakerFields(p, taker, b.bids, b.logSeq, b.tradeSeq);
      var b2 := AfterTrades(b1, o.side, MatchOrder(p, b, o));
      CountersKeep(b2, b2.logSeq + 1, b2.tradeSeq);
    }
  }

  /** A limit order of no known side, of one unit at the lowest price. */
  function StrayRequest(info: ProductInfo, u: nat): Request {
    Request.Request(1, u, OtherSide, Limit, GTC, Fraction(1, 1), Fraction(1, 1), Fraction(0, 1), 0, 0)
  }

  /** Placement takes it, holding the base currency, and it stops an engine that has not taken any
      order. */
  lemma {:induction false} StrayIsPlacedAndKills(info: ProductInfo, u: nat)
    requires !LessThan(1, info.baseMinSize) && (info.quoteIncrement.units > 0 ==> MultipleOf(1, info.quoteIncrement))
    ensures var l := Ledger(map[(u, info.pair.baseCurrency) := Account(ONE, 0)], [], map[], []);
            var placed := PlaceOrder(l, info, StrayRequest(info, u));
            && placed.Ok?
            && placed.value.accounts[(u, info.pair.baseCurrency)] == Account(0, ONE)
            && !WellFormed(Sent(placed.value.orders[1])) && Sound(EmptyBook)
            && Kills(info.scales, EmptyBook, Sent(placed.value.orders[1]))
  {
    var r := StrayRequest(info, u);
    assert Rounded(r.size) == 1 && Rounded(r.price) == 1;
    EmptyBookInvariant();
    var l := Ledger(map[(u, info.pair.baseCurrency) := Account(ONE, 0)], [], map[], []);
    var o := Sent(PlaceOrder(l, info, r).value.orders[1]);
    assert Admissible(EmptyBook.accepted, o.id);
    StrayKillsIff(info.scales, EmptyBook, o);
  }

  /** The topic keeps the order: whatever snapshot the engine restarts from, it comes back to the
      same book before the order and stops at it again. */
  lemma {:induction false} KillerReturns(p: Product, orders: seq<Order>, o: Order, stored: seq<Log>,
                                         persisted: Option<EngineSnapshot>)
    requires AllWellFormed(orders) && (persisted.Some? ==> Genuine(p, orders, persisted.value, |orders|))
    ensures Sound(Run(p, orders).book)
    ensures var e := Start(stored, persisted);
            && 0 <= e.Applied() <= |orders| && Invariant(e.book)
            && var b := RunFrom(p, e.book, orders[e.Applied()..]).book;
               Sound(b) && (Kills(p, b, o) <==> Kills(p, Run(p, orders).book, o))
  {
    hide Invariant, Sound, RunFrom, Kills, Genuine, Start;
    var e := Start(stored, persisted);
    RestartResumes(p, orders, stored, persisted);
    var n := e.Applied();
    EmptyBookInvariant();
    RunSplits(p, EmptyBook, orders[..n], orders[n..]);
    assert orders[..n] + orders[n..] == orders;
    InvariantIsSound(Run(p, orders).book);
  }
}
