/** What every step of every run keeps true of the book: its queues are in order, its orders are
    alive, and it is never crossed. */
module Invariants {
  import opened Exchange
  import opened Depths
  import opened Matcher
  import opened Snapshots

  ghost predicate Alive(s: seq<BookOrder>) {
    forall i :: 0 <= i < |s| ==> s[i].size > 0 && s[i].price > 0 && s[i].otype == Limit
  }

  ghost predicate GoodSide(s: seq<BookOrder>, side: Side) {
    Sorted(side, s) && DistinctIds(s) && OnSide(s, side) && Alive(s)
  }

  /** Every resting bid is priced below every resting ask. */
  ghost predicate Uncrossed(b: Book) {
    forall i, j :: 0 <= i < |b.bids| && 0 <= j < |b.asks| ==> b.bids[i].price < b.asks[j].price
  }

  ghost predicate Apart(b: Book) {
    forall i, j :: 0 <= i < |b.bids| && 0 <= j < |b.asks| ==> b.bids[i].orderId != b.asks[j].orderId
  }

  ghost predicate Invariant(b: Book) {
    && GoodSide(b.bids, Buy) && GoodSide(b.asks, Sell)
    && IdsAccepted(b.bids, b.accepted) && IdsAccepted(b.asks, b.accepted)
    && Apart(b) && Uncrossed(b)
  }

  lemma InvariantIsSound(b: Book)
    requires Invariant(b)
    ensures Sound(b)
  {
  }

  lemma InvariantIsFiled(b: Book)
    requires Invariant(b)
    ensures Filed(b)
  {
  }

  /** The taker trades with the first maker. */
  predicate TradesFirst(p: Product, taker: BookOrder, makers: seq<BookOrder>)
    requires Priced(makers)
  {
    makers != [] && PricesCross(taker.side, taker.price, makers[0].price) && TradeSize(p, taker, makers[0]) != 0
  }

  /** The match from the second maker on. */
  ghost function MatchRest(p: Product, taker: BookOrder, makers: seq<BookOrder>, logSeq: nat, tradeSeq: nat): Matched
    requires Priced(makers) && TradesFirst(p, taker, makers)
  {
    var size := TradeSize(p, taker, makers[0]);
    var taker' := Spend(taker, size, makers[0].price);
    var logs := TradeLogs(logSeq, tradeSeq, taker', makers[0], size);
    if Exhausted(taker') then Matched(taker', makers[1..], [], logSeq + |logs|, tradeSeq + 1)
    else Match(p, taker', makers[1..], logSeq + |logs|, tradeSeq + 1)
  }

  /** One turn of the matching loop: the first trade, then the rest of the match. */
  lemma MatchUnfolds(p: Product, taker: BookOrder, makers: seq<BookOrder>, logSeq: nat, tradeSeq: nat)
    requires Priced(makers) && TradesFirst(p, taker, makers)
    ensures Match(p, taker, makers, logSeq, tradeSeq)
            == (var size := TradeSize(p, taker, makers[0]);
                var rest := MatchRest(p, taker, makers, logSeq, tradeSeq);
                rest.(makers := Reduced(makers[0], size) + rest.makers,
                      logs := TradeLogs(logSeq, tradeSeq, Spend(taker, size, makers[0].price), makers[0], size) + rest.logs))
  {
    var size := TradeSize(p, taker, makers[0]);
    var taker' := Spend(taker, size, makers[0].price);
    var logs := TradeLogs(logSeq, tradeSeq, taker', makers[0], size);
    assert logs + [] == logs;
  }

  lemma TailIsGood(s: seq<BookOrder>, side: Side)
    requires GoodSide(s, side) && s != []
    ensures GoodSide(s[1..], side)
  {
    TailSorted(side, s);
    TailDistinct(s);
  }

  /** A good queue whose first order is put back, smaller, before survivors of the others. */
  lemma ConsGood(o: BookOrder, s': seq<BookOrder>, s: seq<BookOrder>, side: Side)
    requires GoodSide(s, side) && s != [] && SameButSize(o, s[0]) && o.size > 0
    requires GoodSide(s', side) && AllSurvive(s', s[1..])
    ensures GoodSide([o] + s', side)
  {
    TailSorted(side, s);
    TailDistinct(s);
    forall x | x in s'
      ensures Before(side, KeyOf(o), KeyOf(x)) && x.orderId != o.orderId
    {
      var j :| 0 <= j < |s'| && s'[j] == x;
      assert Survives(s'[j], s[1..]);
      var i :| 0 <= i < |s[1..]| && SameButSize(s'[j], s[1..][i]);
      assert s[1..][i] in s[1..];
    }
    ConsSorted(side, o, s');
    ConsDistinct(o, s');
  }

  /** Matching leaves a good queue good: in order, and with no empty order. */
  lemma {:induction false} MatchKeepsGood(p: Product, taker: BookOrder, makers: seq<BookOrder>, logSeq: nat, tradeSeq: nat,
                                          side: Side)
    requires GoodSide(makers, side)
    ensures GoodSide(Match(p, taker, makers, logSeq, tradeSeq).makers, side)
    decreases |makers|
  {
    hide Match, Sorted, DistinctIds, TradeSize, TradeLogs, Spend, AllSurvive, SameButSize;
    if !TradesFirst(p, taker, makers) {
      NoTradeKeepsMakers(p, taker, makers, logSeq, tradeSeq);
    } else {
      MatchUnfolds(p, taker, makers, logSeq, tradeSeq);
      TailIsGood(makers, side);
      var maker := makers[0];
      var size := TradeSize(p, taker, maker);
      var taker' := Spend(taker, size, maker.price);
      var logs := TradeLogs(logSeq, tradeSeq, taker', maker, size);
      var rest := MatchRest(p, taker, makers, logSeq, tradeSeq).makers;
      if !Exhausted(taker') {
        MatchKeepsGood(p, taker', makers[1..], logSeq + |logs|, tradeSeq + 1, side);
        MatchSurvivors(p, taker', makers[1..], logSeq + |logs|, tradeSeq + 1);
      } else {
        AllSurviveSelf(makers[1..]);
      }
      if maker.size != size {
        ShrunkMaker(p, taker, maker);
        ConsGood(maker.(size := maker.size - size), rest, makers, side);
      } else {
        assert [] + rest == rest;
      }
    }
  }

  lemma NoTradeKeepsMakers(p: Product, taker: BookOrder, makers: seq<BookOrder>, logSeq: nat, tradeSeq: nat)
    requires Priced(makers) && !TradesFirst(p, taker, makers)
    ensures Match(p, taker, makers, logSeq, tradeSeq).makers == makers
  {
  }

  lemma ShrunkMaker(p: Product, taker: BookOrder, maker: BookOrder)
    requires maker.price > 0 && TradeSize(p, taker, maker) != 0 && TradeSize(p, taker, maker) != maker.size
    ensures SameButSize(maker.(size := maker.size - TradeSize(p, taker, maker)), maker)
    ensures maker.size - TradeSize(p, taker, maker) > 0
  {
  }

  ghost predicate NoneCross(taker: BookOrder, makers: seq<BookOrder>) {
    forall i :: 0 <= i < |makers| ==> !PricesCross(taker.side, taker.price, makers[i].price)
  }

  lemma FirstCrossesBest(taker: BookOrder, makers: seq<BookOrder>)
    requires Sorted(taker.side.Opposite(), makers)
    requires makers == [] || !PricesCross(taker.side, taker.price, makers[0].price)
    ensures NoneCross(taker, makers)
  {
    forall i | 0 <= i < |makers|
      ensures !PricesCross(taker.side, taker.price, makers[i].price)
    {
      assert i > 0 ==> Before(taker.side.Opposite(), KeyOf(makers[0]), KeyOf(makers[i]));
    }
  }

  /** A limit order that still has size has no counterparty left in the book. */
  lemma {:induction false} MatchUncrosses(p: Product, taker: BookOrder, makers: seq<BookOrder>, logSeq: nat, tradeSeq: nat)
    requires GoodSide(makers, taker.side.Opposite()) && taker.otype == Limit && taker.size > 0
    ensures var m := Match(p, taker, makers, logSeq, tradeSeq);
            m.taker.size >= 0 && (m.taker.size > 0 ==> NoneCross(m.taker, m.makers))
    decreases |makers|
  {
    if TradesFirst(p, taker, makers) {
      MatchUnfolds(p, taker, makers, logSeq, tradeSeq);
      TailIsGood(makers, taker.side.Opposite());
      var size := TradeSize(p, taker, makers[0]);
      var taker' := Spend(taker, size, makers[0].price);
      var logs := TradeLogs(logSeq, tradeSeq, taker', makers[0], size);
      if !Exhausted(taker') {
        MatchUncrosses(p, taker', makers[1..], logSeq + |logs|, tradeSeq + 1);
        assert Reduced(makers[0], size) == [];
        var rest := MatchRest(p, taker, makers, logSeq, tradeSeq).makers;
        assert [] + rest == rest;
      }
    } else {
      FirstCrossesBest(taker, makers);
    }
  }

  // ---- each operation keeps the invariant ----

  lemma SurvivorsShrink(s': seq<BookOrder>, s: seq<BookOrder>)
    requires AllSurvive(s', s)
    ensures forall id :: HasId(s', id) ==> HasId(s, id)
  {
    forall id | HasId(s', id)
      ensures HasId(s, id)
    {
      var j :| 0 <= j < |s'| && s'[j].orderId == id;
      assert Survives(s'[j], s);
      var i :| 0 <= i < |s| && SameButSize(s'[j], s[i]);
      assert s[i] in s;
    }
  }

  /** Replacing one side by survivors of it keeps the invariant. */
  lemma ShrinkKeeps(b: Book, side: Side, s': seq<BookOrder>)
    requires Invariant(b) && GoodSide(s', side) && AllSurvive(s', b.Resting(side))
    ensures Invariant(b.WithResting(side, s'))
  {
    var b' := b.WithResting(side, s');
    SurvivorsKeepSound(s', b.Resting(side), side, b.accepted);
    forall i, j | 0 <= i < |b'.bids| && 0 <= j < |b'.asks|
      ensures b'.bids[i].price < b'.asks[j].price && b'.bids[i].orderId != b'.asks[j].orderId
    {
      if side == Buy {
        assert Survives(s'[i], b.bids);
        var k :| 0 <= k < |b.bids| && SameButSize(s'[i], b.bids[k]);
      } else if side == Sell {
        assert Survives(s'[j], b.asks);
        var k :| 0 <= k < |b.asks| && SameButSize(s'[j], b.asks[k]);
      }
    }
  }

  lemma InsertGood(s: seq<BookOrder>, o: BookOrder)
    requires GoodSide(s, o.side) && !HasId(s, o.orderId)
    requires o.size > 0 && o.price > 0 && o.otype == Limit
    ensures GoodSide(Insert(o.side, s, o), o.side)
  {
    forall x | x in s
      ensures KeyOf(x) != KeyOf(o)
    {
    }
    InsertSorted(o.side, s, o);
    InsertDistinct(o.side, s, o);
    InsertMembers(o.side, s, o);
    forall i | 0 <= i < |Insert(o.side, s, o)|
      ensures var x := Insert(o.side, s, o)[i]; x.size > 0 && x.price > 0 && x.otype == Limit && x.side == o.side
    {
      assert Insert(o.side, s, o)[i] in Insert(o.side, s, o);
    }
  }

  /** An order placed among others is one of them or the new one. */
  lemma InsertedIsOldOrNew(s: seq<BookOrder>, o: BookOrder, k: nat)
    requires k < |Insert(o.side, s, o)|
    ensures Insert(o.side, s, o)[k] == o || exists h :: 0 <= h < |s| && s[h] == Insert(o.side, s, o)[k]
  {
    InsertMembers(o.side, s, o);
    assert Insert(o.side, s, o)[k] in Insert(o.side, s, o);
  }

  /** `o`, on its side, faces `x` without crossing it or sharing its id. */
  ghost predicate Faces(o: BookOrder, x: BookOrder) {
    o.orderId != x.orderId && if o.side == Buy then o.price < x.price else x.price < o.price
  }

  ghost predicate AllFace(s: seq<BookOrder>, t: seq<BookOrder>) {
    forall i, j :: 0 <= i < |s| && 0 <= j < |t| ==> Faces(s[i], t[j])
  }

  lemma InsertFaces(s: seq<BookOrder>, o: BookOrder, t: seq<BookOrder>)
    requires AllFace(s, t) && AllFace([o], t)
    ensures AllFace(Insert(o.side, s, o), t)
  {
    forall i, j | 0 <= i < |Insert(o.side, s, o)| && 0 <= j < |t|
      ensures Faces(Insert(o.side, s, o)[i], t[j])
    {
      InsertedIsOldOrNew(s, o, i);
      assert Faces([o][0], t[j]);
    }
  }

  lemma FacingSides(b: Book, side: Side)
    requires OnSide(b.bids, Buy) && OnSide(b.asks, Sell) && side != OtherSide
    ensures AllFace(b.Resting(side), b.Resting(side.Opposite())) <==> Apart(b) && Uncrossed(b)
  {
    if AllFace(b.Resting(side), b.Resting(side.Opposite())) {
      forall i, j | 0 <= i < |b.bids| && 0 <= j < |b.asks|
        ensures b.bids[i].orderId != b.asks[j].orderId && b.bids[i].price < b.asks[j].price
      {
        assert side == Buy ==> Faces(b.bids[i], b.asks[j]);
        assert side == Sell ==> Faces(b.asks[j], b.bids[i]);
      }
    }
  }

  /** Adding an order that crosses nothing keeps the invariant. */
  lemma {:induction false} RestKeeps(b: Book, o: BookOrder)
    requires Invariant(b) && !HasId(b.bids, o.orderId) && !HasId(b.asks, o.orderId) && o.orderId in b.accepted
    requires o.size > 0 && o.price > 0 && o.otype == Limit && NoneCross(o, b.Resting(o.side.Opposite()))
    requires o.side != OtherSide
    ensures Invariant(b.WithResting(o.side, Insert(o.side, b.Resting(o.side), o)))
  {
    hide Insert, Faces, DistinctIds;
    var s, t := b.Resting(o.side), b.Resting(o.side.Opposite());
    InsertGood(s, o);
    InsertKeepsSound(s, o, b.accepted);
    FacingSides(b, o.side);
    NewFaces(o, t);
    InsertFaces(s, o, t);
    FacingSides(b.WithResting(o.side, Insert(o.side, s, o)), o.side);
  }

  lemma NewFaces(o: BookOrder, t: seq<BookOrder>)
    requires !HasId(t, o.orderId) && NoneCross(o, t)
    ensures AllFace([o], t)
  {
    forall j | 0 <= j < |t|
      ensures Faces(o, t[j])
    {
      assert t[j] in t;
    }
  }

  lemma AcceptKeeps(b: Book, accepted: set<nat>)
    requires Invariant(b) && b.accepted <= accepted
    ensures Invariant(b.(accepted := accepted))
  {
  }

  lemma CountersKeep(b: Book, logSeq: nat, tradeSeq: nat)
    requires Invariant(b)
    ensures Invariant(b.(logSeq := logSeq, tradeSeq := tradeSeq))
  {
  }

  /** The trades of a taker keep the invariant, whatever the taker is. */
  lemma {:induction false} TradesKeep(p: Product, b: Book, taker: BookOrder)
    requires Invariant(b)
    ensures Invariant(AfterTrades(b, taker.side, Match(p, taker, b.Resting(taker.side.Opposite()), b.logSeq, b.tradeSeq)))
  {
    var side := taker.side.Opposite();
    var m := Match(p, taker, b.Resting(side), b.logSeq, b.tradeSeq);
    MatchKeepsGood(p, taker, b.Resting(side), b.logSeq, b.tradeSeq, side);
    MatchSurvivors(p, taker, b.Resting(side), b.logSeq, b.tradeSeq);
    ShrinkKeeps(b, side, m.makers);
    CountersKeep(b.WithResting(side, m.makers), m.logSeq, m.tradeSeq);
  }

  /** Nothing of a fresh id rests, before or after the trades of the order that brings it. */
  lemma {:induction false} FreshAfterTrades(p: Product, b: Book, o: Order)
    requires Invariant(b) && Admissible(b.accepted, o.id)
    ensures var b' := AfterTrades(b, o.side, MatchOrder(p, b, o)); !HasId(b'.bids, o.id) && !HasId(b'.asks, o.id)
  {
    var taker := PrepareTaker(p, NewBookOrder(o));
    MatchSurvivors(p, taker, b.Resting(o.side.Opposite()), b.logSeq, b.tradeSeq);
    SurvivorsShrink(MatchOrder(p, b, o).makers, b.Resting(o.side.Opposite()));
  }

  lemma {:induction false} ApplyKeepsInvariant(p: Product, b: Book, o: Order)
    requires Invariant(b) && WellFormed(o)
    ensures Invariant(ApplyOrder(p, b, o).book)
  {
    hide Match, Invariant, Admissible, HasId, NoneCross, Sound, GoodSide;
    InvariantIsGood(b);
    if Admissible(b.accepted, o.id) {
      var b1 := b.(accepted := b.accepted + {o.id});
      AcceptKeeps(b, b1.accepted);
      var taker := PrepareTaker(p, NewBookOrder(o));
      var makers := b.Resting(o.side.Opposite());
      var m := MatchOrder(p, b, o);
      TradesKeep(p, b1, taker);
      FreshAfterTrades(p, b, o);
      MatchTakerFields(p, taker, makers, b.logSeq, b.tradeSeq);
      var b2 := AfterTrades(b1, o.side, m);
      CountersKeep(b2, b2.logSeq + 1, b2.tradeSeq);
      if o.otype == Limit && m.taker.size > 0 {
        MatchUncrosses(p, taker, makers, b.logSeq, b.tradeSeq);
        RestKeeps(b2.(logSeq := b2.logSeq + 1), m.taker);
      }
    }
  }

  lemma InvariantIsGood(b: Book)
    requires Invariant(b)
    ensures Sound(b) && Priced(b.bids) && Priced(b.asks) && GoodSide(b.bids, Buy) && GoodSide(b.asks, Sell)
  {
  }

  lemma DecreaseSurvives(s: seq<BookOrder>, id: nat, size: int)
    ensures AllSurvive(Decrease(s, id, size), s)
  {
    if s != [] {
      var d := Decrease(s, id, size);
      if s[0].orderId == id {
        forall j | 0 <= j < |d|
          ensures Survives(d[j], s)
        {
          var i := j + (if s[0].size == size then 1 else 0);
          assert SameButSize(d[j], s[i]);
        }
      } else {
        DecreaseSurvives(s[1..], id, size);
        forall j | 0 <= j < |d|
          ensures Survives(d[j], s)
        {
          if j == 0 {
            assert SameButSize(d[0], s[0]);
          } else {
            assert d[j] == Decrease(s[1..], id, size)[j - 1];
            var i :| 0 <= i < |s[1..]| && SameButSize(Decrease(s[1..], id, size)[j - 1], s[1..][i]);
            assert SameButSize(d[j], s[i + 1]);
          }
        }
      }
    }
  }

  lemma IdNamesOne(s: seq<BookOrder>, x: BookOrder, y: BookOrder)
    requires DistinctIds(s) && x in s && y in s && x.orderId == y.orderId
    ensures x == y
  {
    var i :| 0 <= i < |s| && s[i] == x;
    var k :| 0 <= k < |s| && s[k] == y;
    assert s[i].orderId == s[k].orderId;
  }

  /** Taking an order out leaves a good queue good. */
  lemma {:induction false} TakeOutGood(s: seq<BookOrder>, o: BookOrder, side: Side)
    requires GoodSide(s, side) && Lookup(s, o.orderId) == Some(o)
    ensures GoodSide(Decrease(s, o.orderId, o.size), side)
    ensures !HasId(Decrease(s, o.orderId, o.size), o.orderId)
  {
    DecreaseSorted(side, s, o.orderId, o.size);
    DecreaseMembers(s, o.orderId, o.size);
    var d := Decrease(s, o.orderId, o.size);
    forall y | y in s && y.orderId == o.orderId
      ensures y == o
    {
      IdNamesOne(s, y, o);
    }
    forall i | 0 <= i < |d|
      ensures d[i].size > 0 && d[i].price > 0 && d[i].otype == Limit && d[i].side == side
    {
      assert d[i] in d && d[i] in s;
    }
  }

  lemma AdmitsNoLess(accepted: set<nat>, id: nat)
    ensures accepted <= Admit(accepted, id)
  {
  }

  lemma {:induction false} CancelKeepsInvariant(b: Book, o: Order)
    requires Invariant(b)
    ensures Invariant(CancelOrder(b, o).book)
  {
    hide Admit, Lookup, Decrease, GoodSide;
    AdmitsNoLess(b.accepted, o.id);
    var b' := b.(accepted := Admit(b.accepted, o.id));
    AcceptKeeps(b, b'.accepted);
    var r := Lookup(b.Resting(o.side), o.id);
    if r.Some? {
      TakeOutGood(b.Resting(o.side), r.value, o.side);
      DecreaseSurvives(b.Resting(o.side), o.id, r.value.size);
      ShrinkKeeps(b', o.side, Decrease(b.Resting(o.side), o.id, r.value.size));
      CountersKeep(CancelOrder(b, o).book, b.logSeq + 1, b.tradeSeq);
    }
  }

  lemma {:induction false} StepKeepsInvariant(p: Product, b: Book, o: Order)
    requires Invariant(b) && WellFormed(o)
    ensures Invariant(Step(p, b, o).book)
  {
    hide ApplyOrder, CancelOrder, WillFullMatch, WillNotMatch, Invariant;
    InvariantIsSound(b);
    ApplyKeepsSound(p, b, o);
    ApplyKeepsInvariant(p, b, o);
    CancelKeepsInvariant(b, o);
    CancelKeepsInvariant(ApplyOrder(p, b, o).book, o);
    AcceptKeeps(b, Admit(b.accepted, o.id));
    CountersKeep(b.(accepted := Admit(b.accepted, o.id)), b.logSeq + 1, b.tradeSeq);
  }
}
