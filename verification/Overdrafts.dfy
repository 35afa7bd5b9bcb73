/** How far a market buy can be overdrawn by a rounded quotient, and what it does next: at a safe
    price it stops, and at any other it would sell back a unit it cannot pay for
    (matching/order_book.go, `calcTradeSize`). */
module Overdrafts {
  import opened Exchange
  import opened Depths
  import opened Matcher
  import opened Invariants
  import opened Division

  /** Prices at which an overdrawn market buy stops: any, unless sizes have all sixteen places; then
      the odd ones, and those no market buy reaches. */
  predicate SafePrice(p: Product, price: int) {
    price > 0 && (p.baseScale < DIVISION_PRECISION || price % 2 == 1 || price > MaxPrice(p))
  }

  lemma UnitAboveOne(p: Product)
    ensures DivUnit(p) == 1 <==> p.baseScale == DIVISION_PRECISION
  {
  }

  lemma ExactIsSafe(p: Product, price: int)
    requires ExactPrice(p, price)
    ensures SafePrice(p, price)
  {
    UnitAboveOne(p);
  }

  /** What the funds are short of is at most half a last place of the price. */
  predicate OwesLittle(p: Product, funds: int, price: int) {
    2 * DivUnit(p) * -funds <= price
  }

  lemma FundedOwesNothing(p: Product, funds: int, price: int)
    requires funds >= 0 && price >= 0
    ensures OwesLittle(p, funds, price)
  {
    hide DivUnit;
    MulBound(DivUnit(p), funds);
  }

  lemma OwesNoMore(p: Product, funds: int, more: int, price: int)
    requires OwesLittle(p, funds, price) && funds <= more
    ensures OwesLittle(p, more, price)
  {
    hide DivUnit;
    var unit := DivUnit(p);
    MulBound(unit, more - funds);
    assert 2 * unit * -funds - 2 * unit * -more == 2 * (unit * (more - funds));
  }

  lemma OwesLess(p: Product, funds: int, price: int)
    requires OwesLittle(p, funds, price) && ExactPrice(p, price)
    ensures funds >= 0
  {
    hide DivUnit;
    MulBound(DivUnit(p), -funds);
  }

  /** The quotient of a small overdraft, as the decimal library rounds it. */
  lemma RoundedOverdraft(p: Product, funds: int, price: int)
    requires funds < 0 && price > 0 && OwesLittle(p, funds, price)
    ensures RoundedQuotient(funds * DivUnit(p), price) == if 2 * DivUnit(p) * -funds == price then -1 else 0
  {
    hide DivUnit;
    var w := DivUnit(p) * -funds;
    assert funds * DivUnit(p) == -w && 2 * DivUnit(p) * -funds == 2 * w;
    MulBound(DivUnit(p), -funds);
    if 2 * w == price {
      DivUnique(2 * w + price, 2 * price, 1, 0);
    } else {
      DivUnique(2 * w + price, 2 * price, 0, 2 * w + price);
    }
  }

  /** An overdrawn market buy affords nothing at a safe price. */
  lemma {:induction false} OverdrawnBuysNothing(p: Product, funds: int, price: int)
    requires funds < 0 && SafePrice(p, price) && price <= MaxPrice(p) && OwesLittle(p, funds, price)
    ensures AffordableSize(p, funds, price) == 0
  {
    hide DivUnit, RoundedQuotient, MaxPrice;
    UnitAboveOne(p);
    RoundedOverdraft(p, funds, price);
    if DivUnit(p) > 1 {
      DivUnique(1, DivUnit(p), 0, 1);
    }
  }

  /** At any other price it sells back: half the price buys a unit, and the half it then owes buys
      minus one. */
  lemma {:induction false} UnsafePriceSellsBack(p: Product, price: int)
    requires price > 0 && !SafePrice(p, price)
    ensures AffordableSize(p, price / 2, price) == 1 && price / 2 - price == -(price / 2)
    ensures AffordableSize(p, -(price / 2), price) == -1
  {
    UnitAboveOne(p);
    var half := price / 2;
    assert price == 2 * half;
    DivUnique(2 * half + price, 2 * price, 1, 0);
  }

  /** One trade leaves a funded market buy owing at most half a last place of that price. */
  lemma {:induction false} TradeOwesLittle(p: Product, taker: BookOrder, maker: BookOrder)
    requires SpendsFunds(taker) && taker.funds > 0 && maker.price > 0 && maker.size > 0
    ensures var size := TradeSize(p, taker, maker);
            size >= 0 && OwesLittle(p, taker.funds - size * maker.price, maker.price)
  {
    hide DivUnit, TruncatedQuotient, RoundedQuotient;
    var funds, price, unit, size := taker.funds, maker.price, DivUnit(p), TradeSize(p, taker, maker);
    RoundedThenCut(funds, price, unit);
    FloorIsTheMostAffordable(funds, price);
    var floor, rest := funds / price, funds % price;
    assert funds == floor * price + rest;
    if size <= floor {
      WithinFloor(funds, price, size);
      FundedOwesNothing(p, funds - size * price, price);
    } else {
      assert size == floor + 1;
      assert size * price == floor * price + price;
    }
  }

  lemma GapGrows(unit: int, price: int, left: int, more: int)
    requires unit >= 1 && more >= 0 && 2 * unit * (price - left) > price
    ensures 2 * unit * (price + more - left) > price + more
  {
    var gap := price - left;
    assert 2 * unit * (gap + more) == 2 * unit * gap + 2 * (unit * more);
    assert unit * more == (unit - 1) * more + more;
    assert (unit - 1) * more >= 0;
  }

  // ---- over a whole match ----

  ghost predicate SafeSide(p: Product, s: seq<BookOrder>) {
    forall i :: 0 <= i < |s| ==> SafePrice(p, s[i].price)
  }

  /** Every price divides exactly or is at most `bound`. */
  predicate OwablePrice(p: Product, price: int, bound: nat) {
    ExactPrice(p, price) || (SafePrice(p, price) && price <= bound)
  }

  ghost predicate OwableSide(p: Product, s: seq<BookOrder>, bound: nat) {
    forall i :: 0 <= i < |s| ==> OwablePrice(p, s[i].price, bound)
  }

  /** The taker can go on: its size is not negative, or its funds are short of no more than half a
      last place of any maker's price and of the bound. */
  ghost predicate Solid(p: Product, taker: BookOrder, makers: seq<BookOrder>, bound: nat) {
    if SpendsFunds(taker) then
      && taker.price <= MaxPrice(p) && OwesLittle(p, taker.funds, bound)
      && forall i :: 0 <= i < |makers| ==> OwesLittle(p, taker.funds, makers[i].price)
    else taker.size >= 0
  }

  ghost predicate PositiveTrades(logs: seq<Log>) {
    forall k :: 0 <= k < |logs| && logs[k].MatchLog? ==> logs[k].size > 0 && logs[k].price > 0
  }

  lemma FundedIsSolid(p: Product, taker: BookOrder, makers: seq<BookOrder>, bound: nat)
    requires Priced(makers)
    requires if SpendsFunds(taker) then taker.funds >= 0 && taker.price <= MaxPrice(p) else taker.size >= 0
    ensures Solid(p, taker, makers, bound)
  {
    hide OwesLittle;
    if SpendsFunds(taker) {
      FundedOwesNothing(p, taker.funds, bound);
      forall i | 0 <= i < |makers|
        ensures OwesLittle(p, taker.funds, makers[i].price)
      {
        FundedOwesNothing(p, taker.funds, makers[i].price);
      }
    }
  }

  /** One trade of a solid taker: a positive size, and the taker stays solid for the makers after,
      whose prices are no lower. */
  lemma {:induction false} TradeStaysSolid(p: Product, taker: BookOrder, makers: seq<BookOrder>, bound: nat)
    requires GoodSide(makers, taker.side.Opposite()) && OwableSide(p, makers, bound) && Solid(p, taker, makers, bound)
    requires Priced(makers) && TradesFirst(p, taker, makers)
    ensures TradeSize(p, taker, makers[0]) > 0
    ensures Solid(p, Spend(taker, TradeSize(p, taker, makers[0]), makers[0].price), makers[1..], bound)
  {
    hide AffordableSize, DivUnit, Sorted, DistinctIds, MaxPrice;
    var maker := makers[0];
    assert OwablePrice(p, maker.price, bound) && maker.size > 0;
    if SpendsFunds(taker) {
      if taker.funds < 0 {
        if ExactPrice(p, maker.price) {
          ExactIsSafe(p, maker.price);
        }
        OverdrawnBuysNothing(p, taker.funds, maker.price);
      } else {
        TradeOwesLittle(p, taker, maker);
        var funds := taker.funds - TradeSize(p, taker, maker) * maker.price;
        if ExactPrice(p, maker.price) {
          OwesLess(p, funds, maker.price);
        }
        LaterPricesAreHigher(makers);
        OwedLater(p, funds, maker.price, makers[1..], bound);
      }
    }
  }

  lemma LaterPricesAreHigher(s: seq<BookOrder>)
    requires GoodSide(s, Sell) && s != []
    ensures forall i :: 0 <= i < |s| - 1 ==> s[0].price <= s[1..][i].price
  {
    forall i | 0 <= i < |s| - 1
      ensures s[0].price <= s[1..][i].price
    {
      assert Before(Sell, KeyOf(s[0]), KeyOf(s[i + 1]));
    }
  }

  lemma OwedLater(p: Product, funds: int, price: int, makers: seq<BookOrder>, bound: nat)
    requires OwesLittle(p, funds, price) && (funds >= 0 || price <= bound)
    requires price > 0 && forall i :: 0 <= i < |makers| ==> price <= makers[i].price
    ensures OwesLittle(p, funds, bound) && forall i :: 0 <= i < |makers| ==> OwesLittle(p, funds, makers[i].price)
  {
    if funds >= 0 {
      FundedOwesNothing(p, funds, bound);
    }
  }

  /** Over a whole match every trade has a positive size, and what the taker is short of at the end
      is at most half a last place of the dearest price that does not divide exactly. */
  lemma {:induction false} MatchStaysSolid(p: Product, taker: BookOrder, makers: seq<BookOrder>,
                                           logSeq: nat, tradeSeq: nat, bound: nat)
    requires GoodSide(makers, taker.side.Opposite()) && OwableSide(p, makers, bound) && Solid(p, taker, makers, bound)
    ensures var m := Match(p, taker, makers, logSeq, tradeSeq);
            PositiveTrades(m.logs) && (SpendsFunds(taker) ==> OwesLittle(p, m.taker.funds, bound))
    decreases |makers|
  {
    hide Sorted, DistinctIds, OwesLittle, OwablePrice, TradeSize, Match, TradeLogs, MaxPrice;
    if !TradesFirst(p, taker, makers) {
      NoTradeNoMatch(p, taker, makers, logSeq, tradeSeq);
    } else {
      MatchUnfolds(p, taker, makers, logSeq, tradeSeq);
      TradeStaysSolid(p, taker, makers, bound);
      TailIsGood(makers, taker.side.Opposite());
      var size := TradeSize(p, taker, makers[0]);
      var taker' := Spend(taker, size, makers[0].price);
      var logs := TradeLogs(logSeq, tradeSeq, taker', makers[0], size);
      OneTradeIsPositive(logSeq, tradeSeq, taker', makers[0], size);
      if !Exhausted(taker') {
        MatchStaysSolid(p, taker', makers[1..], logSeq + |logs|, tradeSeq + 1, bound);
      }
      PositiveAppend(logs, MatchRest(p, taker, makers, logSeq, tradeSeq).logs);
    }
  }

  lemma NoTradeNoMatch(p: Product, taker: BookOrder, makers: seq<BookOrder>, logSeq: nat, tradeSeq: nat)
    requires Priced(makers) && !TradesFirst(p, taker, makers)
    ensures Match(p, taker, makers, logSeq, tradeSeq) == Matched(taker, makers, [], logSeq, tradeSeq)
  {
  }

  lemma OneTradeIsPositive(logSeq: nat, tradeSeq: nat, taker: BookOrder, maker: BookOrder, size: int)
    requires size > 0 && maker.price > 0
    ensures PositiveTrades(TradeLogs(logSeq, tradeSeq, taker, maker, size))
  {
  }

  lemma PositiveAppend(a: seq<Log>, c: seq<Log>)
    requires PositiveTrades(a) && PositiveTrades(c)
    ensures PositiveTrades(a + c)
  {
  }
}
