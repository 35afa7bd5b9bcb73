/** How much a market buy's funds afford: a quotient rounded at its sixteenth place and then cut
    to the base scale, against the exact floor it stands for (matching/order_book.go,
    `calcTradeSize`). */
module Division {
  import opened Exchange
  import opened Matcher

  lemma DivUnique(x: int, d: int, q: int, r: int)
    requires d > 0 && x == d * q + r && 0 <= r < d
    ensures x / d == q && x % d == r
  {
    var k := x / d - q;
    assert d * k == r - x % d;
    MulBound(d, k);
  }

  /** Rounding moves the quotient up by one unit of size exactly when what the remainder lacks
      of a whole unit is less than half of the quotient's last place. */
  lemma {:induction false} RoundedThenCut(funds: nat, price: int, unit: int)
    requires price > 0 && unit > 0
    ensures TruncatedQuotient(RoundedQuotient(funds * unit, price), unit)
            == funds / price + if 2 * unit * (price - funds % price) <= price then 1 else 0
  {
    var q, s := funds / price, funds % price;
    var t, u := (2 * (s * unit) + price) / (2 * price), (2 * (s * unit) + price) % (2 * price);
    assert funds * unit == q * unit * price + s * unit by {
      assert funds == q * price + s;
      assert (q * price + s) * unit == q * unit * price + s * unit;
    }
    var n := funds * unit;
    assert n >= 0;
    assert 2 * n + price == (2 * price) * (q * unit + t) + u by {
      assert (2 * price) * (q * unit + t) == 2 * (q * unit * price) + (2 * price) * t;
    }
    DivUnique(2 * n + price, 2 * price, q * unit + t, u);
    assert RoundedQuotient(n, price) == q * unit + t;
    RemainderPlaces(s, price, unit, t);
    if t == unit {
      assert q * unit + t == unit * (q + 1);
      DivUnique(q * unit + t, unit, q + 1, 0);
    } else {
      DivUnique(q * unit + t, unit, q, t);
    }
  }

  lemma RemainderPlaces(s: int, price: int, unit: int, t: int)
    requires 0 <= s < price && unit > 0
    requires t == (2 * (s * unit) + price) / (2 * price)
    ensures 0 <= t <= unit
    ensures t == unit <==> 2 * unit * (price - s) <= price
  {
    var w, gap := s * unit, 2 * unit * (price - s);
    GapIsPositive(s, price, unit);
    PlacesFromGap(price, unit, w, gap, t);
  }

  lemma GapIsPositive(s: int, price: int, unit: int)
    requires 0 <= s < price && unit > 0
    ensures 0 <= s * unit
    ensures 2 * unit * (price - s) == 2 * price * unit - 2 * (s * unit) >= 2 * unit
  {
    var short := price - s;
    assert unit * short == price * unit - s * unit;
    MulBound(unit, short);
  }

  lemma PlacesFromGap(price: int, unit: int, w: int, gap: int, t: int)
    requires price > 0 && w >= 0 && gap > 0 && unit > 0
    requires gap == 2 * price * unit - 2 * w
    requires t == (2 * w + price) / (2 * price)
    ensures 0 <= t <= unit
    ensures t == unit <==> gap <= price
  {
    var d := 2 * price;
    var u := (2 * w + price) % d;
    assert 2 * w + price == d * t + u;
    assert d * (t - unit) == price - gap - u;
    MulBound(d, t - unit);
    MulBound(d, t);
  }

  /** Exact for these funds: the size the funds afford is the floor of their quotient if and
      only if the remainder is not within half a last place of a whole unit. */
  lemma AffordableIsFloorIff(p: Product, funds: nat, price: int)
    requires price > 0
    ensures AffordableSize(p, funds, price) == funds / price
            <==> 2 * DivUnit(p) * (price - funds % price) > price
  {
    RoundedThenCut(funds, price, DivUnit(p));
  }

  /** Prices at which every quotient is exact. */
  predicate ExactPrice(p: Product, price: int) {
    0 < price < 2 * DivUnit(p)
  }

  ghost predicate ExactSide(p: Product, s: seq<BookOrder>) {
    forall i :: 0 <= i < |s| ==> ExactPrice(p, s[i].price)
  }

  lemma AffordableIsFloor(p: Product, funds: nat, price: int)
    requires ExactPrice(p, price)
    ensures AffordableSize(p, funds, price) == funds / price
  {
    hide DivUnit, AffordableSize;
    AffordableIsFloorIff(p, funds, price);
    GapIsPositive(funds % price, price, DivUnit(p));
  }

  /** Exact for all funds if and only if the price is below two of the quotient's units. */
  lemma {:induction false} ExactPriceIff(p: Product, price: int)
    requires price > 0
    ensures (forall funds: nat :: AffordableSize(p, funds, price) == funds / price) <==> ExactPrice(p, price)
  {
    hide DivUnit, AffordableSize;
    if ExactPrice(p, price) {
      forall funds: nat
        ensures AffordableSize(p, funds, price) == funds / price
      {
        AffordableIsFloor(p, funds, price);
      }
    } else {
      var funds: nat := price - 1;
      AffordableIsFloorIff(p, funds, price);
      DivUnique(funds, price, 0, price - 1);
      assert AffordableSize(p, funds, price) != funds / price;
    }
  }

  /** Exactly when a trade stays within the funds of a market buy: when the quotient is not rounded
      up to one unit more than they pay for, or the maker has no such unit. */
  lemma {:induction false} TradeStaysWithinFundsIff(p: Product, taker: BookOrder, maker: BookOrder)
    requires SpendsFunds(taker) && taker.funds > 0 && maker.price > 0 && maker.size > 0
    ensures TradeSize(p, taker, maker) * maker.price <= taker.funds
            <==> 2 * DivUnit(p) * (maker.price - taker.funds % maker.price) > maker.price
                 || maker.size <= taker.funds / maker.price
  {
    hide DivUnit;
    var funds, price, floor := taker.funds, maker.price, taker.funds / maker.price;
    RoundedThenCut(funds, price, DivUnit(p));
    FloorIsTheMostAffordable(funds, price);
    WithinFloor(funds, price, TradeSize(p, taker, maker));
  }

  lemma WithinFloor(funds: nat, price: int, size: int)
    requires price > 0
    ensures size * price <= funds <==> size <= funds / price
  {
    FloorIsTheMostAffordable(funds, price);
    var k := size - funds / price;
    assert size * price == price * k + funds / price * price;
    MulBound(price, k);
  }

  /** With 8 places of size and 2 of price, a price of 2000000.01 lets funds of 0.02 buy a unit
      they fall one short of paying for. */
  lemma RoundingCanOverspend()
    ensures var p: Product := ProductRow(8, 2);
            AffordableSize(p, 200000000, 200000001) == 1 && 1 * 200000001 > 200000000
  {
    assert Pow10(8) == 100000000 by {
      assert Pow10(2) == 100;
      assert Pow10(4) == 10000;
      assert Pow10(6) == 1000000;
    }
  }

  /** An exact quotient is affordable, and one more unit is not. */
  lemma FloorIsTheMostAffordable(funds: nat, price: int)
    requires price > 0
    ensures 0 <= funds / price
    ensures (funds / price) * price <= funds < (funds / price + 1) * price
  {
    assert (funds / price + 1) * price == price * (funds / price) + price;
  }
}
