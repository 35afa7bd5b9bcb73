/** Price-time priority, said without a loop: what a taker may take from a queue, that there is
    only one way to take it, and that the matching loop takes exactly that. */
module Priority {
  import opened Exchange
  import opened Depths
  import opened Matcher
  import opened Invariants
  import opened Division
  import opened Overdrafts

  /** What a taker has to spend, and what one unit of a maker's size costs it. */
  function Budget(taker: BookOrder): int {
    if SpendsFunds(taker) then taker.funds else taker.size
  }

  function Cost(taker: BookOrder, maker: BookOrder): int {
    if SpendsFunds(taker) then maker.price else 1
  }

  function Crosses(taker: BookOrder, maker: BookOrder): bool {
    PricesCross(taker.side, taker.price, maker.price)
  }

  function Paid(taker: BookOrder, makers: seq<BookOrder>, fills: seq<int>): int
    requires |fills| <= |makers|
  {
    if fills == [] then 0 else fills[0] * Cost(taker, makers[0]) + Paid(taker, makers[1..], fills[1..])
  }

  function Left(taker: BookOrder, makers: seq<BookOrder>, fills: seq<int>): int
    requires |fills| <= |makers|
  {
    Budget(taker) - Paid(taker, makers, fills)
  }

  /** The last fill, if any, empties its maker. */
  predicate LastIsFull(makers: seq<BookOrder>, fills: seq<int>)
    requires |fills| <= |makers|
  {
    fills == [] || fills[|fills| - 1] == makers[|fills| - 1].size
  }

  /** A trade with the maker may leave the taker with this: a size that is not negative, or funds
      short of no more than the half last place the quotient was rounded up by. */
  predicate Bears(p: Product, taker: BookOrder, maker: BookOrder, left: int) {
    if SpendsFunds(taker) then OwesLittle(p, left, maker.price) else left >= 0
  }

  /** `fills[i]` taken from `makers[i]` respects priority: a prefix of the queue is taken, each
      maker crosses the taker's price, every maker but the last is emptied, what is taken can be
      paid for, and the taker stops only where one unit more could not. */
  ghost predicate IsPriorityFill(p: Product, taker: BookOrder, makers: seq<BookOrder>, fills: seq<int>) {
    && |fills| <= |makers|
    && (forall i :: 0 <= i < |fills| ==> 0 < fills[i] <= makers[i].size && Crosses(taker, makers[i]))
    && (forall i :: 0 <= i < |fills| - 1 ==> fills[i] == makers[i].size)
    && (fills != [] ==> Bears(p, taker, makers[|fills| - 1], Left(taker, makers, fills)))
    && (if !LastIsFull(makers, fills) then StopsAt(p, taker, makers[|fills| - 1], Left(taker, makers, fills))
        else |fills| < |makers| && Crosses(taker, makers[|fills|]) ==>
          StopsAt(p, taker, makers[|fills|], Left(taker, makers, fills)))
  }

  /** With this left the taker cannot pay for one unit of the maker. */
  predicate StopsAt(p: Product, taker: BookOrder, maker: BookOrder, left: int) {
    !Bears(p, taker, maker, left - Cost(taker, maker))
  }

  /** The queue once the fills are taken. */
  function Remaining(makers: seq<BookOrder>, fills: seq<int>): seq<BookOrder>
    requires |fills| <= |makers|
  {
    if fills == [] then makers
    else Reduced(makers[|fills| - 1], fills[|fills| - 1]) + makers[|fills|..]
  }

  function WithBudget(taker: BookOrder, left: int): BookOrder {
    if SpendsFunds(taker) then taker.(funds := left) else taker.(size := left)
  }

  /** The logs of the fills, trade by trade. */
  function LogsOf(logSeq: nat, tradeSeq: nat, taker: BookOrder, makers: seq<BookOrder>, fills: seq<int>): seq<Log>
    requires |fills| <= |makers|
    decreases |fills|
  {
    if fills == [] then [] else
      var logs := TradeLogs(logSeq, tradeSeq, taker, makers[0], fills[0]);
      logs + LogsOf(logSeq + |logs|, tradeSeq + 1, taker, makers[1..], fills[1..])
  }

  // ---- what can be paid ----

  lemma BearsMore(p: Product, taker: BookOrder, maker: BookOrder, left: int, more: int)
    requires Bears(p, taker, maker, left) && left <= more
    ensures Bears(p, taker, maker, more)
  {
    if SpendsFunds(taker) {
      OwesNoMore(p, left, more, maker.price);
    }
  }

  /** What a trade leaves is more than it would be with one unit less to spend. */
  lemma {:induction false} BearsAboveCost(p: Product, taker: BookOrder, maker: BookOrder, left: int)
    requires Bears(p, taker, maker, left) && maker.price > 0
    ensures left > -Cost(taker, maker)
  {
    hide DivUnit;
    if SpendsFunds(taker) && left < 0 {
      UnitsAreMore(DivUnit(p), -left);
      assert 2 * DivUnit(p) * -left == 2 * (DivUnit(p) * -left);
    }
  }

  lemma {:induction false} NothingLeftStops(p: Product, taker: BookOrder, maker: BookOrder, left: int)
    requires left <= 0 && maker.price > 0
    ensures StopsAt(p, taker, maker, left)
  {
    if Bears(p, taker, maker, left - Cost(taker, maker)) {
      BearsAboveCost(p, taker, maker, left - Cost(taker, maker));
    }
  }

  lemma FundsAreBorne(p: Product, taker: BookOrder, maker: BookOrder, left: int)
    requires left >= 0 && maker.price > 0
    ensures Bears(p, taker, maker, left)
  {
    FundedOwesNothing(p, left, maker.price);
  }

  // ---- uniqueness ----

  /** A fill that empties the first maker goes on as a fill of the rest of the queue. */
  lemma {:induction false} TailFill(p: Product, taker: BookOrder, makers: seq<BookOrder>, fills: seq<int>)
    requires IsPriorityFill(p, taker, makers, fills) && fills != [] && fills[0] == makers[0].size
    ensures IsPriorityFill(p, Spend(taker, fills[0], makers[0].price), makers[1..], fills[1..])
  {
    hide OwesLittle;
    var taker' := Spend(taker, fills[0], makers[0].price);
    SamePaid(taker, taker', makers[1..], fills[1..]);
    assert Left(taker', makers[1..], fills[1..]) == Left(taker, makers, fills);
    assert forall i :: 0 <= i < |fills| - 1 ==> fills[1..][i] == fills[i + 1] && makers[1..][i] == makers[i + 1];
    assert LastIsFull(makers, fills) == LastIsFull(makers[1..], fills[1..]);
  }

  lemma {:induction false} ConsFill(p: Product, taker: BookOrder, makers: seq<BookOrder>, fills: seq<int>)
    requires makers != [] && makers[0].size > 0 && Crosses(taker, makers[0])
    requires var taker' := Spend(taker, makers[0].size, makers[0].price);
             IsPriorityFill(p, taker', makers[1..], fills) && Bears(p, taker, makers[0], Budget(taker'))
    ensures |fills| < |makers| && IsPriorityFill(p, taker, makers, [makers[0].size] + fills)
    ensures Left(taker, makers, [makers[0].size] + fills)
            == Left(Spend(taker, makers[0].size, makers[0].price), makers[1..], fills)
  {
    hide OwesLittle;
    var taker' := Spend(taker, makers[0].size, makers[0].price);
    var all := [makers[0].size] + fills;
    assert all[1..] == fills;
    SamePaid(taker, taker', makers[1..], fills);
    assert Left(taker, makers, all) == Left(taker', makers[1..], fills);
    assert forall i :: 0 < i < |all| ==> all[i] == fills[i - 1] && makers[i] == makers[1..][i - 1];
    assert LastIsFull(makers, all) == LastIsFull(makers[1..], fills);
  }

  lemma SamePaid(taker: BookOrder, taker': BookOrder, makers: seq<BookOrder>, fills: seq<int>)
    requires |fills| <= |makers| && SpendsFunds(taker) == SpendsFunds(taker')
    ensures Paid(taker, makers, fills) == Paid(taker', makers, fills)
  {
  }

  /** What the first fill leaves can be borne: the later ones are paid from it. */
  lemma {:induction false} FirstIsBorne(p: Product, taker: BookOrder, makers: seq<BookOrder>, fills: seq<int>)
    requires Priced(makers) && IsPriorityFill(p, taker, makers, fills) && fills != []
    ensures Bears(p, taker, makers[0], Budget(taker) - fills[0] * Cost(taker, makers[0]))
    decreases |fills|
  {
    hide OwesLittle, IsPriorityFill;
    if |fills| == 1 {
      OneFill(p, taker, makers, fills);
    } else {
      FullFirst(p, taker, makers, fills);
      TailFill(p, taker, makers, fills);
      var taker' := Spend(taker, fills[0], makers[0].price);
      FirstIsBorne(p, taker', makers[1..], fills[1..]);
      BearsAboveCost(p, taker', makers[1], Budget(taker') - fills[1] * Cost(taker', makers[1]));
      AtLeastOne(fills[1], Cost(taker', makers[1]));
      FundsAreBorne(p, taker, makers[0], Budget(taker'));
    }
  }

  lemma OneFill(p: Product, taker: BookOrder, makers: seq<BookOrder>, fills: seq<int>)
    requires IsPriorityFill(p, taker, makers, fills) && |fills| == 1
    ensures makers != []
    ensures Left(taker, makers, fills) == Budget(taker) - fills[0] * Cost(taker, makers[0])
    ensures Bears(p, taker, makers[0], Left(taker, makers, fills))
  {
    hide OwesLittle;
    assert fills[1..] == [] && Paid(taker, makers[1..], []) == 0;
  }

  lemma FullFirst(p: Product, taker: BookOrder, makers: seq<BookOrder>, fills: seq<int>)
    requires IsPriorityFill(p, taker, makers, fills) && |fills| > 1
    ensures |fills| <= |makers| && fills[0] == makers[0].size && fills[1] >= 1
  {
    hide OwesLittle;
  }

  /** There is one priority fill of a queue: its sizes, and so its trades, its makers left and
      what the taker has left, are decided by the two orders' terms alone. */
  lemma {:induction false} PriorityFillIsUnique(p: Product, taker: BookOrder, makers: seq<BookOrder>,
                                                f: seq<int>, g: seq<int>)
    requires Priced(makers) && IsPriorityFill(p, taker, makers, f) && IsPriorityFill(p, taker, makers, g)
    ensures f == g
    decreases |makers|
  {
    hide OwesLittle;
    if f == [] || g == [] {
      NothingOrSomething(p, taker, makers, f, g);
      NothingOrSomething(p, taker, makers, g, f);
    } else if f[0] != g[0] {
      PartialFirst(p, taker, makers, f, g);
      PartialFirst(p, taker, makers, g, f);
    } else if f[0] == makers[0].size {
      TailFill(p, taker, makers, f);
      TailFill(p, taker, makers, g);
      PriorityFillIsUnique(p, Spend(taker, f[0], makers[0].price), makers[1..], f[1..], g[1..]);
      assert f == [f[0]] + f[1..] && g == [g[0]] + g[1..];
    }
  }

  lemma {:induction false} NothingOrSomething(p: Product, taker: BookOrder, makers: seq<BookOrder>, f: seq<int>, g: seq<int>)
    requires Priced(makers) && IsPriorityFill(p, taker, makers, f) && IsPriorityFill(p, taker, makers, g)
    ensures f == [] ==> g == []
  {
    hide OwesLittle;
    if g != [] {
      FirstIsBorne(p, taker, makers, g);
      var c := Cost(taker, makers[0]);
      AtLeastOne(g[0], c);
      BearsMore(p, taker, makers[0], Budget(taker) - g[0] * c, Budget(taker) - c);
    }
  }

  lemma AtLeastOne(n: int, c: int)
    requires n >= 1 && c >= 1
    ensures n * c >= c
  {
  }

  lemma {:induction false} PartialFirst(p: Product, taker: BookOrder, makers: seq<BookOrder>, f: seq<int>, g: seq<int>)
    requires Priced(makers) && IsPriorityFill(p, taker, makers, f) && IsPriorityFill(p, taker, makers, g)
    requires f != [] && g != []
    ensures f[0] >= g[0]
  {
    hide OwesLittle;
    if f[0] < makers[0].size && f[0] < g[0] {
      // the partial fill is the last one: what it leaves does not pay for one unit more
      var c := Cost(taker, makers[0]);
      OneFill(p, taker, makers, f);
      FirstIsBorne(p, taker, makers, g);
      FewerUnits(g[0], f[0] + 1, c);
      BearsMore(p, taker, makers[0], Budget(taker) - g[0] * c, Left(taker, makers, f) - c);
    }
  }

  lemma FewerUnits(n: int, m: int, c: int)
    requires c >= 1
    ensures n * c < m * c ==> n < m
    ensures m * c == (m - 1) * c + c
  {
    if n >= m {
      assert n * c == m * c + (n - m) * c;
    }
  }

  // ---- the matching loop ----

  /** A taker that can pay: it has a budget, and no price it reaches would make it sell back. */
  ghost predicate CanPay(p: Product, taker: BookOrder, makers: seq<BookOrder>) {
    && Budget(taker) > 0
    && (SpendsFunds(taker) ==> SafeSide(p, makers) && taker.price <= MaxPrice(p))
  }

  /** The size of one trade is the most the taker can pay for, up to the maker's size. */
  lemma {:induction false} TradeSizeIsMaximal(p: Product, taker: BookOrder, maker: BookOrder)
    requires Budget(taker) > 0 && maker.size > 0 && maker.price > 0
    ensures var size := TradeSize(p, taker, maker);
            && 0 <= size <= maker.size
            && Bears(p, taker, maker, Budget(taker) - size * Cost(taker, maker))
            && (size < maker.size ==> StopsAt(p, taker, maker, Budget(taker) - size * Cost(taker, maker)))
            && Budget(Spend(taker, size, maker.price)) == Budget(taker) - size * Cost(taker, maker)
  {
    hide AffordableSize, DivUnit, OwesLittle;
    if SpendsFunds(taker) {
      TradeOwesLittle(p, taker, maker);
      if TradeSize(p, taker, maker) < maker.size {
        OneMoreIsTooMuch(p, taker.funds, maker.price);
      }
    }
  }

  /** Of the size the funds are said to afford, one unit more would cost more than the rounding
      allows for. */
  lemma {:induction false} OneMoreIsTooMuch(p: Product, funds: nat, price: int)
    requires price > 0
    ensures !OwesLittle(p, funds - AffordableSize(p, funds, price) * price - price, price)
  {
    hide DivUnit, TruncatedQuotient, RoundedQuotient;
    var unit, floor, rest := DivUnit(p), funds / price, funds % price;
    RoundedThenCut(funds, price, unit);
    FloorIsTheMostAffordable(funds, price);
    assert funds == floor * price + rest;
    if AffordableSize(p, funds, price) != floor {
      assert (floor + 1) * price == floor * price + price;
      assert 2 * unit * (2 * price - rest) == 2 * (unit * (2 * price - rest));
      UnitsAreMore(unit, 2 * price - rest);
    }
  }

  lemma UnitsAreMore(unit: int, n: int)
    requires unit >= 1 && n >= 0
    ensures unit * n >= n
  {
    assert (unit - 1) * n >= 0;
  }

  ghost predicate FollowsPriority(p: Product, taker: BookOrder, makers: seq<BookOrder>, logSeq: nat, tradeSeq: nat,
                                  m: Matched, fills: seq<int>)
  {
    && IsPriorityFill(p, taker, makers, fills)
    && m.taker == WithBudget(taker, Left(taker, makers, fills))
    && m.makers == Remaining(makers, fills)
    && m.logs == LogsOf(logSeq, tradeSeq, taker, makers, fills)
  }

  /** What is borne or not enough at one maker is so at a dearer one. */
  lemma {:induction false} StopsLaterToo(p: Product, taker: BookOrder, maker: BookOrder, later: BookOrder, left: int)
    requires 0 < maker.price && (SpendsFunds(taker) ==> maker.price <= later.price)
    ensures StopsAt(p, taker, maker, left) ==> StopsAt(p, taker, later, left)
    ensures Bears(p, taker, maker, left) ==> Bears(p, taker, later, left)
  {
    if SpendsFunds(taker) && StopsAt(p, taker, maker, left) {
      GapGrows(DivUnit(p), maker.price, left, later.price - maker.price);
    }
  }

  lemma NextIsNoBetter(makers: seq<BookOrder>, taker: BookOrder)
    requires GoodSide(makers, taker.side.Opposite()) && |makers| > 1
    ensures makers[0].price > 0 && (SpendsFunds(taker) ==> makers[0].price <= makers[1].price)
  {
    assert Before(taker.side.Opposite(), KeyOf(makers[0]), KeyOf(makers[1]));
  }

  /** A taker that cannot pay for one unit of the first maker trades with none. */
  lemma {:induction false} StopsTheMatch(p: Product, taker: BookOrder, makers: seq<BookOrder>)
    requires GoodSide(makers, taker.side.Opposite())
    requires SpendsFunds(taker) ==> SafeSide(p, makers) && taker.price <= MaxPrice(p)
    requires makers != [] ==> StopsAt(p, taker, makers[0], Budget(taker)) && Bears(p, taker, makers[0], Budget(taker))
    ensures Priced(makers) && !TradesFirst(p, taker, makers)
  {
    hide OwesLittle, AffordableSize, MaxPrice, SafePrice, DivUnit, Sorted, DistinctIds;
    if makers != [] && Crosses(taker, makers[0]) {
      var size, cost := TradeSize(p, taker, makers[0]), Cost(taker, makers[0]);
      if Budget(taker) > 0 {
        TradeSizeIsMaximal(p, taker, makers[0]);
        if size >= 1 {
          AtLeastOne(size, cost);
          BearsMore(p, taker, makers[0], Budget(taker) - size * cost, Budget(taker) - cost);
        }
      } else if Budget(taker) < 0 {
        OverdrawnBuysNothing(p, taker.funds, makers[0].price);
      }
    }
  }

  /** A taker that does not trade with the first maker takes nothing. */
  lemma {:induction false} NoTrade(p: Product, taker: BookOrder, makers: seq<BookOrder>, logSeq: nat, tradeSeq: nat)
    requires GoodSide(makers, taker.side.Opposite()) && CanPay(p, taker, makers)
    requires !TradesFirst(p, taker, makers)
    ensures FollowsPriority(p, taker, makers, logSeq, tradeSeq, Match(p, taker, makers, logSeq, tradeSeq), [])
  {
    hide OwesLittle, AffordableSize;
    if makers != [] {
      TradeSizeIsMaximal(p, taker, makers[0]);
    }
  }

  /** A trade that leaves some of the first maker is the last one: what is left does not pay for one
      unit of this maker, nor of a worse one. */
  lemma {:induction false} PartialTrade(p: Product, taker: BookOrder, makers: seq<BookOrder>, logSeq: nat, tradeSeq: nat)
    requires GoodSide(makers, taker.side.Opposite()) && CanPay(p, taker, makers)
    requires TradesFirst(p, taker, makers) && TradeSize(p, taker, makers[0]) < makers[0].size
    ensures FollowsPriority(p, taker, makers, logSeq, tradeSeq, Match(p, taker, makers, logSeq, tradeSeq),
                            [TradeSize(p, taker, makers[0])])
  {
    hide OwesLittle, AffordableSize, MaxPrice, SafePrice, StopsAt, Bears, Sorted, DistinctIds, TradeLogs;
    var maker := makers[0];
    var size := TradeSize(p, taker, maker);
    var taker' := Spend(taker, size, maker.price);
    var logs := TradeLogs(logSeq, tradeSeq, taker', maker, size);
    var fills := [size];
    TradeSizeIsMaximal(p, taker, maker);
    assert fills[1..] == [];
    assert Paid(taker, makers, fills) == size * Cost(taker, maker);
    MatchUnfolds(p, taker, makers, logSeq, tradeSeq);
    StopsAlike(p, taker, taker', maker, Budget(taker'));
    TailIsGood(makers, taker.side.Opposite());
    if |makers| > 1 {
      NextIsNoBetter(makers, taker);
      StopsLaterToo(p, taker', maker, makers[1], Budget(taker'));
    }
    StopsTheMatch(p, taker', makers[1..]);
    TradeIgnoresBudget(logSeq, tradeSeq, taker, taker', maker, size);
    assert LogsOf(logSeq, tradeSeq, taker, makers, fills) == TradeLogs(logSeq, tradeSeq, taker, maker, size) + [];
  }

  lemma StopsAlike(p: Product, taker: BookOrder, taker': BookOrder, maker: BookOrder, left: int)
    requires SpendsFunds(taker) == SpendsFunds(taker')
    ensures StopsAt(p, taker, maker, left) == StopsAt(p, taker', maker, left)
    ensures Bears(p, taker, maker, left) == Bears(p, taker', maker, left)
  {
  }

  /** The matching loop takes the priority fill, and no other result would do. */
  lemma {:induction false} MatchFollowsPriority(p: Product, taker: BookOrder, makers: seq<BookOrder>,
                                                logSeq: nat, tradeSeq: nat) returns (fills: seq<int>)
    requires GoodSide(makers, taker.side.Opposite()) && CanPay(p, taker, makers)
    ensures FollowsPriority(p, taker, makers, logSeq, tradeSeq, Match(p, taker, makers, logSeq, tradeSeq), fills)
    ensures forall g :: IsPriorityFill(p, taker, makers, g) ==> g == fills
    decreases |makers|
  {
    hide Match, OwesLittle, SafePrice, MaxPrice, TradeSize, Bears, StopsAt;
    if !TradesFirst(p, taker, makers) {
      fills := [];
      NoTrade(p, taker, makers, logSeq, tradeSeq);
    } else if TradeSize(p, taker, makers[0]) < makers[0].size {
      fills := [TradeSize(p, taker, makers[0])];
      PartialTrade(p, taker, makers, logSeq, tradeSeq);
    } else {
      fills := FullTrade(p, taker, makers, logSeq, tradeSeq);
    }
    forall g | IsPriorityFill(p, taker, makers, g)
      ensures g == fills
    {
      PriorityFillIsUnique(p, taker, makers, g, fills);
    }
  }

  /** The maker taken from is there to be emptied, and the taker pays the rest of the queue no
      better. */
  lemma {:induction false} FirstIsPayable(p: Product, taker: BookOrder, makers: seq<BookOrder>)
    requires GoodSide(makers, taker.side.Opposite()) && CanPay(p, taker, makers) && makers != []
    ensures makers[0].size > 0 && makers[0].price > 0
    ensures SpendsFunds(taker) ==> SafeSide(p, makers[1..]) && taker.price <= MaxPrice(p)
    ensures Priced(makers[1..]) && GoodSide(makers[1..], taker.side.Opposite())
  {
    hide SafePrice, MaxPrice;
    TailIsGood(makers, taker.side.Opposite());
  }

  /** Nothing is left to spend: the match ends, and the first fill is the whole fill. */
  lemma {:induction false} SpentFill(p: Product, taker: BookOrder, maker: BookOrder, rest: seq<BookOrder>,
                                     logSeq: nat, tradeSeq: nat)
    requires GoodSide([maker] + rest, taker.side.Opposite()) && GoodSide(rest, taker.side.Opposite())
    requires SpendsFunds(taker) ==> SafeSide(p, rest) && taker.price <= MaxPrice(p)
    requires Budget(taker) <= 0 && Bears(p, taker, maker, Budget(taker))
    ensures IsPriorityFill(p, taker, rest, []) && Left(taker, rest, []) == Budget(taker) && Priced(rest)
    ensures Match(p, taker, rest, logSeq, tradeSeq) == Matched(taker, rest, [], logSeq, tradeSeq)
  {
    hide OwesLittle, SafePrice, MaxPrice, Bears, StopsAt, TradeSize, Sorted, DistinctIds;
    if rest != [] {
      NextIsNoBetter([maker] + rest, taker);
      StopsLaterToo(p, taker, maker, rest[0], Budget(taker));
      NothingLeftStops(p, taker, rest[0], Budget(taker));
    }
    StopsTheMatch(p, taker, rest);
  }

  /** A trade that empties the first maker goes on with the next. */
  lemma {:induction false} FullTrade(p: Product, taker: BookOrder, makers: seq<BookOrder>,
                                     logSeq: nat, tradeSeq: nat) returns (fills: seq<int>)
    requires GoodSide(makers, taker.side.Opposite()) && CanPay(p, taker, makers)
    requires TradesFirst(p, taker, makers) && TradeSize(p, taker, makers[0]) >= makers[0].size
    ensures FollowsPriority(p, taker, makers, logSeq, tradeSeq, Match(p, taker, makers, logSeq, tradeSeq), fills)
    decreases |makers|, 0
  {
    hide Match, TradeSize, GoodSide, Paid, LogsOf, Remaining, IsPriorityFill, TradeLogs, OwesLittle, SafePrice, MaxPrice, Bears,
         StopsAt;
    var maker := makers[0];
    FirstIsPayable(p, taker, makers);
    TradeSizeIsMaximal(p, taker, maker);
    var size := maker.size;
    var taker' := Spend(taker, size, maker.price);
    var logs := TradeLogs(logSeq, tradeSeq, taker', maker, size);
    var rest: seq<int>;
    MatchUnfolds(p, taker, makers, logSeq, tradeSeq);
    if Budget(taker') <= 0 {
      rest := [];
      assert [maker] + makers[1..] == makers;
      StopsAlike(p, taker, taker', maker, Budget(taker'));
      SpentFill(p, taker', maker, makers[1..], logSeq + |logs|, tradeSeq + 1);
      NothingTaken(logSeq + |logs|, tradeSeq + 1, taker, makers[1..]);
    } else {
      rest := MatchFollowsPriority(p, taker', makers[1..], logSeq + |logs|, tradeSeq + 1);
    }
    fills := [size] + rest;
    assert fills[1..] == rest;
    ConsFill(p, taker, makers, rest);
    RemainingCons(makers, rest);
    LogsIgnoreBudget(logSeq + |logs|, tradeSeq + 1, taker, taker', makers[1..], rest);
    TradeIgnoresBudget(logSeq, tradeSeq, taker, taker', maker, size);
    LogsCons(logSeq, tradeSeq, taker, makers, size, rest);
  }

  lemma NothingTaken(logSeq: nat, tradeSeq: nat, taker: BookOrder, makers: seq<BookOrder>)
    ensures Remaining(makers, []) == makers && LogsOf(logSeq, tradeSeq, taker, makers, []) == []
  {
  }

  lemma TradeIgnoresBudget(logSeq: nat, tradeSeq: nat, t: BookOrder, t': BookOrder, maker: BookOrder, size: int)
    requires t.orderId == t'.orderId && t.userId == t'.userId && t.tif == t'.tif
    ensures TradeLogs(logSeq, tradeSeq, t, maker, size) == TradeLogs(logSeq, tradeSeq, t', maker, size)
  {
  }

  lemma {:induction false} LogsCons(logSeq: nat, tradeSeq: nat, taker: BookOrder, makers: seq<BookOrder>,
                                    size: int, rest: seq<int>)
    requires |rest| < |makers|
    ensures var logs := TradeLogs(logSeq, tradeSeq, taker, makers[0], size);
            LogsOf(logSeq, tradeSeq, taker, makers, [size] + rest)
            == logs + LogsOf(logSeq + |logs|, tradeSeq + 1, taker, makers[1..], rest)
  {
    hide TradeLogs;
    assert ([size] + rest)[1..] == rest;
  }

  lemma RemainingCons(makers: seq<BookOrder>, rest: seq<int>)
    requires makers != [] && |rest| < |makers|
    ensures Remaining(makers, [makers[0].size] + rest) == [] + Remaining(makers[1..], rest)
  {
    var fills := [makers[0].size] + rest;
    if rest != [] {
      assert makers[1..][|rest| - 1] == makers[|fills| - 1];
      assert makers[1..][|rest|..] == makers[|fills|..];
    }
  }

  lemma LogsIgnoreBudget(logSeq: nat, tradeSeq: nat, t: BookOrder, t': BookOrder, makers: seq<BookOrder>, fills: seq<int>)
    requires |fills| <= |makers|
    requires t.orderId == t'.orderId && t.userId == t'.userId && t.tif == t'.tif
    ensures LogsOf(logSeq, tradeSeq, t, makers, fills) == LogsOf(logSeq, tradeSeq, t', makers, fills)
    decreases |fills|
  {
    if fills != [] {
      var logs := TradeLogs(logSeq, tradeSeq, t, makers[0], fills[0]);
      LogsIgnoreBudget(logSeq + |logs|, tradeSeq + 1, t, t', makers[1..], fills[1..]);
    }
  }
}
