/** What the log says of one order over a whole run (matching/log.go, matching/order_book.go). */
module Lifecycle {
  import opened Exchange
  import opened Depths
  import opened Matcher
  import opened Invariants
  import opened Runs
  import opened Division
  import opened TimeInForces
  import opened Overdrafts

  /** The states of an automaton that reads the log for one id. A taker's matches come first; then
      the order is either done or open; an open order is matched as a maker until it is done for
      exactly what it has left; and nothing follows. Any log out of place breaks it for good. */
  datatype Stage = Unseen | Taking | Resting | Closed | Broken

  /** The stage of an order, the size and the value it has traded, the size still to trade or
      closed with, and the price and side it was opened at. */
  datatype Life = Life(stage: Stage, filled: int, value: int, remaining: int, price: int, side: Side)

  const Unborn: Life := Life(Unseen, 0, 0, 0, 0, Buy)

  function Traded(l: Life, stage: Stage, size: int, price: int): Life {
    l.(stage := stage, filled := l.filled + size, value := l.value + size * price)
  }

  function Advance(l: Life, log: Log, id: nat): Life {
    match log
    case OpenLog(_, orderId, _, remainingSize, price, side, _) =>
      if orderId != id then l
      else if (l.stage == Unseen || l.stage == Taking) && remainingSize > 0 && side != OtherSide then
        l.(stage := Resting, remaining := remainingSize, price := price, side := side)
      else l.(stage := Broken)
    case MatchLog(_, _, takerId, makerId, _, _, side, price, size, _, _) =>
      if takerId != id && makerId != id then l
      else if takerId == id && makerId != id && (l.stage == Unseen || l.stage == Taking) then
        Traded(l, Taking, size, price)
      else if makerId == id && takerId != id && l.stage == Resting
              && 0 < l.remaining && size <= l.remaining && price == l.price && side == l.side then
        Traded(l, Resting, size, price).(remaining := l.remaining - size)
      else l.(stage := Broken)
    case DoneLog(_, orderId, _, price, remainingSize, _, side, _) =>
      if orderId != id then l
      else if l.stage == Unseen || l.stage == Taking
              || (l.stage == Resting && l.remaining == remainingSize && price == l.price && side == l.side) then
        l.(stage := Closed, remaining := remainingSize)
      else l.(stage := Broken)
  }

  function LifeOf(l: Life, logs: seq<Log>, id: nat): Life
    decreases |logs|
  {
    if logs == [] then l else LifeOf(Advance(l, logs[0], id), logs[1..], id)
  }

  lemma LifeAppend(l: Life, a: seq<Log>, c: seq<Log>, id: nat)
    ensures LifeOf(l, a + c, id) == LifeOf(LifeOf(l, a, id), c, id)
    decreases |a|
  {
    if a == [] {
      assert a + c == c;
    } else {
      assert (a + c)[1..] == a[1..] + c;
      LifeAppend(Advance(l, a[0], id), a[1..], c, id);
    }
  }

  lemma LifeOne(l: Life, log: Log, id: nat)
    ensures LifeOf(l, [log], id) == Advance(l, log, id)
  {
    assert [log][1..] == [];
  }

  /** The size and value an order still has to trade are worth the same before and after. */
  ghost predicate SameAccount(l: Life, l': Life, price: int) {
    && l'.filled + l'.remaining == l.filled + l.remaining
    && l'.value + l'.remaining * price == l.value + l.remaining * price
  }

  /** What a life says of a place in the queue: the order resting there, or that there is none. */
  ghost predicate Tracks(l: Life, place: Option<BookOrder>) {
    match place
    case Some(o) => l.stage == Resting && l.remaining == o.size > 0 && l.price == o.price && l.side == o.side
    case None => l == Unborn || l.stage == Closed
  }

  // ---- one trade ----

  lemma TradeSkips(l: Life, logSeq: nat, tradeSeq: nat, taker: BookOrder, maker: BookOrder, size: int, id: nat)
    requires taker.orderId != id && maker.orderId != id
    ensures LifeOf(l, TradeLogs(logSeq, tradeSeq, taker, maker, size), id) == l
  {
    TwoLogs(l, logSeq, tradeSeq, taker, maker, size, id);
  }

  lemma TwoLogs(l: Life, logSeq: nat, tradeSeq: nat, taker: BookOrder, maker: BookOrder, size: int, id: nat)
    ensures LifeOf(l, TradeLogs(logSeq, tradeSeq, taker, maker, size), id)
            == (var l1 := Advance(l, NewMatchLog(logSeq + 1, tradeSeq + 1, taker, maker, size), id);
                if maker.size == size then Advance(l1, NewDoneLog(logSeq + 2, maker, 0, Filled), id) else l1)
  {
    var traded := NewMatchLog(logSeq + 1, tradeSeq + 1, taker, maker, size);
    LifeOne(l, traded, id);
    if maker.size == size {
      var end := NewDoneLog(logSeq + 2, maker, 0, Filled);
      LifeAppend(l, [traded], [end], id);
      LifeOne(Advance(l, traded, id), end, id);
    }
  }

  /** A trade moves its size and value from what the maker has left to what it has traded, and
      closes it when nothing is left. */
  lemma {:induction false} TradeOfMaker(l: Life, logSeq: nat, tradeSeq: nat, taker: BookOrder, maker: BookOrder, size: int)
    requires taker.orderId != maker.orderId && Tracks(l, Some(maker)) && size <= maker.size && maker.size > 0
    ensures var l' := LifeOf(l, TradeLogs(logSeq, tradeSeq, taker, maker, size), maker.orderId);
            && SameAccount(l, l', maker.price)
            && l'.remaining == maker.size - size
            && l'.stage == (if maker.size == size then Closed else Resting)
            && l'.price == l.price && l'.side == l.side
  {
    TwoLogs(l, logSeq, tradeSeq, taker, maker, size, maker.orderId);
    assert (l.remaining - size) * maker.price == l.remaining * maker.price - size * maker.price;
  }

  lemma {:induction false} TradeOfTaker(l: Life, logSeq: nat, tradeSeq: nat, taker: BookOrder, maker: BookOrder, size: int)
    requires taker.orderId != maker.orderId && (l.stage == Unseen || l.stage == Taking)
    ensures LifeOf(l, TradeLogs(logSeq, tradeSeq, taker, maker, size), taker.orderId)
            == Traded(l, Taking, size, maker.price)
  {
    TwoLogs(l, logSeq, tradeSeq, taker, maker, size, taker.orderId);
  }

  // ---- a whole match ----

  lemma HeadOrTail(s: seq<BookOrder>, id: nat)
    requires s != []
    ensures HasId(s, id) <==> s[0].orderId == id || HasId(s[1..], id)
  {
    assert s == [s[0]] + s[1..];
    assert s[0] in s;
  }

  /** A match leaves alone the life of any order that takes no part. */
  lemma {:induction false} MatchSkips(p: Product, taker: BookOrder, makers: seq<BookOrder>, logSeq: nat, tradeSeq: nat,
                                      id: nat, l: Life)
    requires Priced(makers) && taker.orderId != id && !HasId(makers, id)
    ensures LifeOf(l, Match(p, taker, makers, logSeq, tradeSeq).logs, id) == l
    decreases |makers|
  {
    if TradesFirst(p, taker, makers) {
      MatchUnfolds(p, taker, makers, logSeq, tradeSeq);
      HeadOrTail(makers, id);
      var size := TradeSize(p, taker, makers[0]);
      var taker' := Spend(taker, size, makers[0].price);
      var logs := TradeLogs(logSeq, tradeSeq, taker', makers[0], size);
      TradeSkips(l, logSeq, tradeSeq, taker', makers[0], size, id);
      LifeAppend(l, logs, MatchRest(p, taker, makers, logSeq, tradeSeq).logs, id);
      if !Exhausted(taker') {
        MatchSkips(p, taker', makers[1..], logSeq + |logs|, tradeSeq + 1, id, l);
      }
    }
  }

  /** A match keeps the life of a maker in step with what is left of it in the queue. */
  ghost predicate MakerKept(l: Life, l': Life, maker: BookOrder, place: Option<BookOrder>) {
    && SameAccount(l, l', maker.price)
    && match place
       case Some(o) => SameButSize(o, maker) && Tracks(l', Some(o))
       case None => l'.stage == Closed && l'.remaining == 0
  }

  /** The maker is first in the queue: one trade, and the rest of the match passes it by. */
  lemma {:induction false} MatchOfFirst(p: Product, taker: BookOrder, makers: seq<BookOrder>, logSeq: nat,
                                        tradeSeq: nat, l: Life)
    requires GoodSide(makers, taker.side.Opposite()) && TradesFirst(p, taker, makers)
    requires taker.orderId != makers[0].orderId && Tracks(l, Some(makers[0]))
    ensures var m := Match(p, taker, makers, logSeq, tradeSeq);
            MakerKept(l, LifeOf(l, m.logs, makers[0].orderId), makers[0], Lookup(m.makers, makers[0].orderId))
  {
    FirstIsAlone(makers, taker.side.Opposite());
    hide Match, TradeLogs, Advance, TradeSize, Lookup, GoodSide, Priced;
    var maker := makers[0];
    var size := TradeSize(p, taker, maker);
    var taker' := Spend(taker, size, maker.price);
    var logs := TradeLogs(logSeq, tradeSeq, taker', maker, size);
    var rest := MatchRest(p, taker, makers, logSeq, tradeSeq);
    MatchUnfolds(p, taker, makers, logSeq, tradeSeq);
    LifeAppend(l, logs, rest.logs, maker.orderId);
    SizeFits(p, taker, maker);
    assert maker.size > 0;
    TradeOfMaker(l, logSeq, tradeSeq, taker', maker, size);
    RestSkips(p, taker, makers, logSeq, tradeSeq, maker.orderId, LifeOf(l, logs, maker.orderId));
    LookupKept(maker, size, rest.makers);
  }

  lemma FirstIsAlone(s: seq<BookOrder>, side: Side)
    requires GoodSide(s, side) && s != []
    ensures Priced(s) && GoodSide(s[1..], side) && !HasId(s[1..], s[0].orderId)
  {
    TailIsGood(s, side);
    TailDistinct(s);
  }

  lemma LaterMaker(s: seq<BookOrder>, o: BookOrder, side: Side)
    requires GoodSide(s, side) && Lookup(s, o.orderId) == Some(o)
    ensures s != [] && s[0].price > 0 && Priced(s) && GoodSide(s[1..], side)
    ensures if s[0].orderId == o.orderId then s[0] == o else Lookup(s[1..], o.orderId) == Some(o)
  {
    TailIsGood(s, side);
  }

  lemma {:induction false} MatchOfMaker(p: Product, taker: BookOrder, makers: seq<BookOrder>, logSeq: nat, tradeSeq: nat,
                                        maker: BookOrder, l: Life)
    requires GoodSide(makers, taker.side.Opposite()) && taker.orderId != maker.orderId
    requires Lookup(makers, maker.orderId) == Some(maker) && Tracks(l, Some(maker))
    ensures var m := Match(p, taker, makers, logSeq, tradeSeq);
            MakerKept(l, LifeOf(l, m.logs, maker.orderId), maker, Lookup(m.makers, maker.orderId))
    decreases |makers|
  {
    hide *;
    LaterMaker(makers, maker, taker.side.Opposite());
    if !TradesFirst(p, taker, makers) {
      NoTradeNoLogs(p, taker, makers, logSeq, tradeSeq, maker.orderId, l);
      Untouched(l, maker);
    } else if makers[0].orderId == maker.orderId {
      MatchOfFirst(p, taker, makers, logSeq, tradeSeq, l);
    } else {
      PastFirst(p, taker, makers, logSeq, tradeSeq, maker.orderId, l);
      var size := TradeSize(p, taker, makers[0]);
      var taker' := Spend(taker, size, makers[0].price);
      var logs := TradeLogs(logSeq, tradeSeq, taker', makers[0], size);
      RestIsMatch(p, taker, makers, logSeq, tradeSeq, maker.orderId, l);
      if Exhausted(taker') {
        Untouched(l, maker);
      } else {
        MatchOfMaker(p, taker', makers[1..], logSeq + |logs|, tradeSeq + 1, maker, l);
      }
    }
  }

  lemma NoTradeNoLogs(p: Product, taker: BookOrder, makers: seq<BookOrder>, logSeq: nat, tradeSeq: nat, id: nat, l: Life)
    requires Priced(makers) && !TradesFirst(p, taker, makers)
    ensures Match(p, taker, makers, logSeq, tradeSeq).makers == makers
    ensures LifeOf(l, Match(p, taker, makers, logSeq, tradeSeq).logs, id) == l
  {
  }

  /** The first trade, seen by an order that is not in it. */
  lemma {:induction false} PastFirst(p: Product, taker: BookOrder, makers: seq<BookOrder>, logSeq: nat, tradeSeq: nat, id: nat, l: Life)
    requires Priced(makers) && TradesFirst(p, taker, makers) && taker.orderId != id && makers[0].orderId != id
    ensures var m := Match(p, taker, makers, logSeq, tradeSeq);
            var rest := MatchRest(p, taker, makers, logSeq, tradeSeq);
            LifeOf(l, m.logs, id) == LifeOf(l, rest.logs, id) && Lookup(m.makers, id) == Lookup(rest.makers, id)
  {
    hide Match, TradeLogs, Advance, Lookup;
    var size := TradeSize(p, taker, makers[0]);
    var taker' := Spend(taker, size, makers[0].price);
    var logs := TradeLogs(logSeq, tradeSeq, taker', makers[0], size);
    var rest := MatchRest(p, taker, makers, logSeq, tradeSeq);
    MatchUnfolds(p, taker, makers, logSeq, tradeSeq);
    LifeAppend(l, logs, rest.logs, id);
    TradeSkips(l, logSeq, tradeSeq, taker', makers[0], size, id);
    LookupPast(makers[0], size, rest.makers, id);
  }

  lemma RestIsMatch(p: Product, taker: BookOrder, makers: seq<BookOrder>, logSeq: nat, tradeSeq: nat, id: nat, l: Life)
    requires Priced(makers) && TradesFirst(p, taker, makers)
    ensures var size := TradeSize(p, taker, makers[0]);
            var taker' := Spend(taker, size, makers[0].price);
            var logs := TradeLogs(logSeq, tradeSeq, taker', makers[0], size);
            var rest := MatchRest(p, taker, makers, logSeq, tradeSeq);
            && taker'.orderId == taker.orderId && taker'.side == taker.side
            && if Exhausted(taker') then rest.makers == makers[1..] && LifeOf(l, rest.logs, id) == l
               else rest == Match(p, taker', makers[1..], logSeq + |logs|, tradeSeq + 1)
  {
  }

  lemma Untouched(l: Life, maker: BookOrder)
    requires Tracks(l, Some(maker))
    ensures MakerKept(l, l, maker, Some(maker))
  {
  }

  /** The rest of a match, for an id that is not in it. */
  lemma {:induction false} RestSkips(p: Product, taker: BookOrder, makers: seq<BookOrder>, logSeq: nat, tradeSeq: nat, id: nat, l: Life)
    requires Priced(makers) && TradesFirst(p, taker, makers) && taker.orderId != id && !HasId(makers[1..], id)
    ensures var rest := MatchRest(p, taker, makers, logSeq, tradeSeq);
            LifeOf(l, rest.logs, id) == l && !HasId(rest.makers, id)
  {
    var size := TradeSize(p, taker, makers[0]);
    var taker' := Spend(taker, size, makers[0].price);
    var logs := TradeLogs(logSeq, tradeSeq, taker', makers[0], size);
    if !Exhausted(taker') {
      MatchSkips(p, taker', makers[1..], logSeq + |logs|, tradeSeq + 1, id, l);
      MatchSurvivors(p, taker', makers[1..], logSeq + |logs|, tradeSeq + 1);
      SurvivorsShrink(Match(p, taker', makers[1..], logSeq + |logs|, tradeSeq + 1).makers, makers[1..]);
    }
  }

  lemma LookupKept(o: BookOrder, size: int, rest: seq<BookOrder>)
    requires !HasId(rest, o.orderId)
    ensures Lookup(Reduced(o, size) + rest, o.orderId)
            == if o.size == size then None else Some(o.(size := o.size - size))
  {
    if o.size == size {
      assert Reduced(o, size) + rest == rest;
    }
  }

  lemma LookupPast(o: BookOrder, size: int, rest: seq<BookOrder>, id: nat)
    requires o.orderId != id
    ensures Lookup(Reduced(o, size) + rest, id) == Lookup(rest, id)
  {
    if o.size == size {
      assert Reduced(o, size) + rest == rest;
    } else {
      assert (Reduced(o, size) + rest)[1..] == rest;
    }
  }

  /** What a taker has traded and what it has left, in size and in value. */
  ghost predicate TakerKept(l: Life, l': Life, t: BookOrder, t': BookOrder) {
    && (l' == l || l'.stage == Taking)
    && (if SpendsFunds(t) then l'.value + t'.funds == l.value + t.funds
        else l'.filled + t'.size == l.filled + t.size)
    && (t.otype == Limit ==>
          if t.side == Buy then l'.value + t'.size * t.price <= l.value + t.size * t.price
          else l'.value + t'.size * t.price >= l.value + t.size * t.price)
  }

  lemma {:induction false} MatchOfTaker(p: Product, taker: BookOrder, makers: seq<BookOrder>, logSeq: nat,
                                        tradeSeq: nat, l: Life)
    requires GoodSide(makers, taker.side.Opposite()) && !HasId(makers, taker.orderId)
    requires l.stage == Unseen || l.stage == Taking
    requires !SpendsFunds(taker) ==> taker.size >= 0
    ensures var m := Match(p, taker, makers, logSeq, tradeSeq);
            TakerKept(l, LifeOf(l, m.logs, taker.orderId), taker, m.taker)
    decreases |makers|
  {
    if TradesFirst(p, taker, makers) {
      MatchUnfolds(p, taker, makers, logSeq, tradeSeq);
      TailIsGood(makers, taker.side.Opposite());
      HeadOrTail(makers, taker.orderId);
      var first := makers[0];
      var size := TradeSize(p, taker, first);
      var taker' := Spend(taker, size, first.price);
      var logs := TradeLogs(logSeq, tradeSeq, taker', first, size);
      var rest := MatchRest(p, taker, makers, logSeq, tradeSeq);
      LifeAppend(l, logs, rest.logs, taker.orderId);
      TradeOfTaker(l, logSeq, tradeSeq, taker', first, size);
      var l1 := LifeOf(l, logs, taker.orderId);
      OneTradeKept(p, taker, first, size, l);
      if !Exhausted(taker') {
        MatchOfTaker(p, taker', makers[1..], logSeq + |logs|, tradeSeq + 1, l1);
      }
    }
  }

  lemma OneTradeKept(p: Product, taker: BookOrder, maker: BookOrder, size: int, l: Life)
    requires PricesCross(taker.side, taker.price, maker.price) && maker.price > 0 && maker.size > 0
    requires size == TradeSize(p, taker, maker)
    requires !SpendsFunds(taker) ==> taker.size >= 0
    ensures TakerKept(l, Traded(l, Taking, size, maker.price), taker, Spend(taker, size, maker.price))
  {
    hide AffordableSize;
    if taker.otype == Limit {
      assert 0 <= size;
      assert (taker.size - size) * taker.price == taker.size * taker.price - size * taker.price;
      Ordered(size, maker.price, taker.price);
      Ordered(size, taker.price, maker.price);
    }
  }

  lemma Ordered(n: nat, a: int, b: int)
    ensures a <= b ==> n * a <= n * b
  {
    if a <= b {
      assert n * b == n * a + n * (b - a);
    }
  }

  // ---- one step of the engine ----

  function Find(b: Book, id: nat): Option<BookOrder> {
    var bid := Lookup(b.bids, id);
    if bid.Some? then bid else Lookup(b.asks, id)
  }

  lemma FindOnSide(b: Book, side: Side, id: nat)
    requires Invariant(b) && side != OtherSide
    ensures Lookup(b.Resting(side), id).Some? ==> Find(b, id) == Lookup(b.Resting(side), id)
    ensures Lookup(b.Resting(side), id).None? ==> Find(b, id) == Lookup(b.Resting(side.Opposite()), id)
  {
    OneSideOnly(b);
  }

  lemma OneSideOnly(b: Book)
    requires Apart(b)
    ensures forall id :: !HasId(b.bids, id) || !HasId(b.asks, id)
  {
    forall x, y | x in b.bids && y in b.asks
      ensures x.orderId != y.orderId
    {
      var i :| 0 <= i < |b.bids| && b.bids[i] == x;
      var j :| 0 <= j < |b.asks| && b.asks[j] == y;
    }
  }

  /** An order that a step does not bring: its account is kept, and its life follows its place. */
  ghost predicate Carried(l: Life, l': Life, place: Option<BookOrder>, place': Option<BookOrder>) {
    match place
    case None => l' == l && place' == None
    case Some(x) =>
      SameAccount(l, l', x.price) && l'.remaining >= 0
      && match place'
         case Some(y) => SameButSize(y, x) && Tracks(l', Some(y))
         case None => l'.stage == Closed
  }

  lemma LookupInsert(side: Side, s: seq<BookOrder>, o: BookOrder, id: nat)
    requires o.orderId != id
    ensures Lookup(Insert(side, s, o), id) == Lookup(s, id)
  {
    if s == [] || Before(side, KeyOf(o), KeyOf(s[0])) {
      assert ([o] + s)[1..] == s;
    } else {
      assert ([s[0]] + Insert(side, s[1..], o))[1..] == Insert(side, s[1..], o);
      LookupInsert(side, s[1..], o, id);
    }
  }

  lemma {:induction false} LookupDecrease(s: seq<BookOrder>, other: nat, size: int, id: nat)
    requires other != id
    ensures Lookup(Decrease(s, other, size), id) == Lookup(s, id)
  {
    if s != [] {
      if s[0].orderId == other {
        LookupPast(s[0], size, s[1..], id);
      } else {
        assert ([s[0]] + Decrease(s[1..], other, size))[1..] == Decrease(s[1..], other, size);
        LookupDecrease(s[1..], other, size, id);
      }
    }
  }

  lemma {:induction false} TradesCarry(p: Product, b: Book, taker: BookOrder, id: nat, l: Life)
    requires Invariant(b) && taker.orderId != id && Tracks(l, Find(b, id))
    ensures Sound(b)
    ensures var m := Match(p, taker, b.Resting(taker.side.Opposite()), b.logSeq, b.tradeSeq);
            Carried(l, LifeOf(l, m.logs, id), Find(b, id), Find(AfterTrades(b, taker.side, m), id))
  {
    hide Match, LifeOf, Lookup, Invariant, SameAccount;
    InvariantIsGood(b);
    var side := taker.side.Opposite();
    var makers := b.Resting(side);
    var m := Match(p, taker, makers, b.logSeq, b.tradeSeq);
    TradesKeep(p, b, taker);
    FindOnSide(b, side, id);
    FindOnSide(AfterTrades(b, taker.side, m), side, id);
    var place := Lookup(makers, id);
    if place.Some? {
      MatchOfMaker(p, taker, makers, b.logSeq, b.tradeSeq, place.value, l);
      OtherSideEmpty(b, side, id);
    } else {
      MatchSkips(p, taker, makers, b.logSeq, b.tradeSeq, id, l);
      MatchSurvivors(p, taker, makers, b.logSeq, b.tradeSeq);
      SurvivorsShrink(m.makers, makers);
      SameAccountSelf(l, 0);
      CarriedSelf(l, Find(b, id));
    }
  }

  lemma OtherSideEmpty(b: Book, side: Side, id: nat)
    requires Invariant(b) && Lookup(b.Resting(side), id).Some?
    ensures Lookup(b.Resting(side.Opposite()), id).None?
  {
    OneSideOnly(b);
  }

  lemma SameAccountSelf(l: Life, price: int)
    ensures SameAccount(l, l, price)
  {
  }

  lemma CarriedSelf(l: Life, place: Option<BookOrder>)
    requires Tracks(l, place)
    ensures Carried(l, l, place, place)
  {
  }

  lemma SettleSkips(b: Book, taker: BookOrder, id: nat, l: Life)
    requires taker.orderId != id
    ensures LifeOf(l, Settle(b, taker).logs, id) == l && Find(Settle(b, taker).book, id) == Find(b, id)
  {
    LifeOne(l, Settle(b, taker).logs[0], id);
    if taker.otype == Limit && taker.size > 0 {
      LookupInsert(taker.side, b.Resting(taker.side), taker, id);
    }
  }

  lemma {:induction false} ApplyCarries(p: Product, b: Book, o: Order, id: nat, l: Life)
    requires Invariant(b) && WellFormed(o) && o.id != id && Tracks(l, Find(b, id))
    ensures Sound(b)
    ensures Carried(l, LifeOf(l, ApplyOrder(p, b, o).logs, id), Find(b, id), Find(ApplyOrder(p, b, o).book, id))
  {
    hide Match, Invariant, Settle, Carried, Lookup, LifeOf, MatchOrder;
    InvariantIsGood(b);
    if !Admissible(b.accepted, o.id) {
      LifeNone(l, id);
      CarriedSelf(l, Find(b, id));
    } else {
      var b1 := b.(accepted := b.accepted + {o.id});
      AcceptKeeps(b, b1.accepted);
      var taker := PrepareTaker(p, NewBookOrder(o));
      MatchesAlike(p, b, o);
      var m := MatchOrder(p, b, o);
      TradesCarry(p, b1, taker, id, l);
      MatchTakerFields(p, taker, b.Resting(o.side.Opposite()), b.logSeq, b.tradeSeq);
      var b2 := AfterTrades(b1, o.side, m);
      var l1 := LifeOf(l, m.logs, id);
      SettleSkips(b2, m.taker, id, l1);
      LifeAppend(l, m.logs, Settle(b2, m.taker).logs, id);
    }
  }

  lemma LifeNone(l: Life, id: nat)
    ensures LifeOf(l, [], id) == l
  {
  }

  lemma MatchesAlike(p: Product, b: Book, o: Order)
    requires Sound(b)
    ensures MatchOrder(p, b, o) == Match(p, PrepareTaker(p, NewBookOrder(o)), b.Resting(o.side.Opposite()), b.logSeq, b.tradeSeq)
  {
  }

  lemma {:induction false} CancelCarries(b: Book, o: Order, id: nat, l: Life)
    requires Invariant(b) && Tracks(l, Find(b, id))
    ensures Carried(l, LifeOf(l, CancelOrder(b, o).logs, id), Find(b, id), Find(CancelOrder(b, o).book, id))
  {
    hide Admit, Invariant, Lookup, Decrease, Carried, LifeOf;
    var place := Lookup(b.Resting(o.side), o.id);
    CarriedSelf(l, Find(b, id));
    LifeNone(l, id);
    if place.Some? {
      LifeOne(l, CancelOrder(b, o).logs[0], id);
      if o.id == id {
        FindOnSide(b, o.side, id);
        TakenOut(b, o.side, place.value);
        ClosedByCancel(l, place.value);
      } else {
        LookupDecrease(b.Resting(o.side), o.id, place.value.size, id);
      }
    }
  }

  lemma {:induction false} TakenOut(b: Book, side: Side, x: BookOrder)
    requires Invariant(b) && Lookup(b.Resting(side), x.orderId) == Some(x)
    ensures Lookup(Decrease(b.Resting(side), x.orderId, x.size), x.orderId) == None
    ensures Lookup(b.Resting(side.Opposite()), x.orderId) == None
  {
    OtherSideEmpty(b, side, x.orderId);
    TakeOutGood(b.Resting(side), x, side);
  }

  lemma ClosedByCancel(l: Life, x: BookOrder)
    requires Tracks(l, Some(x))
    ensures Carried(l, l.(stage := Closed, remaining := x.size), Some(x), None)
  {
  }

  lemma CarriedTwice(l: Life, l1: Life, l2: Life, a: Option<BookOrder>, b: Option<BookOrder>, c: Option<BookOrder>)
    requires Tracks(l, a) && Carried(l, l1, a, b) && Carried(l1, l2, b, c)
    ensures Carried(l, l2, a, c)
  {
  }

  lemma CarriedTracks(l: Life, l': Life, place: Option<BookOrder>, place': Option<BookOrder>)
    requires Tracks(l, place) && Carried(l, l', place, place')
    ensures Tracks(l', place')
  {
  }

  lemma NullifySkips(b: Book, o: Order, id: nat, l: Life)
    requires o.id != id
    ensures LifeOf(l, NullifyOrder(b, o).logs, id) == l && Find(NullifyOrder(b, o).book, id) == Find(b, id)
  {
    LifeOne(l, NullifyOrder(b, o).logs[0], id);
  }

  /** A step that does not bring an order carries it: the order's account is kept and its life
      follows its place in the book. */
  lemma {:induction false} StepCarries(p: Product, b: Book, o: Order, id: nat, l: Life)
    requires Invariant(b) && WellFormed(o) && (o.cancelling || o.id != id) && Tracks(l, Find(b, id))
    ensures Sound(b)
    ensures Carried(l, LifeOf(l, Step(p, b, o).logs, id), Find(b, id), Find(Step(p, b, o).book, id))
  {
    hide Invariant, ApplyOrder, CancelOrder, NullifyOrder, Find, LifeOf, Carried, WillFullMatch, WillNotMatch;
    InvariantIsGood(b);
    LifeNone(l, id);
    CarriedSelf(l, Find(b, id));
    if o.cancelling {
      CancelCarries(b, o, id, l);
    } else {
      NullifySkips(b, o, id, l);
      ApplyCarries(p, b, o, id, l);
      if o.tif == IOC {
        var applied := ApplyOrder(p, b, o);
        var l1 := LifeOf(l, applied.logs, id);
        ApplyKeepsInvariant(p, b, o);
        CarriedTracks(l, l1, Find(b, id), Find(applied.book, id));
        CancelCarries(applied.book, o, id, l1);
        var cancelled := CancelOrder(applied.book, o);
        LifeAppend(l, applied.logs, cancelled.logs, id);
        CarriedTwice(l, l1, LifeOf(l1, cancelled.logs, id), Find(b, id), Find(applied.book, id), Find(cancelled.book, id));
      }
    }
  }

  // ---- the step that brings an order ----

  ghost predicate OwableBook(p: Product, b: Book, bound: nat) {
    OwableSide(p, b.bids, bound) && OwableSide(p, b.asks, bound)
  }

  /** What an order has traded against what it asked for: a limit order's trades and what is left
      make up its size, at prices no worse than its own; a market sell stays within its size; a
      market buy exceeds its funds by no more than half a last place of the bound. */
  ghost predicate Accounts(p: Product, l: Life, o: Order, bound: Option<nat>) {
    l != Unborn ==>
    l.remaining >= 0
    && match o.otype
    case Limit =>
      l.filled + l.remaining == o.size
      && if o.side == Buy then l.value + l.remaining * o.price <= o.funds
         else l.value + l.remaining * o.price >= o.funds
    case Market =>
      if o.side == Buy then bound.Some? ==> OwesLittle(p, o.funds - l.value, bound.value) else l.filled <= o.size
  }

  /** The life of an order follows its place in the book, its account is right, and what rests of
      it is the order itself but for its size. */
  ghost predicate Lived(p: Product, l: Life, place: Option<BookOrder>, o: Order, bound: Option<nat>) {
    && Tracks(l, place) && Accounts(p, l, o, bound)
    && (place.Some? ==> o.otype == Limit && place.value == NewBookOrder(o).(size := l.remaining))
  }

  lemma CarriedLives(p: Product, l: Life, l': Life, place: Option<BookOrder>, place': Option<BookOrder>,
                     o: Order, bound: Option<nat>)
    requires Lived(p, l, place, o, bound) && Carried(l, l', place, place')
    ensures Lived(p, l', place', o, bound)
  {
  }

  /** The taker after its trades, against the order it stands for. */
  ghost predicate Spent(p: Product, l: Life, t: BookOrder, o: Order, bound: Option<nat>) {
    && (l == Unborn || l.stage == Taking)
    && (Sized(o) ==> l.filled + t.size == o.size && t.size >= 0)
    && (!Sized(o) ==> l.value + t.funds == o.funds && (bound.Some? ==> OwesLittle(p, t.funds, bound.value)))
    && (o.otype == Limit ==>
          (if o.side == Buy then l.value + t.size * o.price <= o.funds else l.value + t.size * o.price >= o.funds)
          && t == NewBookOrder(o).(size := t.size))
    && t.orderId == o.id && t.side == o.side && t.otype == o.otype
  }

  lemma {:induction false} MatchSpends(p: Product, b: Book, o: Order, bound: Option<nat>)
    requires Invariant(b) && WellFormed(o) && !HasId(b.bids, o.id) && !HasId(b.asks, o.id)
    requires bound.Some? ==> OwableBook(p, b, bound.value)
    ensures Sound(b)
    ensures var m := MatchOrder(p, b, o); Spent(p, LifeOf(Unborn, m.logs, o.id), m.taker, o, bound)
  {
    hide Match, Invariant, LifeOf, Advance, AffordableSize, OwesLittle, OwableSide;
    InvariantIsGood(b);
    var taker := PrepareTaker(p, NewBookOrder(o));
    var makers := b.Resting(o.side.Opposite());
    MatchOfTaker(p, taker, makers, b.logSeq, b.tradeSeq, Unborn);
    MatchTakerFields(p, taker, makers, b.logSeq, b.tradeSeq);
    if Sized(o) {
      SizedStaysSolid(p, taker, makers, b.logSeq, b.tradeSeq);
    } else if bound.Some? {
      FundedIsSolid(p, taker, makers, bound.value);
      MatchStaysSolid(p, taker, makers, b.logSeq, b.tradeSeq, bound.value);
    }
  }

  /** A sized taker never takes more than it has, and keeps its funds as they were. */
  lemma {:induction false} SizedStaysSolid(p: Product, taker: BookOrder, makers: seq<BookOrder>, logSeq: nat, tradeSeq: nat)
    requires GoodSide(makers, taker.side.Opposite()) && !SpendsFunds(taker) && taker.size >= 0
    ensures var t := Match(p, taker, makers, logSeq, tradeSeq).taker; t.size >= 0 && t.funds == taker.funds
    decreases |makers|
  {
    if TradesFirst(p, taker, makers) {
      MatchUnfolds(p, taker, makers, logSeq, tradeSeq);
      TailIsGood(makers, taker.side.Opposite());
      var size := TradeSize(p, taker, makers[0]);
      var taker' := Spend(taker, size, makers[0].price);
      var logs := TradeLogs(logSeq, tradeSeq, taker', makers[0], size);
      if !Exhausted(taker') {
        SizedStaysSolid(p, taker', makers[1..], logSeq + |logs|, tradeSeq + 1);
      }
    }
  }

  /** A fresh market buy spends exactly what it pays for: the value of its trades and the funds
      left over are the funds it came with. Where prices divide exactly nothing is ever owed;
      elsewhere no more than half a last place of the dearest price. */
  lemma {:induction false} MarketBuyKeepsItsBudget(p: Product, b: Book, o: Order, bound: nat)
    requires Invariant(b) && WellFormed(o) && o.otype == Market && o.side == Buy && Admissible(b.accepted, o.id)
    requires OwableSide(p, b.asks, bound)
    ensures Sound(b)
    ensures var m := MatchOrder(p, b, o);
            && LifeOf(Unborn, ApplyOrder(p, b, o).logs, o.id).value + m.taker.funds == o.funds
            && OwesLittle(p, m.taker.funds, bound) && (bound == 0 ==> m.taker.funds >= 0)
  {
    hide Match, Invariant, Settle, LifeOf, MatchOrder, HasId, Admissible, OwableSide, OwesLittle;
    InvariantIsGood(b);
    FreshIds(b, o);
    MatchSpends(p, b, o, None);
    var taker := PrepareTaker(p, NewBookOrder(o));
    MatchesAlike(p, b, o);
    FundedIsSolid(p, taker, b.asks, bound);
    MatchStaysSolid(p, taker, b.asks, b.logSeq, b.tradeSeq, bound);
    var m := MatchOrder(p, b, o);
    NothingOwed(p, m.taker.funds);
    var b' := AfterTrades(b.(accepted := b.accepted + {o.id}), o.side, m);
    SettleKeepsValue(b', m.taker, LifeOf(Unborn, m.logs, o.id), o.id);
    LifeAppend(Unborn, m.logs, Settle(b', m.taker).logs, o.id);
  }

  lemma NothingOwed(p: Product, funds: int)
    ensures OwesLittle(p, funds, 0) <==> funds >= 0
  {
    hide DivUnit;
    MulBound(DivUnit(p), -funds);
  }

  lemma SettleKeepsValue(b: Book, t: BookOrder, l: Life, id: nat)
    ensures LifeOf(l, Settle(b, t).logs, id).value == l.value
  {
    LifeOne(l, Settle(b, t).logs[0], id);
  }

  lemma {:induction false} SettleBears(p: Product, b: Book, l: Life, t: BookOrder, o: Order, bound: Option<nat>)
    requires Spent(p, l, t, o, bound) && WellFormed(o) && !HasId(b.bids, o.id) && !HasId(b.asks, o.id)
    ensures Lived(p, LifeOf(l, Settle(b, t).logs, o.id), Find(Settle(b, t).book, o.id), o, bound)
  {
    LifeOne(l, Settle(b, t).logs[0], o.id);
    if o.otype == Limit && t.size > 0 {
      DecreaseUndoesInsert(o.side, b.Resting(o.side), t);
      assert Lookup(b.Resting(o.side.Opposite()), o.id) == None;
    }
  }

  lemma {:induction false} ApplyBears(p: Product, b: Book, o: Order, bound: Option<nat>)
    requires Invariant(b) && WellFormed(o) && Find(b, o.id) == None && (bound.Some? ==> OwableBook(p, b, bound.value))
    ensures Sound(b)
    ensures Lived(p, LifeOf(Unborn, ApplyOrder(p, b, o).logs, o.id), Find(ApplyOrder(p, b, o).book, o.id), o, bound)
  {
    hide Match, Invariant, Settle, Lookup, LifeOf, MatchOrder, Lived, Spent, Advance;
    InvariantIsGood(b);
    LifeNone(Unborn, o.id);
    UnbornLives(p, o, bound);
    if Admissible(b.accepted, o.id) {
      NotFound(b, o.id);
      MatchSpends(p, b, o, bound);
      FreshAfterTrades(p, b, o);
      var m := MatchOrder(p, b, o);
      var b' := AfterTrades(b.(accepted := b.accepted + {o.id}), o.side, m);
      var l := LifeOf(Unborn, m.logs, o.id);
      SettleBears(p, b', l, m.taker, o, bound);
      LifeAppend(Unborn, m.logs, Settle(b', m.taker).logs, o.id);
    }
  }

  lemma NotFound(b: Book, id: nat)
    requires Find(b, id) == None
    ensures !HasId(b.bids, id) && !HasId(b.asks, id)
  {
  }

  lemma UnbornLives(p: Product, o: Order, bound: Option<nat>)
    ensures Lived(p, Unborn, None, o, bound)
  {
  }

  lemma NullifyBears(p: Product, b: Book, o: Order, bound: Option<nat>)
    requires WellFormed(o) && Find(b, o.id) == None
    ensures Lived(p, LifeOf(Unborn, NullifyOrder(b, o).logs, o.id), Find(NullifyOrder(b, o).book, o.id), o, bound)
  {
    LifeOne(Unborn, NullifyOrder(b, o).logs[0], o.id);
  }

  /** The step that brings an order starts its life right, whatever its time in force. */
  lemma {:induction false} StepBears(p: Product, b: Book, o: Order, bound: Option<nat>)
    requires Invariant(b) && WellFormed(o) && !o.cancelling && Find(b, o.id) == None
    requires bound.Some? ==> OwableBook(p, b, bound.value)
    ensures Sound(b)
    ensures Lived(p, LifeOf(Unborn, Step(p, b, o).logs, o.id), Find(Step(p, b, o).book, o.id), o, bound)
  {
    hide Invariant, ApplyOrder, CancelOrder, NullifyOrder, Find, LifeOf, Lived, WillFullMatch, WillNotMatch, WellFormed;
    InvariantIsGood(b);
    LifeNone(Unborn, o.id);
    UnbornLives(p, o, bound);
    ApplyBears(p, b, o, bound);
    NullifyBears(p, b, o, bound);
    if o.tif == IOC {
      var applied := ApplyOrder(p, b, o);
      var l := LifeOf(Unborn, applied.logs, o.id);
      ApplyKeepsInvariant(p, b, o);
      LivedTracks(p, l, Find(applied.book, o.id), o, bound);
      CancelCarries(applied.book, o, o.id, l);
      var cancelled := CancelOrder(applied.book, o);
      LifeAppend(Unborn, applied.logs, cancelled.logs, o.id);
      CarriedLives(p, l, LifeOf(l, cancelled.logs, o.id), Find(applied.book, o.id), Find(cancelled.book, o.id), o, bound);
    }
  }

  lemma LivedTracks(p: Product, l: Life, place: Option<BookOrder>, o: Order, bound: Option<nat>)
    requires Lived(p, l, place, o, bound)
    ensures Tracks(l, place)
  {
  }

  // ---- prices stay owable ----

  lemma SurvivorsOwable(p: Product, s': seq<BookOrder>, s: seq<BookOrder>, bound: nat)
    requires OwableSide(p, s, bound) && AllSurvive(s', s)
    ensures OwableSide(p, s', bound)
  {
    forall j | 0 <= j < |s'|
      ensures OwablePrice(p, s'[j].price, bound)
    {
      assert Survives(s'[j], s);
      var i :| 0 <= i < |s| && SameButSize(s'[j], s[i]);
    }
  }

  lemma InsertOwable(p: Product, s: seq<BookOrder>, o: BookOrder, bound: nat)
    requires OwableSide(p, s, bound) && OwablePrice(p, o.price, bound)
    ensures OwableSide(p, Insert(o.side, s, o), bound)
  {
    forall k | 0 <= k < |Insert(o.side, s, o)|
      ensures OwablePrice(p, Insert(o.side, s, o)[k].price, bound)
    {
      InsertedIsOldOrNew(s, o, k);
    }
  }

  lemma {:induction false} ApplyOwable(p: Product, b: Book, o: Order, bound: nat)
    requires Invariant(b) && WellFormed(o) && OwableBook(p, b, bound)
    requires o.otype == Limit ==> OwablePrice(p, o.price, bound)
    ensures Sound(b) && OwableBook(p, ApplyOrder(p, b, o).book, bound)
  {
    hide Match, Invariant, OwablePrice, Insert;
    InvariantIsGood(b);
    if Admissible(b.accepted, o.id) {
      var taker := PrepareTaker(p, NewBookOrder(o));
      var makers := b.Resting(o.side.Opposite());
      MatchSurvivors(p, taker, makers, b.logSeq, b.tradeSeq);
      MatchTakerFields(p, taker, makers, b.logSeq, b.tradeSeq);
      var m := MatchOrder(p, b, o);
      SurvivorsOwable(p, m.makers, makers, bound);
      if o.otype == Limit {
        InsertOwable(p, b.Resting(o.side), m.taker, bound);
      }
    }
  }

  lemma CancelOwable(p: Product, b: Book, o: Order, bound: nat)
    requires OwableBook(p, b, bound)
    ensures OwableBook(p, CancelOrder(b, o).book, bound)
  {
    var place := Lookup(b.Resting(o.side), o.id);
    if place.Some? {
      DecreaseSurvives(b.Resting(o.side), o.id, place.value.size);
      SurvivorsOwable(p, Decrease(b.Resting(o.side), o.id, place.value.size), b.Resting(o.side), bound);
    }
  }

  lemma {:induction false} StepOwable(p: Product, b: Book, o: Order, bound: nat)
    requires Invariant(b) && WellFormed(o) && OwableBook(p, b, bound)
    requires o.otype == Limit ==> OwablePrice(p, o.price, bound)
    ensures Sound(b) && OwableBook(p, Step(p, b, o).book, bound)
  {
    hide Invariant, ApplyOrder, CancelOrder, WillFullMatch, WillNotMatch, OwableBook;
    InvariantIsGood(b);
    ApplyOwable(p, b, o, bound);
    CancelOwable(p, b, o, bound);
    CancelOwable(p, ApplyOrder(p, b, o).book, o, bound);
    SameQueuesOwable(p, b, NullifyOrder(b, o).book, bound);
  }

  lemma SameQueuesOwable(p: Product, b: Book, b': Book, bound: nat)
    requires OwableBook(p, b, bound) && b'.bids == b.bids && b'.asks == b.asks
    ensures OwableBook(p, b', bound)
  {
  }

  // ---- whole runs ----

  /** Each id arrives at most once as a new order; cancel requests may repeat it. */
  ghost predicate DistinctNew(orders: seq<Order>) {
    forall i, j {:trigger orders[i].id, orders[j].id} :: 0 <= i < j < |orders| ==>
      orders[i].id != orders[j].id || orders[i].cancelling || orders[j].cancelling
  }

  /** Every limit price divides exactly or is safe and at most `bound`. */
  ghost predicate OwableOrders(p: Product, orders: seq<Order>, bound: nat) {
    forall i :: 0 <= i < |orders| && orders[i].otype == Limit ==> OwablePrice(p, orders[i].price, bound)
  }

  /** Every limit price divides exactly. */
  ghost predicate ExactOrders(p: Product, orders: seq<Order>) {
    forall i :: 0 <= i < |orders| && orders[i].otype == Limit ==> ExactPrice(p, orders[i].price)
  }

  lemma ExactIsOwable(p: Product, orders: seq<Order>)
    requires ExactOrders(p, orders)
    ensures OwableOrders(p, orders, 0)
  {
  }

  predicate Brings(o: Order, id: nat) {
    !o.cancelling && o.id == id
  }

  ghost predicate BroughtBy(orders: seq<Order>, id: nat) {
    exists i :: 0 <= i < |orders| && Brings(orders[i], id)
  }

  lemma {:induction false} RunIsOwable(p: Product, orders: seq<Order>, bound: nat)
    requires AllWellFormed(orders) && OwableOrders(p, orders, bound)
    ensures OwableBook(p, Run(p, orders).book, bound)
    decreases |orders|
  {
    hide Invariant, Step, OwableBook, OwablePrice;
    if orders == [] {
      EmptyIsOwable(p, bound);
    } else {
      var n := |orders| - 1;
      RunIsOwable(p, orders[..n], bound);
      StepOwable(p, Run(p, orders[..n]).book, orders[n], bound);
    }
  }

  lemma EmptyIsOwable(p: Product, bound: nat)
    ensures OwableBook(p, EmptyBook, bound)
  {
  }

  /** Over any run in which each id arrives at most once as new, the life of an order the run
      brings follows its place in the book and keeps its account; an id nobody brings is never
      logged. */
  ghost predicate LivesInRun(p: Product, orders: seq<Order>, id: nat, bound: Option<nat>)
    requires AllWellFormed(orders)
  {
    var r := Run(p, orders);
    var l := LifeOf(Unborn, r.logs, id);
    && Tracks(l, Find(r.book, id))
    && (!BroughtBy(orders, id) ==> l == Unborn && Find(r.book, id) == None)
    && forall i :: 0 <= i < |orders| && Brings(orders[i], id) ==> Lived(p, l, Find(r.book, id), orders[i], bound)
  }

  lemma {:induction false} EveryOrderLives(p: Product, orders: seq<Order>, id: nat, bound: Option<nat>)
    requires AllWellFormed(orders) && DistinctNew(orders) && (bound.Some? ==> OwableOrders(p, orders, bound.value))
    ensures LivesInRun(p, orders, id, bound)
    decreases |orders|
  {
    if orders == [] {
      LifeNone(Unborn, id);
    } else {
      var n := |orders| - 1;
      EveryOrderLives(p, orders[..n], id, bound);
      if bound.Some? {
        RunIsOwable(p, orders[..n], bound.value);
      }
      LifeGoesOn(p, orders, id, bound);
    }
  }

  /** One more step of the run. */
  lemma {:induction false} LifeGoesOn(p: Product, orders: seq<Order>, id: nat, bound: Option<nat>)
    requires orders != [] && AllWellFormed(orders) && DistinctNew(orders)
    requires LivesInRun(p, orders[..|orders| - 1], id, bound)
    requires bound.Some? ==> OwableBook(p, Run(p, orders[..|orders| - 1]).book, bound.value)
    ensures LivesInRun(p, orders, id, bound)
  {
    hide Invariant, Step, OwableBook, Lived, LifeOf, Find, Carried, Tracks, WellFormed;
    var n := |orders| - 1;
    var o := orders[n];
    var before := Run(p, orders[..n]);
    var b, l := before.book, LifeOf(Unborn, before.logs, id);
    InvariantIsGood(b);
    var step := Step(p, b, o);
    LifeAppend(Unborn, before.logs, step.logs, id);
    var l' := LifeOf(l, step.logs, id);
    if Brings(o, id) {
      assert forall i :: 0 <= i < n && Brings(orders[i], id) ==> orders[i].id == orders[n].id;
      assert !BroughtBy(orders[..n], id);
      StepBears(p, b, o, bound);
      LivedTracks(p, l', Find(step.book, id), o, bound);
      assert BroughtBy(orders, id);
    } else {
      StepCarries(p, b, o, id, l);
      CarriedTracks(l, l', Find(b, id), Find(step.book, id));
      forall i | 0 <= i < |orders| && Brings(orders[i], id)
        ensures Lived(p, l', Find(step.book, id), orders[i], bound)
      {
        assert orders[..n][i] == orders[i];
        CarriedLives(p, l, l', Find(b, id), Find(step.book, id), orders[i], bound);
      }
      if !BroughtBy(orders, id) {
        assert forall i :: 0 <= i < n ==> orders[..n][i] == orders[i];
        assert !BroughtBy(orders[..n], id);
        CarriedNone(l, l', Find(step.book, id));
      }
    }
  }

  lemma CarriedNone(l: Life, l': Life, place': Option<BookOrder>)
    requires Carried(l, l', None, place')
    ensures l' == l && place' == None
  {
  }

  /** The log of every order of a run is in form: matches as a taker, then done or open, then
      matches as a maker, then at most one done, for exactly what is left; and after each order
      of the run the life of an id is over, or at rest in the book, or not begun. */
  lemma {:induction false} LogsAreInForm(p: Product, orders: seq<Order>, id: nat)
    requires AllWellFormed(orders) && DistinctNew(orders)
    ensures LifeOf(Unborn, Run(p, orders).logs, id).stage !in {Broken, Taking}
    ensures LifeOf(Unborn, Run(p, orders).logs, id).stage == Resting <==> Find(Run(p, orders).book, id).Some?
  {
    EveryOrderLives(p, orders, id, None);
  }

  /** Size is conserved over the life of a limit order: what its logs trade and what they leave
      is what it asked for. */
  lemma {:induction false} LimitSizeIsConserved(p: Product, orders: seq<Order>, i: nat)
    requires AllWellFormed(orders) && DistinctNew(orders) && i < |orders|
    requires !orders[i].cancelling && orders[i].otype == Limit
    ensures var l := LifeOf(Unborn, Run(p, orders).logs, orders[i].id);
            l.stage == Unseen || l.filled + l.remaining == orders[i].size
  {
    EveryOrderLives(p, orders, orders[i].id, None);
    assert Brings(orders[i], orders[i].id);
  }
}
