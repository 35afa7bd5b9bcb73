/** What one order does to the book, in plain terms (matching/order_book.go). */
module Outcomes {
  import opened Exchange
  import opened Depths
  import opened Matcher
  import opened Invariants
  import opened Runs
  import opened Overdrafts
  import opened Priority
  import opened TimeInForces

  // ---- price, then time ----

  ghost predicate BidsInOrder(s: seq<BookOrder>) {
    forall i, j :: 0 <= i < j < |s| ==>
      s[i].price > s[j].price || (s[i].price == s[j].price && s[i].orderId < s[j].orderId)
  }

  ghost predicate AsksInOrder(s: seq<BookOrder>) {
    forall i, j :: 0 <= i < j < |s| ==>
      s[i].price < s[j].price || (s[i].price == s[j].price && s[i].orderId < s[j].orderId)
  }

  lemma {:induction false} SortedIsInOrder(b: Book)
    requires Invariant(b)
    ensures BidsInOrder(b.bids) && AsksInOrder(b.asks)
  {
    forall i, j | 0 <= i < j < |b.bids|
      ensures b.bids[i].price > b.bids[j].price || (b.bids[i].price == b.bids[j].price && b.bids[i].orderId < b.bids[j].orderId)
    {
      assert Before(Buy, KeyOf(b.bids[i]), KeyOf(b.bids[j]));
    }
    forall i, j | 0 <= i < j < |b.asks|
      ensures b.asks[i].price < b.asks[j].price || (b.asks[i].price == b.asks[j].price && b.asks[i].orderId < b.asks[j].orderId)
    {
      assert Before(Sell, KeyOf(b.asks[i]), KeyOf(b.asks[j]));
    }
  }

  /** After any run the bids stand highest price first, the asks lowest price first, and orders of
      one price oldest id first. */
  lemma {:induction false} QueuesAreInOrder(p: Product, orders: seq<Order>)
    requires AllWellFormed(orders)
    ensures BidsInOrder(Run(p, orders).book.bids) && AsksInOrder(Run(p, orders).book.asks)
  {
    hide Run, Invariant, BidsInOrder, AsksInOrder;
    SortedIsInOrder(Run(p, orders).book);
  }

  /** A maker of a side, by its price and id, goes before a resting order of that side. */
  predicate Ahead(side: Side, price: int, id: nat, x: BookOrder) {
    (if side == Buy then price > x.price else price < x.price) || (price == x.price && id < x.orderId)
  }

  /** Every maker traded with goes before every order left, itself apart. */
  ghost predicate BestTaken(logs: seq<Log>, side: Side, left: seq<BookOrder>) {
    forall k, x :: 0 <= k < |logs| && logs[k].MatchLog? && x in left ==>
      logs[k].makerOrderId == x.orderId || Ahead(side, logs[k].price, logs[k].makerOrderId, x)
  }

  lemma FirstIsAhead(s: seq<BookOrder>, side: Side, x: BookOrder)
    requires GoodSide(s, side) && side != OtherSide && s != [] && x in s[1..]
    ensures Ahead(side, s[0].price, s[0].orderId, x)
  {
    var i :| 0 <= i < |s[1..]| && s[1..][i] == x;
    assert Before(side, KeyOf(s[0]), KeyOf(s[i + 1]));
  }

  lemma RemainingAfterFirst(makers: seq<BookOrder>, fills: seq<int>)
    requires 0 < |fills| <= |makers|
    ensures |fills| > 1 ==> Remaining(makers, fills) == Remaining(makers[1..], fills[1..])
    ensures |fills| == 1 ==> Remaining(makers, fills) == Reduced(makers[0], fills[0]) + makers[1..]
  {
    if |fills| > 1 {
      assert makers[1..][|fills| - 2] == makers[|fills| - 1] && fills[1..][|fills| - 2] == fills[|fills| - 1];
      assert makers[1..][|fills| - 1..] == makers[|fills|..];
    }
  }

  /** Nothing but the last maker taken from is new in what remains, and only smaller. */
  lemma {:induction false} RemainingWereThere(makers: seq<BookOrder>, fills: seq<int>, x: BookOrder) returns (y: BookOrder)
    requires |fills| <= |makers| && x in Remaining(makers, fills)
    ensures y in makers && SameButSize(x, y)
  {
    y := x;
    if fills != [] && x !in makers[|fills|..] {
      y := makers[|fills| - 1];
    }
  }

  lemma {:induction false} FirstIsBest(makers: seq<BookOrder>, fills: seq<int>, side: Side, x: BookOrder)
    requires GoodSide(makers, side) && side != OtherSide && 0 < |fills| <= |makers| && x in Remaining(makers, fills)
    ensures makers[0].orderId == x.orderId || Ahead(side, makers[0].price, makers[0].orderId, x)
  {
    hide GoodSide, Ahead, Remaining;
    RemainingAfterFirst(makers, fills);
    if |fills| > 1 {
      var y := RemainingWereThere(makers[1..], fills[1..], x);
      FirstIsAhead(makers, side, y);
      AheadAlike(side, makers[0].price, makers[0].orderId, x, y);
    } else if x in makers[1..] {
      FirstIsAhead(makers, side, x);
    }
  }

  lemma AheadAlike(side: Side, price: int, id: nat, x: BookOrder, y: BookOrder)
    requires SameButSize(x, y)
    ensures Ahead(side, price, id, x) <==> Ahead(side, price, id, y)
  {
  }

  /** Fills of a prefix of the queue take what goes before all that remains. */
  lemma {:induction false} FillsTakeBest(taker: BookOrder, makers: seq<BookOrder>, fills: seq<int>, logSeq: nat, tradeSeq: nat)
    requires |fills| <= |makers| && GoodSide(makers, taker.side.Opposite())
    ensures BestTaken(LogsOf(logSeq, tradeSeq, taker, makers, fills), taker.side.Opposite(), Remaining(makers, fills))
    decreases |fills|
  {
    hide Ahead, Remaining, TradeLogs;
    if fills != [] {
      var side := taker.side.Opposite();
      var left := Remaining(makers, fills);
      var logs := TradeLogs(logSeq, tradeSeq, taker, makers[0], fills[0]);
      TailIsGood(makers, side);
      FillsTakeBest(taker, makers[1..], fills[1..], logSeq + |logs|, tradeSeq + 1);
      RemainingAfterFirst(makers, fills);
      forall x | x in left
        ensures makers[0].orderId == x.orderId || Ahead(side, makers[0].price, makers[0].orderId, x)
      {
        FirstIsBest(makers, fills, side, x);
      }
      OneTaken(logSeq, tradeSeq, taker, makers[0], fills[0], side, left);
      BestAppend(logs, LogsOf(logSeq + |logs|, tradeSeq + 1, taker, makers[1..], fills[1..]), side, left);
    }
  }

  lemma OneTaken(logSeq: nat, tradeSeq: nat, taker: BookOrder, maker: BookOrder, size: int, side: Side, left: seq<BookOrder>)
    requires forall x :: x in left ==> maker.orderId == x.orderId || Ahead(side, maker.price, maker.orderId, x)
    ensures BestTaken(TradeLogs(logSeq, tradeSeq, taker, maker, size), side, left)
  {
    hide Ahead;
  }

  lemma BestAppend(a: seq<Log>, c: seq<Log>, side: Side, left: seq<BookOrder>)
    requires BestTaken(a, side, left) && BestTaken(c, side, left)
    ensures BestTaken(a + c, side, left)
  {
    hide Ahead;
  }

  lemma {:induction false} ApplyTakesBest(p: Product, b: Book, o: Order)
    requires Invariant(b) && WellFormed(o) && (Sized(o) || SafeSide(p, b.asks))
    ensures Sound(b) && BestTaken(ApplyOrder(p, b, o).logs, o.side.Opposite(), ApplyOrder(p, b, o).book.Resting(o.side.Opposite()))
  {
    hide Match, Ahead, Remaining, LogsOf, IsPriorityFill, Invariant, MaxPrice, SafePrice;
    InvariantIsGood(b);
    if Admissible(b.accepted, o.id) {
      var taker := PrepareTaker(p, NewBookOrder(o));
      var makers := b.Resting(o.side.Opposite());
      var fills := MatchFollowsPriority(p, taker, makers, b.logSeq, b.tradeSeq);
      FewerFills(p, taker, makers, fills);
      FillsTakeBest(taker, makers, fills, b.logSeq, b.tradeSeq);
      var m := MatchOrder(p, b, o);
      MatchTakerFields(p, taker, makers, b.logSeq, b.tradeSeq);
      var b' := AfterTrades(b.(accepted := b.accepted + {o.id}), o.side, m);
      assert BestTaken(Settle(b', m.taker).logs, o.side.Opposite(), m.makers);
      BestAppend(m.logs, Settle(b', m.taker).logs, o.side.Opposite(), m.makers);
    }
  }

  lemma FewerFills(p: Product, taker: BookOrder, makers: seq<BookOrder>, fills: seq<int>)
    requires IsPriorityFill(p, taker, makers, fills)
    ensures |fills| <= |makers|
  {
  }

  /** Whatever its mode, an order trades with the best opposite orders: each one taken from was
      better priced than every one left, or of the same price and older. A market buy could pass one
      by only where an overdrawn one would sell back. */
  lemma {:induction false} StepTakesBest(p: Product, b: Book, o: Order)
    requires Invariant(b) && WellFormed(o) && !o.cancelling && (Sized(o) || SafeSide(p, b.asks))
    ensures Sound(b) && BestTaken(Step(p, b, o).logs, o.side.Opposite(), Step(p, b, o).book.Resting(o.side.Opposite()))
  {
    hide ApplyOrder, Ahead, Invariant, SafePrice, WillFullMatch, WillNotMatch, Lookup, Decrease;
    ApplyTakesBest(p, b, o);
    if o.tif == IOC {
      var applied := ApplyOrder(p, b, o);
      var side := o.side.Opposite();
      assert CancelOrder(applied.book, o).book.Resting(side) == applied.book.Resting(side);
      assert BestTaken(CancelOrder(applied.book, o).logs, side, applied.book.Resting(side));
      BestAppend(applied.logs, CancelOrder(applied.book, o).logs, side, applied.book.Resting(side));
    }
  }

  // ---- cancel requests ----

  /** The one log that ends a resting order for all it has left. */
  function CancelledLog(sequence: nat, x: BookOrder): Log {
    DoneLog(sequence, x.orderId, x.userId, x.price, x.size, Cancelled, x.side, x.tif)
  }

  ghost predicate OthersStay(s: seq<BookOrder>, s': seq<BookOrder>, id: nat) {
    forall x: BookOrder :: x.orderId != id ==> (x in s' <==> x in s)
  }

  lemma {:induction false} TakenOutPlainly(s: seq<BookOrder>, side: Side, x: BookOrder)
    requires GoodSide(s, side) && x in s
    ensures Lookup(s, x.orderId) == Some(x)
    ensures var s' := Decrease(s, x.orderId, x.size);
            (forall y :: y in s' ==> y.orderId != x.orderId) && OthersStay(s, s', x.orderId)
  {
    assert HasId(s, x.orderId);
    IdNamesOne(s, x, Lookup(s, x.orderId).value);
    DecreaseMembers(s, x.orderId, x.size);
    TakeOutGood(s, x, side);
    assert forall y :: y in Decrease(s, x.orderId, x.size) ==> y.orderId != x.orderId;
  }

  /** A cancel request takes the order out of its side, whatever it has left, with one log that says
      how much that was; it leaves every other order as it is; and if no order of the id rests there
      it writes nothing. */
  lemma {:induction false} CancelTakesOut(p: Product, b: Book, o: Order)
    requires Invariant(b) && o.cancelling && o.side != OtherSide
    ensures Sound(b)
    ensures var out := Step(p, b, o);
            && (forall x :: x in out.book.Resting(o.side) ==> x.orderId != o.id)
            && OthersStay(b.Resting(o.side), out.book.Resting(o.side), o.id)
            && out.book.Resting(o.side.Opposite()) == b.Resting(o.side.Opposite())
            && (forall x :: x in b.Resting(o.side) && x.orderId == o.id ==> out.logs == [CancelledLog(b.logSeq + 1, x)])
            && ((forall x :: x in b.Resting(o.side) ==> x.orderId != o.id) ==> out.logs == [])
  {
    hide Admit, GoodSide, Decrease;
    InvariantIsGood(b);
    var s := b.Resting(o.side);
    forall x | x in s && x.orderId == o.id
      ensures Lookup(s, o.id) == Some(x)
      ensures forall y :: y in Decrease(s, o.id, x.size) ==> y.orderId != o.id
      ensures OthersStay(s, Decrease(s, o.id, x.size), o.id)
    {
      TakenOutPlainly(s, o.side, x);
    }
  }

  // ---- what is left of an applied order ----

  /** A limit order that is entered rests with what it has not traded, and says so; or it has traded
      everything and says that. */
  lemma {:induction false} AppliedLimitRestsOrEnds(p: Product, b: Book, o: Order)
    requires Invariant(b) && WellFormed(o) && o.otype == Limit && Admissible(b.accepted, o.id)
    ensures Sound(b)
    ensures var out := ApplyOrder(p, b, o);
            var left := o.size - TradedSize(out.logs);
            && left >= 0 && out.logs != [] && OthersStay(b.Resting(o.side), out.book.Resting(o.side), o.id)
            && (left > 0 ==>
                  BookOrder(o.id, o.userId, left, o.funds, o.price, o.side, Limit, o.tif) in out.book.Resting(o.side)
                  && out.logs[|out.logs| - 1] == OpenLog(out.book.logSeq, o.id, o.userId, left, o.price, o.side, o.tif))
            && (left == 0 ==>
                  (forall x :: x in out.book.Resting(o.side) ==> x.orderId != o.id)
                  && out.logs[|out.logs| - 1] == DoneLog(out.book.logSeq, o.id, o.userId, o.price, 0, Filled, o.side, o.tif))
  {
    hide Match, Invariant, Admissible, TradedSize;
    InvariantIsGood(b);
    FreshIds(b, o);
    ApplyTrades(p, b, o);
    var taker := PrepareTaker(p, NewBookOrder(o));
    var makers := b.Resting(o.side.Opposite());
    MatchTakerFields(p, taker, makers, b.logSeq, b.tradeSeq);
    MatchUncrosses(p, taker, makers, b.logSeq, b.tradeSeq);
    KeepsItsFunds(p, taker, makers, b.logSeq, b.tradeSeq);
    var m := MatchOrder(p, b, o);
    InsertMembers(o.side, b.Resting(o.side), m.taker);
  }

  lemma {:induction false} KeepsItsFunds(p: Product, taker: BookOrder, makers: seq<BookOrder>, logSeq: nat, tradeSeq: nat)
    requires Priced(makers) && !SpendsFunds(taker)
    ensures Match(p, taker, makers, logSeq, tradeSeq).taker.funds == taker.funds
    decreases |makers|
  {
    if TradesFirst(p, taker, makers) {
      MatchUnfolds(p, taker, makers, logSeq, tradeSeq);
      var size := TradeSize(p, taker, makers[0]);
      var taker' := Spend(taker, size, makers[0].price);
      var logs := TradeLogs(logSeq, tradeSeq, taker', makers[0], size);
      if !Exhausted(taker') {
        KeepsItsFunds(p, taker', makers[1..], logSeq + |logs|, tradeSeq + 1);
      }
    }
  }

  /** A nullified order writes one log, which cancels all of it, and moves nothing. */
  lemma {:induction false} NullifiedPlainly(p: Product, b: Book, o: Order)
    requires Sound(b) && !o.cancelling
    requires (o.tif == GTX && !WillNotMatch(p, b, o)) || (o.tif == FOK && !WillFullMatch(p, b, o))
    ensures var out := Step(p, b, o);
            && out.book.bids == b.bids && out.book.asks == b.asks && out.book.tradeSeq == b.tradeSeq
            && out.logs == [DoneLog(b.logSeq + 1, o.id, o.userId, o.price, o.size, Cancelled, o.side, o.tif)]
  {
    hide WillNotMatch, WillFullMatch, Admit;
  }

  // ---- ids and their windows ----

  /** An id as placement makes it: the time, the node of the user's table, the step. */
  function MadeId(time: nat, node: nat, step: nat): nat {
    time * 4194304 + node * 4096 + step
  }

  const TABLES: nat := 128

  /** The window of a made id is that of its node, which is its user's table. */
  lemma {:induction false} ShardIsTheUsersTable(time: nat, userId: nat, step: nat)
    requires step < 4096
    ensures Shard(MadeId(time, userId % TABLES, step)) == userId % 128
  {
    var node := userId % 128;
    var id := MadeId(time, node, step);
    assert id == 4096 * (1024 * time + node) + step;
    assert id / 4096 == 1024 * time + node;
    assert 1024 * time + node == 128 * (8 * time) + node;
  }

  /** An id is taken unless it was taken before, or one of the same 128 tables was that is ten
      thousand or more ahead. */
  lemma {:induction false} AdmissiblePlainly(accepted: set<nat>, id: nat)
    ensures Admissible(accepted, id)
            <==> id !in accepted && forall a :: a in accepted && (a / 4096) % 128 == (id / 4096) % 128 ==> a < id + 10000
  {
  }

  /** Placement has made all of these ids. */
  ghost predicate AllMade(accepted: set<nat>) {
    forall a :: a in accepted ==> (a / 4096) % 1024 < 128
  }

  lemma {:induction false} MadeAgain(a: nat)
    requires (a / 4096) % 1024 < 128
    ensures a == MadeId(a / 4194304, (a / 4096) % 128, a % 4096)
  {
    var node := (a / 4096) % 1024;
    assert a / 4194304 == a / 4096 / 1024;
    assert node % 128 == node && (a / 4096) % 128 == node;
  }

  /** Ten thousand ids ahead is any later millisecond: of the ids of one table those made in the
      latest millisecond taken so far, or after it, are taken, and every earlier one is refused. */
  lemma {:induction false} LaterMillisecondShutsOut(accepted: set<nat>, time: nat, userId: nat, step: nat)
    requires step < 4096 && AllMade(accepted)
    ensures var node := userId % TABLES;
            Admissible(accepted, MadeId(time, node, step))
            <==> && MadeId(time, node, step) !in accepted
                 && forall time': nat, step': nat :: step' < 4096 && MadeId(time', node, step') in accepted ==> time' <= time
  {
    hide Shard, AllMade;
    var node := userId % TABLES;
    var id := MadeId(time, node, step);
    ShardIsTheUsersTable(time, userId, step);
    forall time': nat, step': nat | step' < 4096
      ensures Shard(MadeId(time', node, step')) == Shard(id)
      ensures MadeId(time', node, step') < id + 10000 <==> time' <= time
    {
      ShardIsTheUsersTable(time', userId, step');
    }
    forall a | a in accepted && Shard(a) == Shard(id)
      ensures a == MadeId(a / 4194304, node, a % 4096)
    {
      SameTable(accepted, a, node);
    }
  }

  lemma {:induction false} SameTable(accepted: set<nat>, a: nat, node: nat)
    requires AllMade(accepted) && a in accepted && Shard(a) == node
    ensures a == MadeId(a / 4194304, node, a % 4096)
  {
    MadeAgain(a);
  }

  /** Whatever becomes of an order, its id is used up if it was still to be had, by a cancel request and
      a nullified order as well; only an order of no known time in force leaves everything as it is. */
  lemma {:induction false} StepTakesId(p: Product, b: Book, o: Order)
    requires Sound(b)
    ensures !o.cancelling && o.tif == Unknown ==> Step(p, b, o) == Outcome(b, [])
    ensures o.cancelling || o.tif != Unknown ==>
              Step(p, b, o).book.accepted
              == if o.id !in b.accepted && forall a :: a in b.accepted && (a / 4096) % 128 == (o.id / 4096) % 128 ==> a < o.id + 10000
                 then b.accepted + {o.id} else b.accepted
  {
    hide Match, Sound, WillNotMatch, WillFullMatch, Admissible, Insert, Decrease, Lookup, NewDoneLog, NewOpenLog;
    AdmissiblePlainly(b.accepted, o.id);
    TakenOnce(b.accepted, o.id);
  }

  lemma TakenOnce(accepted: set<nat>, id: nat)
    ensures !Admissible(Admit(accepted, id), id)
  {
  }

  /** Users of different tables never refuse one another's ids. */
  lemma {:induction false} TablesDoNotInterfere(accepted: set<nat>, time: nat, userId: nat, step: nat,
                                                time': nat, userId': nat, step': nat)
    requires step < 4096 && step' < 4096 && userId % TABLES != userId' % TABLES
    ensures var id, other := MadeId(time, userId % TABLES, step), MadeId(time', userId' % TABLES, step');
            Admissible(accepted + {other}, id) <==> Admissible(accepted, id)
  {
    hide Shard;
    ShardIsTheUsersTable(time, userId, step);
    ShardIsTheUsersTable(time', userId', step');
    var id, other := MadeId(time, userId % TABLES, step), MadeId(time', userId' % TABLES, step');
    assert Shard(id) != Shard(other);
    if Admissible(accepted, id) {
      assert forall a :: a in accepted + {other} && Shard(a) == Shard(id) ==> a in accepted;
    }
  }
}
