/** The order book as the engine keeps it: two depths, two counters and a row of id windows,
    updated in place and proved against the functions of `Matcher` (matching/order_book.go). */
module OrderBooks {
  import opened Exchange
  import opened Depths
  import opened Matcher
  import opened Snapshots
  import opened Windows

  /** A snapshot copies the orders and the counters but keeps the windows themselves. */
  datatype OrderBookSnapshot = OrderBookSnapshot(orders: seq<BookOrder>, tradeSeq: nat, logSeq: nat, windows: seq<Window>)

  ghost function ShardOf(accepted: set<nat>, i: nat): set<nat> {
    set a | a in accepted && Shard(a) == i
  }

  ghost predicate DistinctWindows(ws: seq<Window>) {
    forall i, j :: 0 <= i < j < |ws| ==> ws[i] != ws[j] && ws[i].bitmap != ws[j].bitmap
  }

  /** The windows, one per shard, hold exactly the accepted ids. */
  ghost predicate WindowsHold(ws: seq<Window>, accepted: set<nat>)
    reads ws, set w | w in ws :: w.bitmap
  {
    && |ws| == TABLE_ORDER_SPLIT_COUNT
    && DistinctWindows(ws)
    && forall i :: 0 <= i < |ws| ==>
         ws[i].Valid() && ws[i].floor == 0 && ws[i].cap as nat == ORDER_ID_WINDOW_CAP
         && ws[i].accepted == ShardOf(accepted, i)
  }

  method NewWindows() returns (ws: seq<Window>)
    ensures fresh(ws) && (forall w :: w in ws ==> fresh(w.bitmap))
    ensures WindowsHold(ws, {})
  {
    ws := [];
    for i := 0 to TABLE_ORDER_SPLIT_COUNT
      invariant |ws| == i && fresh(ws) && (forall w :: w in ws ==> fresh(w.bitmap))
      invariant DistinctWindows(ws)
      invariant forall w :: w in ws ==>
        w.Valid() && w.floor == 0 && w.cap as nat == ORDER_ID_WINDOW_CAP && w.accepted == {}
    {
      var w := new Window(0, ORDER_ID_WINDOW_CAP as uint64);
      ws := ws + [w];
    }
    forall i | 0 <= i < |ws|
      ensures ws[i].accepted == ShardOf({}, i)
    {
      assert ws[i] in ws;
    }
  }

  lemma ShardAdmits(accepted: set<nat>, id: nat)
    ensures Admits(ShardOf(accepted, Shard(id)), 0, ORDER_ID_WINDOW_CAP, id) == Admissible(accepted, id)
  {
    if Admits(ShardOf(accepted, Shard(id)), 0, ORDER_ID_WINDOW_CAP, id) {
      assert id !in ShardOf(accepted, Shard(id));
      forall a | a in accepted && Shard(a) == Shard(id)
        ensures a < id + ORDER_ID_WINDOW_CAP
      {
        assert a in ShardOf(accepted, Shard(id));
      }
    }
  }

  lemma ShardGrows(accepted: set<nat>, id: nat, i: nat)
    ensures ShardOf(accepted + {id}, i) == ShardOf(accepted, i) + if i == Shard(id) then {id} else {}
  {
  }

  method PutInShard(ws: seq<Window>, ghost accepted: set<nat>, id: nat) returns (ok: bool)
    requires WindowsHold(ws, accepted) && id < ID_LIMIT
    modifies ws[Shard(id)], ws[Shard(id)].bitmap
    ensures ok == Admissible(accepted, id)
    ensures WindowsHold(ws, Admit(accepted, id))
  {
    ShardAdmits(accepted, id);
    ok := ws[Shard(id)].Put(id as uint64);
    forall i | 0 <= i < |ws|
      ensures ws[i].Valid() && ws[i].accepted == ShardOf(Admit(accepted, id), i)
    {
      ShardGrows(accepted, id, i);
      assert old(ws[i].Valid());
    }
  }

  // ---- the loop against the recursive matcher ----

  /** A match whose first trades are already done. */
  ghost function Resume(done: seq<BookOrder>, logs: seq<Log>, rest: Matched): Matched {
    rest.(makers := done + rest.makers, logs := logs + rest.logs)
  }

  lemma KeysOfView(side: Side, orders: map<nat, BookOrder>, queue: seq<Key>)
    requires Coupled(side, orders, queue)
    ensures forall i :: 0 <= i < |queue| ==> queue[i] == KeyOf(ViewOf(orders, queue)[i])
  {
    forall i | 0 <= i < |queue|
      ensures queue[i] == KeyOf(ViewOf(orders, queue)[i])
    {
      assert queue[i] in queue;
    }
  }

  lemma QueueEntries(side: Side, orders: map<nat, BookOrder>, queue: seq<Key>)
    requires Coupled(side, orders, queue)
    ensures forall i :: 0 <= i < |queue| ==>
      queue[i].orderId in orders && orders[queue[i].orderId] == ViewOf(orders, queue)[i]
  {
    forall i | 0 <= i < |queue|
      ensures queue[i].orderId in orders
    {
      assert queue[i] in queue;
    }
  }

  lemma ResumeStart(m: Matched)
    ensures Resume([], [], m) == m
  {
    assert [] + m.makers == m.makers && [] + m.logs == m.logs;
  }

  /** The taker of a fresh id finds its own side without that id. */
  lemma {:induction false} FreshIdsDoNotRest(b: Book, o: Order, p: Product)
    requires Sound(b) && Admissible(b.accepted, o.id)
    requires o.otype == Limit ==> o.price > 0
    ensures var taker := MatchOrder(p, b, o).taker;
            && taker.orderId == o.id && taker.side == o.side && taker.otype == o.otype
            && (taker.otype == Limit ==> taker.price > 0)
    ensures !HasId(b.bids, o.id) && !HasId(b.asks, o.id)
  {
    MatchTakerFields(p, PrepareTaker(p, NewBookOrder(o)), b.Resting(o.side.Opposite()), b.logSeq, b.tradeSeq);
  }

  /** A match without a trade. */
  lemma MatchStops(done: seq<BookOrder>, logs: seq<Log>, p: Product, taker: BookOrder, pending: seq<BookOrder>,
                   logSeq: nat, tradeSeq: nat)
    requires Priced(pending)
    requires pending == [] || !PricesCross(taker.side, taker.price, pending[0].price)
             || TradeSize(p, taker, pending[0]) == 0
    ensures Resume(done, logs, Match(p, taker, pending, logSeq, tradeSeq))
            == Matched(taker, done + pending, logs, logSeq, tradeSeq)
  {
    assert logs + [] == logs;
  }

  /** One trade moves a maker from the pending makers to the done ones. */
  lemma MatchAdvances(total: Matched, done: seq<BookOrder>, logs: seq<Log>, p: Product, taker: BookOrder,
                      pending: seq<BookOrder>, logSeq: nat, tradeSeq: nat,
                      size: int, taker': BookOrder, step: seq<Log>, done': seq<BookOrder>)
    requires pending != [] && Priced(pending) && pending[0].price > 0
    requires PricesCross(taker.side, taker.price, pending[0].price)
    requires size == TradeSize(p, taker, pending[0]) && size != 0
    requires taker' == Spend(taker, size, pending[0].price)
    requires step == TradeLogs(logSeq, tradeSeq, taker', pending[0], size)
    requires done' == done + Reduced(pending[0], size)
    requires total == Resume(done, logs, Match(p, taker, pending, logSeq, tradeSeq))
    ensures Priced(pending[1..])
    ensures Exhausted(taker') ==>
              total == Matched(taker', done' + pending[1..], logs + step, logSeq + |step|, tradeSeq + 1)
    ensures !Exhausted(taker') ==>
              total == Resume(done', logs + step, Match(p, taker', pending[1..], logSeq + |step|, tradeSeq + 1))
  {
    hide TradeLogs, TradeSize, Spend, Reduced, PricesCross;
    var kept := Reduced(pending[0], size);
    assert done + (kept + pending[1..]) == done' + pending[1..];
    if !Exhausted(taker') {
      var rest := Match(p, taker', pending[1..], logSeq + |step|, tradeSeq + 1);
      assert done + (kept + rest.makers) == done' + rest.makers;
      assert logs + (step + rest.logs) == logs + step + rest.logs;
    }
  }

  /** The maker under the cursor is the one stored under the cursor's id. */
  lemma PendingMaker(side: Side, orders: map<nat, BookOrder>, queue: seq<Key>, done: seq<BookOrder>,
                     pending: seq<BookOrder>)
    requires Coupled(side, orders, queue) && ViewOf(orders, queue) == done + pending
    requires pending != [] && Priced(pending)
    ensures pending[0].orderId in orders && orders[pending[0].orderId] == pending[0] && pending[0].price > 0
  {
    CoupledIds(side, orders, queue);
    assert (done + pending)[|done|] == pending[0] && pending[0] in pending;
  }

  lemma {:induction false} MemberUnderCursor(side: Side, orders: map<nat, BookOrder>, queue: seq<Key>, done: seq<BookOrder>,
                                             pending: seq<BookOrder>)
    requires Coupled(side, orders, queue) && ViewOf(orders, queue) == done + pending
    requires pending != []
    ensures DistinctIds(done + pending)
    ensures Lookup(done + pending, pending[0].orderId) == Some(pending[0])
  {
    CoupledIds(side, orders, queue);
    CoupledOrder(side, orders, queue);
    assert (done + pending)[|done|] == pending[0] && pending[0] in pending;
    LookupMember(done + pending, pending[0]);
  }

  lemma LookupMember(s: seq<BookOrder>, o: BookOrder)
    requires DistinctIds(s) && o in s
    ensures Lookup(s, o.orderId) == Some(o)
  {
    var r := Lookup(s, o.orderId);
    assert HasId(s, o.orderId);
    var i :| 0 <= i < |s| && s[i] == o;
    var j :| 0 <= j < |s| && s[j] == r.value;
  }

  lemma DecreaseAt(done: seq<BookOrder>, pending: seq<BookOrder>, size: int)
    requires pending != [] && DistinctIds(done + pending)
    ensures Decrease(done + pending, pending[0].orderId, size) == done + Reduced(pending[0], size) + pending[1..]
  {
    var s := done + pending;
    forall o | o in done
      ensures o.orderId != pending[0].orderId
    {
      var i :| 0 <= i < |done| && done[i] == o;
      assert s[i] == o && s[|done|] == pending[0];
    }
    DecreaseSkips(done, pending, pending[0].orderId, size);
    assert done + (Reduced(pending[0], size) + pending[1..]) == done + Reduced(pending[0], size) + pending[1..];
  }

  // ---- snapshots ----

  /** The orders of a map, in an arbitrary order. */
  method MapValues(m: map<nat, BookOrder>) returns (orders: seq<BookOrder>)
    requires forall id :: id in m ==> m[id].orderId == id
    ensures DistinctIds(orders)
    ensures forall o :: o in orders <==> o.orderId in m && m[o.orderId] == o
  {
    orders := [];
    var ids := m.Keys;
    while ids != {}
      invariant ids <= m.Keys
      invariant forall o :: o in orders <==> o.orderId in m.Keys - ids && m[o.orderId] == o
      invariant DistinctIds(orders)
      decreases |ids|
    {
      var id :| id in ids;
      AppendDistinct(orders, m[id]);
      orders := orders + [m[id]];
      ids := ids - {id};
    }
  }

  lemma AppendDistinct(s: seq<BookOrder>, o: BookOrder)
    requires DistinctIds(s) && forall x :: x in s ==> x.orderId != o.orderId
    ensures DistinctIds(s + [o])
  {
  }

  method CopyOrders(d: Depth) returns (orders: seq<BookOrder>)
    requires d.Valid()
    ensures DistinctIds(orders)
    ensures forall o :: o in orders <==> o in d.View()
  {
    CoupledIds(d.side, d.orders, d.queue);
    orders := MapValues(d.orders);
  }

  lemma SidesApart(sells: seq<BookOrder>, buys: seq<BookOrder>, b: Book)
    requires Sound(b) && DistinctIds(sells) && DistinctIds(buys)
    requires forall o :: o in sells <==> o in b.asks
    requires forall o :: o in buys <==> o in b.bids
    ensures SnapshotOf(Snapshots.Snapshot(sells + buys, b.tradeSeq, b.logSeq, b.accepted), b)
  {
    var s := sells + buys;
    forall i | 0 <= i < |s|
      ensures s[i].side != OtherSide
    {
      assert s[i] in sells || s[i] in buys;
    }
    forall i, j | 0 <= i < j < |s|
      ensures s[i].orderId != s[j].orderId || s[i].side != s[j].side
    {
      if i < |sells| <= j {
        assert s[i] in sells && s[j] in buys;
        assert s[i] in b.asks && s[j] in b.bids;
      }
    }
  }

  lemma EmptyDepth(side: Side)
    ensures Coupled(side, map[], []) && ViewOf(map[], []) == []
  {
  }

  /** The next order of a snapshot is filed where no order of its id is yet. */
  lemma {:induction false} FileAllNext(b: Book, orders: seq<BookOrder>, i: nat)
    requires b.bids == b.asks == [] && DistinctPlaces(orders) && i < |orders|
    ensures FileAll(b, orders[..i + 1]) == File(FileAll(b, orders[..i]), orders[i])
    ensures !HasId(FileAll(b, orders[..i]).Resting(orders[i].side), orders[i].orderId)
  {
    hide FileAll, File;
    assert orders[..i + 1] == orders[..i] + [orders[i]];
    FileAllAppend(b, orders[..i], orders[i]);
    FileAllSorts(b, orders[..i]);
    forall x | x in orders[..i] && x.side == orders[i].side
      ensures x.orderId != orders[i].orderId
    {
      var j :| 0 <= j < i && orders[j] == x;
    }
  }

  lemma {:induction false} FileAllAppend(b: Book, orders: seq<BookOrder>, o: BookOrder)
    ensures FileAll(b, orders + [o]) == File(FileAll(b, orders), o)
    decreases |orders|
  {
    if orders == [] {
      assert [o][1..] == [];
    } else {
      assert (orders + [o])[1..] == orders[1..] + [o];
      FileAllAppend(File(b, orders[0]), orders[1..], o);
    }
  }

  class OrderBook {
    const product: Product
    const bids: Depth
    const asks: Depth
    var tradeSeq: nat
    var logSeq: nat
    var windows: seq<Window>

    /** Every id the windows have admitted. */
    ghost var accepted: set<nat>

    ghost predicate Valid()
      reads this, bids, asks, windows, set w | w in windows :: w.bitmap
    {
      && bids != asks && bids.side == Buy && asks.side == Sell
      && bids.Valid() && asks.Valid()
      && WindowsHold(windows, accepted)
      && Sound(Book(bids.View(), asks.View(), tradeSeq, logSeq, accepted))
    }

    ghost function View(): Book
      requires bids.Valid() && asks.Valid()
      reads this, bids, asks
    {
      Book(bids.View(), asks.View(), tradeSeq, logSeq, accepted)
    }

    constructor (product: Product)
      ensures Valid() && fresh(bids) && fresh(asks) && fresh(windows) && (forall w :: w in windows ==> fresh(w.bitmap))
      ensures this.product == product && View() == EmptyBook
    {
      this.product := product;
      bids := new Depth(Buy);
      asks := new Depth(Sell);
      tradeSeq, logSeq, windows, accepted := 0, 0, [], {};
      new;
      windows := NewWindows();
    }

    function DepthOf(side: Side): Depth
      requires side != OtherSide
    {
      if side == Buy then bids else asks
    }

    method NextLogSeq() returns (n: nat)
      modifies `logSeq
      ensures n == logSeq == old(logSeq) + 1
    {
      logSeq := logSeq + 1;
      n := logSeq;
    }

    method NextTradeSeq() returns (n: nat)
      modifies `tradeSeq
      ensures n == tradeSeq == old(tradeSeq) + 1
    {
      tradeSeq := tradeSeq + 1;
      n := tradeSeq;
    }

    /** Offers an id to its shard's window. */
    method PutId(id: nat) returns (ok: bool)
      requires Valid() && id < ID_LIMIT
      modifies `accepted, windows, set w | w in windows :: w.bitmap
      ensures Valid()
      ensures ok == Admissible(old(accepted), id)
      ensures View() == old(View()).(accepted := Admit(old(accepted), id))
      ensures unchanged(bids) && unchanged(asks) && windows == old(windows)
    {
      AdmitKeepsSound(View(), id);
      ok := PutInShard(windows, accepted, id);
      accepted := Admit(accepted, id);
    }

    /** The logs of one trade: the match, and the maker's end if it is filled. */
    method LogTrade(taker: BookOrder, maker: BookOrder, size: int) returns (logs: seq<Log>)
      modifies `tradeSeq, `logSeq
      ensures logs == TradeLogs(old(logSeq), old(tradeSeq), taker, maker, size)
      ensures logSeq == old(logSeq) + |logs| && tradeSeq == old(tradeSeq) + 1
    {
      var left := maker.size - size;
      var matchSeq := NextLogSeq();
      var trade := NextTradeSeq();
      logs := [NewMatchLog(matchSeq, trade, taker, maker, size)];
      if left == 0 {
        var doneSeq := NextLogSeq();
        logs := logs + [NewDoneLog(doneSeq, maker, left, Filled)];
      }
    }

    /** One trade with the maker under the cursor. */
    method Trade(makerDepth: Depth, taker: BookOrder, maker: BookOrder, size: int,
                 ghost done: seq<BookOrder>, ghost pending: seq<BookOrder>) returns (logs: seq<Log>)
      requires makerDepth.Valid() && makerDepth.View() == done + pending
      requires pending != [] && pending[0] == maker && size <= maker.size
      modifies `tradeSeq, `logSeq, makerDepth
      ensures makerDepth.Valid() && makerDepth.View() == done + Reduced(maker, size) + pending[1..]
      ensures logs == TradeLogs(old(logSeq), old(tradeSeq), taker, maker, size)
      ensures logSeq == old(logSeq) + |logs| && tradeSeq == old(tradeSeq) + 1
    {
      hide Coupled, ViewOf, Lookup, Decrease, TradeLogs;
      MemberUnderCursor(makerDepth.side, makerDepth.orders, makerDepth.queue, done, pending);
      DecreaseAt(done, pending, size);
      var err := makerDepth.DecrSize(maker.orderId, size);
      assert err.None?;
      logs := LogTrade(taker, maker, size);
    }

    /** Midway through the matching loop: `done` makers are behind the cursor, `pending` makers
        under and after it, and finishing the walk from here gives `total`. */
    ghost predicate Walking(total: Matched, makerDepth: Depth, taker: BookOrder, logs: seq<Log>, itr: seq<Key>,
                            done: seq<BookOrder>, pending: seq<BookOrder>)
      reads this, makerDepth
    {
      && makerDepth.Valid() && makerDepth.View() == done + pending
      && |itr| == |pending| && (forall i :: 0 <= i < |itr| ==> itr[i] == KeyOf(pending[i]))
      && Priced(pending)
      && total == Resume(done, logs, Match(product, taker, pending, logSeq, tradeSeq))
    }

    /** One turn of the matching loop; `stop` is its break. */
    method MatchNext(makerDepth: Depth, taker: BookOrder, itr: seq<Key>, ghost total: Matched, ghost logs: seq<Log>,
                     ghost done: seq<BookOrder>, ghost pending: seq<BookOrder>)
      returns (taker': BookOrder, step: seq<Log>, stop: bool, ghost done': seq<BookOrder>)
      requires Walking(total, makerDepth, taker, logs, itr, done, pending) && itr != []
      modifies `tradeSeq, `logSeq, makerDepth
      ensures makerDepth.Valid()
      ensures stop ==> total == Matched(taker', makerDepth.View(), logs + step, logSeq, tradeSeq)
      ensures !stop ==> Walking(total, makerDepth, taker', logs + step, itr[1..], done', pending[1..])
    {
      hide Match, TradeLogs, TradeSize, Spend;
      taker', step, stop, done' := taker, [], true, done;
      assert logs + [] == logs;
      PendingMaker(makerDepth.side, makerDepth.orders, makerDepth.queue, done, pending);
      var makerOrder := makerDepth.orders[itr[0].orderId];

      if !PricesCross(taker.side, taker.price, makerOrder.price) {
        MatchStops(done, logs, product, taker, pending, logSeq, tradeSeq);
        return;
      }
      var size := TradeSize(product, taker, makerOrder);
      if size == 0 {
        MatchStops(done, logs, product, taker, pending, logSeq, tradeSeq);
        return;
      }
      SizeFits(product, taker, makerOrder);
      taker' := Spend(taker, size, makerOrder.price);
      ghost var logSeq0, tradeSeq0 := logSeq, tradeSeq;
      step := Trade(makerDepth, taker', makerOrder, size, done, pending);
      done' := done + Reduced(makerOrder, size);
      MatchAdvances(total, done, logs, product, taker, pending, logSeq0, tradeSeq0, size, taker', step, done');
      stop := Exhausted(taker');
    }

    /** The matching loop: walks the opposite queue, shrinking makers and logging trades. */
    method MatchTaker(order: BookOrder) returns (taker: BookOrder, logs: seq<Log>)
      requires Valid() && !LoopKills(order, DepthOf(order.side.Opposite()).View())
      modifies `tradeSeq, `logSeq, DepthOf(order.side.Opposite())
      ensures DepthOf(order.side.Opposite()).Valid()
      ensures Matched(taker, DepthOf(order.side.Opposite()).View(), logs, logSeq, tradeSeq)
              == Match(product, order, old(DepthOf(order.side.Opposite()).View()), old(logSeq), old(tradeSeq))
    {
      hide Match;
      taker, logs := order, [];
      var makerDepth := DepthOf(order.side.Opposite());
      var itr := makerDepth.queue;
      ghost var total := Match(product, order, makerDepth.View(), logSeq, tradeSeq);
      ghost var done, pending := [], makerDepth.View();
      ResumeStart(total);
      KeysOfView(makerDepth.side, makerDepth.orders, makerDepth.queue);
      while itr != []
        invariant Walking(total, makerDepth, taker, logs, itr, done, pending)
        decreases |itr|
      {
        var step, stop;
        taker, step, stop, done := MatchNext(makerDepth, taker, itr, total, logs, done, pending);
        itr, pending := itr[1..], pending[1..];
        logs := logs + step;
        if stop {
          return;
        }
      }
      MatchStops(done, logs, product, taker, pending, logSeq, tradeSeq);
    }

    /** The matching loop within the whole book. */
    method MatchInBook(order: BookOrder) returns (taker: BookOrder, logs: seq<Log>)
      requires Valid() && !LoopKills(order, DepthOf(order.side.Opposite()).View())
      modifies `tradeSeq, `logSeq, DepthOf(order.side.Opposite())
      ensures Valid()
      ensures var m := Match(product, order, old(View()).Resting(order.side.Opposite()), old(logSeq), old(tradeSeq));
              taker == m.taker && logs == m.logs && View() == AfterTrades(old(View()), order.side, m)
    {
      hide Match, Coupled, ViewOf, WindowsHold, Sound;
      TradesKeepSound(product, View(), order);
      taker, logs := MatchTaker(order);
    }

    /** Ends a taker whose trades are done: an unfilled limit order rests, anything else is logged
        as done. */
    method SettleTaker(taker: BookOrder) returns (log: Log)
      requires Valid() && (taker.otype == Limit ==> taker.price > 0)
      requires taker.otype == Limit && taker.size > 0 ==> taker.side != OtherSide
      requires taker.orderId in accepted && !HasId(View().Resting(taker.side), taker.orderId)
      modifies `logSeq, if taker.side == OtherSide then {} else {DepthOf(taker.side)}
      ensures Valid()
      ensures Outcome(View(), [log]) == Settle(old(View()), taker)
    {
      hide Coupled, ViewOf, WindowsHold, Sound;
      SettleKeepsSound(View(), taker);
      if taker.otype == Limit && taker.size > 0 {
        DepthOf(taker.side).AddNew(taker);
        var openSeq := NextLogSeq();
        return NewOpenLog(openSeq, taker);
      }
      var order, remainingSize, reason := taker, taker.size, Filled;
      if taker.otype == Market {
        order := taker.(price := 0);
        remainingSize := 0;
        if (taker.side == Sell && taker.size > 0) || (taker.side == Buy && taker.funds > 0) {
          reason := Cancelled;
        }
      }
      var doneSeq := NextLogSeq();
      return NewDoneLog(doneSeq, order, remainingSize, reason);
    }

    method ApplyOrder(order: Order) returns (logs: seq<Log>)
      requires Valid() && order.id < ID_LIMIT
      requires order.otype == Limit ==> order.price > 0
      requires !ApplyKills(product, View(), order)
      modifies `tradeSeq, `logSeq, `accepted, bids, asks, windows, set w | w in windows :: w.bitmap
      ensures Valid()
      ensures Outcome(View(), logs) == Matcher.ApplyOrder(product, old(View()), order)
    {
      hide Match, Coupled, ViewOf, WindowsHold, Settle;
      ghost var before := View();
      var ok := PutId(order.id);
      if !ok {
        return [];
      }
      FreshIdsDoNotRest(before, order, product);
      var taker := PrepareTaker(product, NewBookOrder(order));
      taker, logs := MatchInBook(taker);
      var log := SettleTaker(taker);
      logs := logs + [log];
    }

    method CancelOrder(order: Order) returns (logs: seq<Log>)
      requires Valid() && order.id < ID_LIMIT && !CancelKills(order)
      modifies `logSeq, `accepted, DepthOf(order.side), windows, set w | w in windows :: w.bitmap
      ensures Valid()
      ensures Outcome(View(), logs) == Matcher.CancelOrder(old(View()), order)
    {
      hide Coupled, ViewOf, WindowsHold, Sound, Decrease, Lookup;
      CancelKeepsSound(View(), order);
      var _ := PutId(order.id);
      var found := DepthOf(order.side).TakeOut(order.id);
      if found.None? {
        return [];
      }
      var doneSeq := NextLogSeq();
      logs := [NewDoneLog(doneSeq, found.value, found.value.size, Cancelled)];
    }

    method NullifyOrder(order: Order) returns (logs: seq<Log>)
      requires Valid() && order.id < ID_LIMIT
      modifies `logSeq, `accepted, windows, set w | w in windows :: w.bitmap
      ensures Valid()
      ensures Outcome(View(), logs) == Matcher.NullifyOrder(old(View()), order)
    {
      var _ := PutId(order.id);
      var doneSeq := NextLogSeq();
      logs := [NewDoneLog(doneSeq, NewBookOrder(order), order.size, Cancelled)];
    }

    method IsOrderWillNotMatch(order: Order) returns (b: bool)
      requires Valid()
      ensures b == WillNotMatch(product, View(), order)
    {
      var taker := PrepareTaker(product, NewBookOrder(order));
      var makerDepth := DepthOf(taker.side.Opposite());
      if makerDepth.queue == [] {
        return true;
      }
      // Min() for a buy, Max() for a sell: the first and the last key of the comparator's order
      var key := if taker.side == Buy then makerDepth.queue[0] else makerDepth.queue[|makerDepth.queue| - 1];
      assert key in makerDepth.queue;
      var makerOrder := makerDepth.orders[key.orderId];
      b := !PricesCross(taker.side, taker.price, makerOrder.price);
    }

    method IsOrderWillFullMatch(order: Order) returns (b: bool)
      requires Valid() && !OrderLoopKills(product, View(), order)
      ensures b == WillFullMatch(product, View(), order)
    {
      hide Coupled, WindowsHold;
      var taker := PrepareTaker(product, NewBookOrder(order));
      var makerDepth := DepthOf(taker.side.Opposite());
      var itr := makerDepth.queue;
      ghost var pending := makerDepth.View();
      QueueEntries(makerDepth.side, makerDepth.orders, makerDepth.queue);
      while itr != []
        invariant |itr| == |pending| && Priced(pending)
        invariant forall i :: 0 <= i < |itr| ==>
          itr[i].orderId in makerDepth.orders && makerDepth.orders[itr[i].orderId] == pending[i]
        invariant DryRun(product, taker, pending)
                  == DryRun(product, PrepareTaker(product, NewBookOrder(order)), makerDepth.View())
        decreases |itr|
      {
        var makerOrder := makerDepth.orders[itr[0].orderId];
        if !PricesCross(taker.side, taker.price, makerOrder.price) {
          break;
        }
        var size := TradeSize(product, taker, makerOrder);
        if size == 0 {
          break;
        }
        taker := Spend(taker, size, makerOrder.price);
        itr, pending := itr[1..], pending[1..];
        if Exhausted(taker) {
          pending := [];
          break;
        }
      }
      assert DryRun(product, taker, pending) == taker;
      b := !(taker.otype == Limit && taker.size > 0);
    }

    /** Copies the orders and the counters; the windows are the live ones. */
    method Snapshot() returns (snapshot: OrderBookSnapshot)
      requires Valid()
      ensures SnapshotOf(Snapshots.Snapshot(snapshot.orders, snapshot.tradeSeq, snapshot.logSeq, accepted), View())
      ensures snapshot.windows == windows
    {
      var sells := CopyOrders(asks);
      var buys := CopyOrders(bids);
      SidesApart(sells, buys, View());
      snapshot := OrderBookSnapshot(sells + buys, tradeSeq, logSeq, windows);
    }

    /** Into a new book: the windows of a snapshot that has one per shard, new ones otherwise. */
    method Restore(snapshot: OrderBookSnapshot, ghost ids: set<nat>)
      requires bids.side == Buy && asks.side == Sell && bids != asks
      requires bids.orders == asks.orders == map[] && bids.queue == asks.queue == []
      requires DistinctPlaces(snapshot.orders)
      requires |snapshot.windows| == TABLE_ORDER_SPLIT_COUNT ==> WindowsHold(snapshot.windows, ids)
      modifies this, bids, asks
      ensures bids.Valid() && asks.Valid() && WindowsHold(windows, accepted)
      ensures |snapshot.windows| == TABLE_ORDER_SPLIT_COUNT ==> windows == snapshot.windows && accepted == ids
      ensures |snapshot.windows| != TABLE_ORDER_SPLIT_COUNT ==> accepted == {}
      ensures View() == Restored(Snapshots.Snapshot(snapshot.orders, snapshot.tradeSeq, snapshot.logSeq, accepted))
      ensures Sound(View()) ==> Valid()
    {
      hide Coupled, ViewOf, WindowsHold, Sound;
      logSeq, tradeSeq, windows, accepted := snapshot.logSeq, snapshot.tradeSeq, snapshot.windows, ids;
      if |windows| != TABLE_ORDER_SPLIT_COUNT {
        windows := NewWindows();
        accepted := {};
      }
      EmptyDepth(Buy);
      EmptyDepth(Sell);
      ghost var start, ws, acc := View(), windows, accepted;
      for i := 0 to |snapshot.orders|
        invariant bids.Valid() && asks.Valid()
        invariant View() == FileAll(start, snapshot.orders[..i])
        invariant windows == ws && accepted == acc && WindowsHold(windows, accepted)
      {
        FileAllNext(start, snapshot.orders, i);
        FileOne(snapshot.orders[i]);
      }
      assert snapshot.orders[..|snapshot.orders|] == snapshot.orders;
    }

    method FileOne(order: BookOrder)
      requires bids.side == Buy && asks.side == Sell && bids != asks && bids.Valid() && asks.Valid()
      requires !HasId(View().Resting(order.side), order.orderId) && order.side != OtherSide
      modifies DepthOf(order.side)
      ensures bids.Valid() && asks.Valid() && View() == File(old(View()), order)
    {
      hide Coupled, ViewOf;
      DepthOf(order.side).AddNew(order);
    }
  }
}
