/** The pushing service's book: rebuilt from the log alone, aggregated by price, and published as
    snapshots and changes (pushing/order_book.go, pushing/order_book_stream.go). */
module Replica {
  import opened Exchange
  import opened Sums

  datatype RestingOrder = RestingOrder(size: int, price: int, side: Side)

  datatype PriceLevel = PriceLevel(size: int, orderCount: int)

  datatype Level2Change = Level2Change(sequence: nat, side: Side, price: int, size: int)

  /** The orders by id, the levels of each side by price, the number of changes made, and the
      position of the last log that made one. */
  datatype L2Book = L2Book(
    orders: map<nat, RestingOrder>, bids: map<int, PriceLevel>, asks: map<int, PriceLevel>,
    sequence: nat, logOffset: int, logSeq: nat)
  {
    function Levels(side: Side): map<int, PriceLevel> {
      match side
      case Buy => bids
      case Sell => asks
      case OtherSide => map[]
    }

    function WithLevels(side: Side, levels: map<int, PriceLevel>): L2Book {
      match side
      case Buy => this.(bids := levels)
      case Sell => this.(asks := levels)
      case OtherSide => this
    }
  }

  const NewL2Book: L2Book := L2Book(map[], map[], map[], 0, 0, 0)

  datatype Reply =
    | Unchanged | Changed(change: Level2Change)
    | NegativeSize | MissingSide | MissingLevel | MissingMaker
  {
    predicate Panics() {
      NegativeSize? || MissingSide? || MissingLevel? || MissingMaker?
    }
  }

  datatype Saved = Saved(book: L2Book, reply: Reply)

  /** Records one change under the next number. */
  function Publish(b: L2Book, logOffset: int, logSeq: nat, side: Side, price: int, size: int): Saved {
    Saved(b.(logOffset := logOffset, logSeq := logSeq, sequence := b.sequence + 1),
          Changed(Level2Change(b.sequence + 1, side, price, size)))
  }

  function SaveOrder(b: L2Book, logOffset: int, logSeq: nat, orderId: nat, newSize: int, price: int, side: Side): Saved {
    var levels := b.Levels(side);
    if newSize < 0 then Saved(b, NegativeSize)
    else if orderId !in b.orders then
      if newSize == 0 then Saved(b, Unchanged)
      else
        var b' := b.(orders := b.orders[orderId := RestingOrder(newSize, price, side)]);
        if side == OtherSide then Saved(b', MissingSide)
        else
          var level := if price in levels then PriceLevel(levels[price].size + newSize, levels[price].orderCount + 1)
                       else PriceLevel(newSize, 1);
          Publish(b'.WithLevels(side, levels[price := level]), logOffset, logSeq, side, price, level.size)
    else
      var order := b.orders[orderId];
      var decrSize := order.size - newSize;
      var b' := b.(orders := if newSize == 0 then b.orders - {orderId} else b.orders[orderId := order.(size := newSize)]);
      if side == OtherSide then Saved(b', MissingSide)
      else if price !in levels then Saved(b', MissingLevel)
      else
        var size := levels[price].size - decrSize;
        var count := levels[price].orderCount - if newSize == 0 then 1 else 0;
        var levels' := if size == 0 then levels - {price} else levels[price := PriceLevel(size, count)];
        Publish(b'.WithLevels(side, levels'), logOffset, logSeq, side, price, size)
  }

  /** One log as the stream interprets it. */
  function ApplyLog(b: L2Book, logOffset: int, log: Log): Saved {
    match log
    case OpenLog(sequence, orderId, _, remainingSize, price, side, _) =>
      SaveOrder(b, logOffset, sequence, orderId, remainingSize, price, side)
    case MatchLog(sequence, _, _, makerId, _, _, side, price, size, _, _) =>
      if makerId !in b.orders then Saved(b, MissingMaker)
      else SaveOrder(b, logOffset, sequence, makerId, b.orders[makerId].size - size, price, side)
    case DoneLog(sequence, orderId, _, price, remainingSize, _, side, _) =>
      if orderId !in b.orders then Saved(b, Unchanged)
      else SaveOrder(b, logOffset, sequence, orderId, b.orders[orderId].size - remainingSize, price, side)
  }

  // ---- price levels are sums ----

  function SizeAt(side: Side, price: int): RestingOrder -> int {
    (o: RestingOrder) => if o.side == side && o.price == price then o.size else 0
  }

  function CountAt(side: Side, price: int): RestingOrder -> int {
    (o: RestingOrder) => if o.side == side && o.price == price then 1 else 0
  }

  /** The level of one price is there exactly when an order is, with their total and number. */
  ghost predicate LevelIsSum(b: L2Book, side: Side, price: int) {
    var size, count := SumMap(b.orders, SizeAt(side, price)), SumMap(b.orders, CountAt(side, price));
    if count == 0 then price !in b.Levels(side)
    else price in b.Levels(side) && b.Levels(side)[price] == PriceLevel(size, count)
  }

  ghost predicate Aggregated(b: L2Book) {
    && (forall id :: id in b.orders ==> b.orders[id].size > 0 && b.orders[id].side != OtherSide)
    && (forall side, price :: LevelIsSum(b, side, price))
  }

  lemma NewBookAggregated()
    ensures Aggregated(NewL2Book)
  {
  }

  lemma {:induction false} CountsAndSizes(orders: map<nat, RestingOrder>, side: Side, price: int)
    requires forall id :: id in orders ==> orders[id].size > 0
    ensures SumMap(orders, CountAt(side, price)) >= 0
    ensures SumMap(orders, SizeAt(side, price)) >= SumMap(orders, CountAt(side, price))
    ensures forall id :: id in orders && orders[id].side == side && orders[id].price == price ==>
      1 <= SumMap(orders, CountAt(side, price)) && orders[id].size <= SumMap(orders, SizeAt(side, price))
    decreases |orders|
  {
    SumBounds(orders, CountAt(side, price));
    SumBounds(orders, SizeAt(side, price));
    forall id | id in orders && orders[id].side == side && orders[id].price == price
      ensures 1 <= SumMap(orders, CountAt(side, price)) && orders[id].size <= SumMap(orders, SizeAt(side, price))
    {
      assert CountAt(side, price)(orders[id]) == 1 && SizeAt(side, price)(orders[id]) == orders[id].size;
    }
    if orders != map[] {
      var k :| k in orders;
      SumRemove(orders, k, CountAt(side, price));
      SumRemove(orders, k, SizeAt(side, price));
      CountsAndSizes(orders - {k}, side, price);
    }
  }

  /** The sums at one price after an order is stored under an id. */
  lemma SumsAfterStore(orders: map<nat, RestingOrder>, id: nat, o: RestingOrder, side: Side, price: int)
    ensures SumMap(orders[id := o], SizeAt(side, price))
            == SumMap(orders, SizeAt(side, price)) + SizeAt(side, price)(o)
               - (if id in orders then SizeAt(side, price)(orders[id]) else 0)
    ensures SumMap(orders[id := o], CountAt(side, price))
            == SumMap(orders, CountAt(side, price)) + CountAt(side, price)(o)
               - (if id in orders then CountAt(side, price)(orders[id]) else 0)
  {
    SumInsert(orders, id, o, SizeAt(side, price));
    SumInsert(orders, id, o, CountAt(side, price));
    if id in orders {
      SumRemove(orders, id, SizeAt(side, price));
      SumRemove(orders, id, CountAt(side, price));
    } else {
      SumAbsent(orders, id);
    }
  }

  lemma SumsAfterRemove(orders: map<nat, RestingOrder>, id: nat, side: Side, price: int)
    requires id in orders
    ensures SumMap(orders - {id}, SizeAt(side, price)) == SumMap(orders, SizeAt(side, price)) - SizeAt(side, price)(orders[id])
    ensures SumMap(orders - {id}, CountAt(side, price)) == SumMap(orders, CountAt(side, price)) - CountAt(side, price)(orders[id])
  {
    SumRemove(orders, id, SizeAt(side, price));
    SumRemove(orders, id, CountAt(side, price));
  }

  /** What saving does to the orders when it names an order by its own price and side. */
  function StoredAs(orders: map<nat, RestingOrder>, id: nat, o: RestingOrder): map<nat, RestingOrder> {
    if o.size == 0 then orders - {id} else orders[id := o]
  }

  lemma {:induction false} StoredSums(orders: map<nat, RestingOrder>, id: nat, o: RestingOrder, side: Side, price: int)
    requires id in orders ==> orders[id].side == o.side && orders[id].price == o.price
    ensures var old' := if id in orders then orders[id].size else 0;
            var here := side == o.side && price == o.price;
            var orders' := StoredAs(orders, id, o);
            && SumMap(orders', SizeAt(side, price)) == SumMap(orders, SizeAt(side, price)) + (if here then o.size - old' else 0)
            && SumMap(orders', CountAt(side, price))
               == SumMap(orders, CountAt(side, price))
                  + (if here then (if o.size == 0 then 0 else 1) - (if id in orders then 1 else 0) else 0)
  {
    if o.size != 0 {
      SumsAfterStore(orders, id, o, side, price);
    } else if id in orders {
      SumsAfterRemove(orders, id, side, price);
    } else {
      SumAbsent(orders, id);
    }
  }

  /** One level after a save: its sums move by what the order changed, and it is gone when its
      last order is. */
  lemma {:induction false} LevelAfterSave(b: L2Book, logOffset: int, logSeq: nat, id: nat, o: RestingOrder,
                                          sd: Side, pr: int)
    requires Aggregated(b) && o.size >= 0 && (o.size > 0 || id in b.orders) && o.side != OtherSide
    requires id in b.orders ==> b.orders[id].side == o.side && b.orders[id].price == o.price
    ensures var s := SaveOrder(b, logOffset, logSeq, id, o.size, o.price, o.side);
            !s.reply.Panics() && s.book.orders == StoredAs(b.orders, id, o) && LevelIsSum(s.book, sd, pr)
  {
    hide *;
    LevelFacts(b, id, o);
    LevelFacts(b, id, RestingOrder(o.size, pr, sd));
    StoredSums(b.orders, id, o, sd, pr);
    StoredStaysPositive(b.orders, id, o);
    EmptyIffCountZero(StoredAs(b.orders, id, o), sd, pr);
    SavedLevel(b, logOffset, logSeq, id, o, sd, pr);
  }

  lemma StoredStaysPositive(orders: map<nat, RestingOrder>, id: nat, o: RestingOrder)
    requires o.size >= 0
    ensures (forall k :: k in orders ==> orders[k].size > 0) ==>
      forall k :: k in StoredAs(orders, id, o) ==> StoredAs(orders, id, o)[k].size > 0
  {
  }

  /** What aggregation says of one level. */
  lemma {:induction false} LevelFacts(b: L2Book, id: nat, o: RestingOrder)
    requires Aggregated(b)
    ensures forall k :: k in b.orders ==> b.orders[k].size > 0
    ensures LevelIsSum(b, o.side, o.price)
    ensures SumMap(b.orders, SizeAt(o.side, o.price)) == 0 <==> SumMap(b.orders, CountAt(o.side, o.price)) == 0
    ensures SumMap(b.orders, CountAt(o.side, o.price)) >= 0
    ensures id in b.orders && b.orders[id].side == o.side && b.orders[id].price == o.price ==>
      SumMap(b.orders, CountAt(o.side, o.price)) >= 1
  {
    EmptyIffCountZero(b.orders, o.side, o.price);
    CountsAndSizes(b.orders, o.side, o.price);
  }

  lemma {:induction false} SavedLevel(b: L2Book, logOffset: int, logSeq: nat, id: nat, o: RestingOrder, sd: Side, pr: int)
    requires LevelIsSum(b, o.side, o.price) && LevelIsSum(b, sd, pr)
    requires o.size >= 0 && (o.size > 0 || id in b.orders) && o.side != OtherSide
    requires SumMap(b.orders, SizeAt(o.side, o.price)) == 0 <==> SumMap(b.orders, CountAt(o.side, o.price)) == 0
    requires id in b.orders ==> b.orders[id].side == o.side && b.orders[id].price == o.price
    requires SumMap(b.orders, CountAt(o.side, o.price)) >= if id in b.orders then 1 else 0
    requires var old' := if id in b.orders then b.orders[id].size else 0;
            var here := sd == o.side && pr == o.price;
            var orders' := StoredAs(b.orders, id, o);
            && SumMap(orders', SizeAt(sd, pr)) == SumMap(b.orders, SizeAt(sd, pr)) + (if here then o.size - old' else 0)
            && SumMap(orders', CountAt(sd, pr))
               == SumMap(b.orders, CountAt(sd, pr))
                  + (if here then (if o.size == 0 then 0 else 1) - (if id in b.orders then 1 else 0) else 0)
    requires SumMap(StoredAs(b.orders, id, o), SizeAt(sd, pr)) == 0 <==> SumMap(StoredAs(b.orders, id, o), CountAt(sd, pr)) == 0
    ensures var s := SaveOrder(b, logOffset, logSeq, id, o.size, o.price, o.side);
            !s.reply.Panics() && s.book.orders == StoredAs(b.orders, id, o) && LevelIsSum(s.book, sd, pr)
  {
    hide SumMap, SizeAt, CountAt, Aggregated;
    var s := SaveOrder(b, logOffset, logSeq, id, o.size, o.price, o.side);
    if id in b.orders {
      assert o.price in b.Levels(o.side);
      assert b.orders[id].(size := o.size) == o;
    }
    assert s.book.orders == StoredAs(b.orders, id, o);
    if sd == o.side && pr == o.price && id in b.orders {
      if SumMap(s.book.orders, CountAt(sd, pr)) == 0 {
        assert pr !in s.book.Levels(sd);
      } else {
        assert pr in s.book.Levels(sd);
      }
    }
  }

  /** Saving an order under its own price and side never panics while its size is not negative,
      and keeps every level the sum of its orders. */
  lemma {:induction false} SaveKeepsAggregated(b: L2Book, logOffset: int, logSeq: nat, id: nat, newSize: int,
                                               price: int, side: Side)
    requires Aggregated(b) && newSize >= 0 && side != OtherSide
    requires id in b.orders ==> b.orders[id].side == side && b.orders[id].price == price
    ensures var s := SaveOrder(b, logOffset, logSeq, id, newSize, price, side);
            && !s.reply.Panics() && Aggregated(s.book)
            && s.book.orders == StoredAs(b.orders, id, RestingOrder(newSize, price, side))
  {
    var o := RestingOrder(newSize, price, side);
    var s := SaveOrder(b, logOffset, logSeq, id, newSize, price, side);
    if id !in b.orders && newSize == 0 {
      SumAbsent(b.orders, id);
    } else {
      LevelAfterSave(b, logOffset, logSeq, id, o, side, price);
      StoredStaysPositive(b.orders, id, o);
      forall sd, pr
        ensures LevelIsSum(s.book, sd, pr)
      {
        LevelAfterSave(b, logOffset, logSeq, id, o, sd, pr);
      }
    }
  }

  lemma EmptyIffCountZero(orders: map<nat, RestingOrder>, side: Side, price: int)
    requires forall id :: id in orders ==> orders[id].size > 0
    ensures SumMap(orders, SizeAt(side, price)) == 0 <==> SumMap(orders, CountAt(side, price)) == 0
    decreases |orders|
  {
    CountsAndSizes(orders, side, price);
    if orders != map[] {
      var k :| k in orders;
      SumRemove(orders, k, CountAt(side, price));
      SumRemove(orders, k, SizeAt(side, price));
      CountsAndSizes(orders - {k}, side, price);
      EmptyIffCountZero(orders - {k}, side, price);
    }
  }
}
