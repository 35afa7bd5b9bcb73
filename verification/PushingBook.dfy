/** The pushing service's book and stream as they run: maps of orders and price levels changed in
    place, and the loop that applies logs and refreshes its snapshots, proved against the
    functions of `Replica` (pushing/order_book.go, pushing/order_book_stream.go). */
module PushingBook {
  import opened Exchange
  import opened Replica
  import opened Agreement

  datatype Level2Snapshot = Level2Snapshot(sequence: nat, bids: map<int, PriceLevel>, asks: map<int, PriceLevel>)

  class OrderBook {
    var orders: map<nat, RestingOrder>
    var bids: map<int, PriceLevel>
    var asks: map<int, PriceLevel>
    var sequence: nat
    var logOffset: int
    var logSeq: nat

    ghost function View(): L2Book
      reads this
    {
      L2Book(orders, bids, asks, sequence, logOffset, logSeq)
    }

    constructor ()
      ensures View() == NewL2Book
    {
      orders, bids, asks, sequence, logOffset, logSeq := map[], map[], map[], 0, 0, 0;
    }

    function Levels(side: Side): map<int, PriceLevel>
      reads this
      requires side != OtherSide
    {
      if side == Buy then bids else asks
    }

    method SetLevels(side: Side, levels: map<int, PriceLevel>)
      requires side != OtherSide
      modifies `bids, `asks
      ensures View() == old(View()).WithLevels(side, levels)
    {
      if side == Buy {
        bids := levels;
      } else {
        asks := levels;
      }
    }

    method SaveOrder(logOffset: int, logSeq: nat, orderId: nat, newSize: int, price: int, side: Side) returns (reply: Reply)
      modifies this
      ensures Saved(View(), reply) == Replica.SaveOrder(old(View()), logOffset, logSeq, orderId, newSize, price, side)
    {
      if newSize < 0 {
        return NegativeSize;
      }
      var changedLevel: PriceLevel;
      if orderId !in orders {
        if newSize == 0 {
          return Unchanged;
        }
        orders := orders[orderId := RestingOrder(newSize, price, side)];
        if side == OtherSide {
          return MissingSide;
        }
        var priceLevels := Levels(side);
        if price !in priceLevels {
          changedLevel := PriceLevel(newSize, 1);
        } else {
          changedLevel := PriceLevel(priceLevels[price].size + newSize, priceLevels[price].orderCount + 1);
        }
        SetLevels(side, priceLevels[price := changedLevel]);
      } else {
        var order := orders[orderId];
        var decrSize := order.size - newSize;
        var removed := newSize == 0;
        if removed {
          orders := orders - {orderId};
        } else {
          orders := orders[orderId := order.(size := newSize)];
        }
        if side == OtherSide {
          return MissingSide;
        }
        var priceLevels := Levels(side);
        if price !in priceLevels {
          return MissingLevel;
        }
        changedLevel := PriceLevel(priceLevels[price].size - decrSize, priceLevels[price].orderCount);
        if changedLevel.size == 0 {
          SetLevels(side, priceLevels - {price});
        } else if removed {
          SetLevels(side, priceLevels[price := PriceLevel(changedLevel.size, changedLevel.orderCount - 1)]);
        } else {
          SetLevels(side, priceLevels[price := changedLevel]);
        }
      }
      this.logOffset, this.logSeq := logOffset, logSeq;
      sequence := sequence + 1;
      return Changed(Level2Change(sequence, side, price, changedLevel.size));
    }

    /** The orders of the map in an arbitrary order. */
    method SnapshotFull() returns (s: FullSnapshot)
      ensures FullSnapshotOf(s, View())
    {
      var entries: seq<Entry> := [];
      var ids := orders.Keys;
      while ids != {}
        invariant ids <= orders.Keys
        invariant forall i, j :: 0 <= i < j < |entries| ==> entries[i].id != entries[j].id
        invariant forall i :: 0 <= i < |entries| ==>
          entries[i].id in orders && entries[i].id !in ids && orders[entries[i].id] == entries[i].order
        invariant forall id :: id in orders && id !in ids ==> exists i :: 0 <= i < |entries| && entries[i].id == id
        decreases |ids|
      {
        var id :| id in ids;
        ghost var before := entries;
        entries := entries + [Entry(id, orders[id])];
        assert entries[|before|].id == id;
        assert forall i :: 0 <= i < |before| ==> entries[i] == before[i];
        ids := ids - {id};
      }
      s := FullSnapshot(entries, sequence, logOffset, logSeq);
    }

    method SnapshotLevel2() returns (s: Level2Snapshot)
      ensures s == Level2Snapshot(sequence, bids, asks)
    {
      s := Level2Snapshot(sequence, bids, asks);
    }

    /** Into a new book: saves every order of the snapshot, then takes its position. */
    method Restore(s: FullSnapshot)
      requires View() == NewL2Book
      modifies this
      ensures View() == RestoreFull(s)
    {
      for i := 0 to |s.entries|
        invariant View() == SaveEntries(NewL2Book, s.entries[..i])
      {
        var e := s.entries[i];
        assert s.entries[..i + 1][..i] == s.entries[..i];
        var _ := SaveOrder(0, 0, e.id, e.order.size, e.order.price, e.order.side);
      }
      assert s.entries[..|s.entries|] == s.entries;
      sequence, logOffset, logSeq := s.sequence, s.logOffset, s.logSeq;
    }
  }

  class OrderBookStream {
    const orderBook: OrderBook
    var lastLevel2Snapshot: Option<Level2Snapshot>
    var lastFullSnapshot: Option<FullSnapshot>

    constructor (orderBook: OrderBook)
      ensures this.orderBook == orderBook
      ensures lastLevel2Snapshot == None && lastFullSnapshot == None
    {
      this.orderBook := orderBook;
      lastLevel2Snapshot, lastFullSnapshot := None, None;
    }

    /** The snapshot clients are given is at most ten changes old, whenever any was taken. */
    ghost predicate Fresh()
      reads this, orderBook
    {
      match lastLevel2Snapshot
      case None => true
      case Some(s) => s.sequence <= orderBook.sequence <= s.sequence + 10
    }

    method Interpret(offset: int, log: Log) returns (reply: Reply)
      modifies orderBook
      ensures Saved(orderBook.View(), reply) == ApplyLog(old(orderBook.View()), offset, log)
    {
      match log
      case DoneLog(sequence, orderId, _, price, remainingSize, _, side, _) =>
        if orderId !in orderBook.orders {
          return Unchanged;
        }
        var newSize := orderBook.orders[orderId].size - remainingSize;
        reply := orderBook.SaveOrder(offset, sequence, orderId, newSize, price, side);
      case OpenLog(sequence, orderId, _, remainingSize, price, side, _) =>
        reply := orderBook.SaveOrder(offset, sequence, orderId, remainingSize, price, side);
      case MatchLog(sequence, _, _, makerId, _, _, side, price, size, _, _) =>
        if makerId !in orderBook.orders {
          return MissingMaker;
        }
        var newSize := orderBook.orders[makerId].size - size;
        reply := orderBook.SaveOrder(offset, sequence, makerId, newSize, price, side);
    }

    /** One log of the applier's loop; a log of an order the book does not hold skips the rest of
        the turn. */
    method OnLog(offset: int, log: Log) returns (reply: Reply, full: Option<FullSnapshot>)
      requires Fresh()
      modifies this, orderBook
      ensures Saved(orderBook.View(), reply) == ApplyLog(old(orderBook.View()), offset, log)
      ensures !reply.Panics() ==> Fresh()
      ensures var skipped := (log.DoneLog? && log.orderId !in old(orderBook.orders)) || reply.Panics();
              lastLevel2Snapshot ==
              if !skipped && (old(lastLevel2Snapshot).None? || orderBook.sequence > old(lastLevel2Snapshot).value.sequence + 10)
              then Some(Level2Snapshot(orderBook.sequence, orderBook.bids, orderBook.asks)) else old(lastLevel2Snapshot)
      ensures var skipped := (log.DoneLog? && log.orderId !in old(orderBook.orders)) || reply.Panics();
              full.Some? <==>
              !skipped && (old(lastFullSnapshot).None? || orderBook.sequence > old(lastFullSnapshot).value.sequence + 10000)
      ensures full.Some? ==> FullSnapshotOf(full.value, orderBook.View())
      ensures lastFullSnapshot == if full.Some? then full else old(lastFullSnapshot)
    {
      full := None;
      if log.DoneLog? && log.orderId !in orderBook.orders {
        return Unchanged, full;
      }
      reply := Interpret(offset, log);
      if reply.Panics() {
        return;
      }
      if lastLevel2Snapshot.None? || orderBook.sequence - lastLevel2Snapshot.value.sequence > 10 {
        var s := orderBook.SnapshotLevel2();
        lastLevel2Snapshot := Some(s);
      }
      if lastFullSnapshot.None? || orderBook.sequence - lastFullSnapshot.value.sequence > 10000 {
        var s := orderBook.SnapshotFull();
        full := Some(s);
        lastFullSnapshot := full;
      }
    }

    /** The timer's turn. */
    method OnTimer()
      modifies `lastLevel2Snapshot
      requires Fresh()
      ensures Fresh()
      ensures lastLevel2Snapshot.Some?
      ensures lastLevel2Snapshot == old(lastLevel2Snapshot)
              || lastLevel2Snapshot == Some(Level2Snapshot(orderBook.sequence, orderBook.bids, orderBook.asks))
      ensures lastLevel2Snapshot.value.sequence == orderBook.sequence
    {
      if lastLevel2Snapshot.None? || orderBook.sequence > lastLevel2Snapshot.value.sequence {
        var s := orderBook.SnapshotLevel2();
        lastLevel2Snapshot := Some(s);
      }
    }
  }
}
