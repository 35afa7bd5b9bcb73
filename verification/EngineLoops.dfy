/** The bodies of the engine's loops, one turn each, over their own variables, proved against the
    steps of `Engines` (matching/engine.go). */
module EngineLoops {
  import opened Exchange
  import opened Depths
  import opened Matcher
  import opened Snapshots
  import opened Windows
  import opened OrderBooks
  import opened Engines

  class Fetcher {
    var offset: nat

    /** The first order to read: the one after the restored offset, or the head of the topic. */
    constructor (restored: Option<EngineSnapshot>)
      ensures offset == Start([], restored).fetched
    {
      offset := if restored.Some? then restored.value.orderOffset else 0;
      new;
      if offset > 0 {
        offset := offset + 1;
      }
    }

    method FetchOrder(orders: seq<Order>) returns (o: OffsetOrder)
      requires offset < |orders|
      modifies this
      ensures o == OffsetOrder(old(offset), orders[old(offset)]) && offset == old(offset) + 1
    {
      o := OffsetOrder(offset, orders[offset]);
      offset := offset + 1;
    }
  }

  class Applier {
    const orderBook: OrderBook
    var orderOffset: nat

    constructor (orderBook: OrderBook)
      ensures this.orderBook == orderBook && orderOffset == 0
    {
      this.orderBook := orderBook;
      orderOffset := 0;
    }

    /** The dispatch on status and time in force. */
    method OnOrder(offset: nat, order: Order) returns (logs: seq<Log>)
      requires orderBook.Valid() && order.id < ID_LIMIT && (order.otype == Limit ==> order.price > 0)
      requires !Kills(orderBook.product, orderBook.View(), order)
      modifies this, orderBook`tradeSeq, orderBook`logSeq, orderBook`accepted, orderBook.bids, orderBook.asks,
               orderBook.windows, set w | w in orderBook.windows :: w.bitmap
      ensures orderBook.Valid() && orderOffset == offset
      ensures Outcome(orderBook.View(), logs) == Step(orderBook.product, old(orderBook.View()), order)
    {
      hide Step, WindowsHold, Sound, ApplyKills, OrderLoopKills, Coupled, ViewOf, Matcher.ApplyOrder, Matcher.CancelOrder, Matcher.NullifyOrder,
           WillNotMatch, WillFullMatch;
      logs := [];
      StepCases(orderBook.product, orderBook.View(), order);
      if order.cancelling {
        logs := orderBook.CancelOrder(order);
      } else if order.tif == IOC {
        logs := orderBook.ApplyOrder(order);
        var iocLogs := orderBook.CancelOrder(order);
        logs := logs + iocLogs;
      } else if order.tif == GTX {
        var rests := orderBook.IsOrderWillNotMatch(order);
        if rests {
          logs := orderBook.ApplyOrder(order);
        } else {
          logs := orderBook.NullifyOrder(order);
        }
      } else if order.tif == FOK {
        var fills := orderBook.IsOrderWillFullMatch(order);
        if fills {
          logs := orderBook.ApplyOrder(order);
        } else {
          logs := orderBook.NullifyOrder(order);
        }
      } else if order.tif == GTC {
        logs := orderBook.ApplyOrder(order);
      }
      orderOffset := offset;
    }

    /** A snapshot of the book, if enough orders have gone by since the one the request names. */
    method OnSnapshotRequest(requested: nat) returns (snapshot: Option<OrderBookSnapshot>)
      requires orderBook.Valid()
      ensures snapshot.None? <==> orderOffset - requested <= 1000
      ensures snapshot.Some? ==>
                var s := snapshot.value;
                SnapshotOf(Snapshot(s.orders, s.tradeSeq, s.logSeq, orderBook.accepted), orderBook.View())
                && s.windows == orderBook.windows
    {
      var delta := orderOffset - requested;
      if delta <= SNAPSHOT_DELTA {
        return None;
      }
      var s := orderBook.Snapshot();
      return Some(s);
    }
  }

  lemma {:induction false} StepCases(p: Product, b: Book, o: Order)
    requires Sound(b)
    ensures o.cancelling ==> Step(p, b, o) == CancelOrder(b, o)
    ensures !o.cancelling && o.tif == GTC ==> Step(p, b, o) == ApplyOrder(p, b, o)
    ensures !o.cancelling && o.tif == IOC ==>
              var applied := ApplyOrder(p, b, o);
              var cancelled := CancelOrder(applied.book, o);
              Step(p, b, o) == Outcome(cancelled.book, applied.logs + cancelled.logs)
    ensures !o.cancelling && (o.tif == GTX || o.tif == FOK) ==>
              Step(p, b, o) == if (if o.tif == GTX then WillNotMatch(p, b, o) else WillFullMatch(p, b, o))
                               then ApplyOrder(p, b, o) else NullifyOrder(b, o)
    ensures !o.cancelling && o.tif == Unknown ==> Step(p, b, o) == Outcome(b, [])
  {
    hide ApplyOrder, CancelOrder, NullifyOrder, WillNotMatch, WillFullMatch, Sound;
  }

  class CommitterLoop {
    var lastSeq: nat
    var pending: Option<EngineSnapshot>
    var logs: seq<Log>
    var logStore: seq<Log>
    var snapshotCh: seq<EngineSnapshot>

    constructor (logSeq: nat, logStore: seq<Log>)
      ensures State() == Committer(logSeq, None, []) && this.logStore == logStore && snapshotCh == []
    {
      lastSeq, pending, logs := logSeq, None, [];
      this.logStore, snapshotCh := logStore, [];
    }

    function State(): Committer
      reads this
    {
      Committer(lastSeq, pending, logs)
    }

    /** A log received, with `waiting` more in the channel. */
    method ReceiveLog(log: Log, waiting: nat)
      modifies this
      ensures State() == OnLog(old(State()), log, waiting).committer
      ensures logStore == old(logStore) + OnLog(old(State()), log, waiting).stored
      ensures snapshotCh == old(snapshotCh) + Listed(OnLog(old(State()), log, waiting).approved)
      ensures log.sequence > old(lastSeq) ==>
                logs == if waiting == 0 || |old(logs)| >= 99 then [] else old(logs) + [log]
    {
      if log.sequence <= lastSeq {
        return;
      }
      lastSeq := log.sequence;
      logs := logs + [log];
      if waiting > 0 && |logs| < LOG_BATCH {
        return;
      }
      logStore := logStore + logs;
      logs := [];
      if pending.Some? && lastSeq >= pending.value.book.logSeq {
        snapshotCh := snapshotCh + [pending.value];
        pending := None;
      }
    }

    method ReceiveApproveRequest(snapshot: EngineSnapshot)
      modifies this
      ensures State() == OnApproveRequest(old(State()), snapshot).committer && logStore == old(logStore)
      ensures snapshotCh == old(snapshotCh) + Listed(OnApproveRequest(old(State()), snapshot).approved)
    {
      if lastSeq >= snapshot.book.logSeq {
        snapshotCh := snapshotCh + [snapshot];
        pending := None;
        return;
      }
      pending := Some(snapshot);
    }
  }

  class SnapshotLoop {
    var orderOffset: nat
    var snapshotStore: Option<EngineSnapshot>

    constructor (restored: Option<EngineSnapshot>)
      ensures forall stored :: Drives(Start(stored, restored))
    {
      orderOffset := if restored.Some? then restored.value.orderOffset else 0;
      snapshotStore := restored;
    }

    /** The loop's variable and the store are those of the engine `e`. */
    ghost predicate Drives(e: Engine)
      reads this
    {
      e.lastOffset == orderOffset && e.persisted == snapshotStore
    }

    /** The next snapshot of the channel; `ok` is whether storing it succeeded. The loop goes on as
        the engine does after its turn. */
    method ReceiveSnapshot(ghost e: Engine, snapshot: EngineSnapshot, ok: bool)
      requires Drives(e) && e.snapshotCh != [] && e.snapshotCh[0] == snapshot
      modifies this
      ensures Drives(Persisting(e, ok))
    {
      if !ok {
        return;
      }
      snapshotStore := Some(snapshot);
      orderOffset := snapshot.orderOffset;
    }
  }
}
