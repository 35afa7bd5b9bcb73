/** From matching logs to fills: what the fill maker writes to the fill table
    (worker/fill_maker.go). */
module Fills {
  import opened Exchange

  /** `Unstated` is any string but "T" and "M". */
  datatype Liquidity = TakerLiquidity | MakerLiquidity | Unstated

  datatype Fill = Fill(
    tradeSeq: nat, messageSeq: nat, orderId: nat, size: int, price: int, liquidity: Liquidity,
    side: Option<Side>, done: bool, doneReason: DoneReason, settled: bool)

  /** A match makes a fill for each of its two orders, the taker's first; both are given the sides
      of the log the other way round, which nothing reads. */
  function FillsOfLog(log: Log): seq<Fill> {
    match log
    case MatchLog(sequence, tradeSeq, takerId, makerId, _, _, side, price, size, _, _) =>
      [Fill(tradeSeq, sequence, takerId, size, price, TakerLiquidity, Some(side), false, Filled, false),
       Fill(tradeSeq, sequence, makerId, size, price, MakerLiquidity, Some(side.Opposite()), false, Filled, false)]
    case DoneLog(sequence, orderId, _, _, remainingSize, reason, _, _) =>
      [Fill(0, sequence, orderId, remainingSize, 0, Unstated, None, true, reason, false)]
    case OpenLog(_, _, _, _, _, _, _) => []
  }

  function FillsOf(logs: seq<Log>): seq<Fill>
    decreases |logs|
  {
    if logs == [] then [] else FillsOf(logs[..|logs| - 1]) + FillsOfLog(logs[|logs| - 1])
  }

  const FLUSH_BATCH: nat := 1000

  class FillMaker {
    var fillCh: seq<Fill>
    var batch: seq<Fill>
    var table: seq<Fill>

    /** The logs seen since the table's last fill was written. */
    ghost var seen: seq<Log>
    ghost const before: seq<Fill>

    /** Written, batched and queued fills are, in order, those of the logs seen; a batch is kept
        back only while more fills are queued. */
    ghost predicate Valid()
      reads this
    {
      && table + batch + fillCh == before + FillsOf(seen)
      && (batch != [] ==> fillCh != [] && |batch| < FLUSH_BATCH)
    }

    constructor (table: seq<Fill>)
      ensures Valid() && this.table == table && seen == [] && before == table && fillCh == []
    {
      this.table, before, fillCh, batch, seen := table, table, [], [], [];
      new;
      assert table + [] + [] == before + FillsOf([]);
    }

    method Push(fill: Fill)
      modifies `fillCh
      ensures fillCh == old(fillCh) + [fill]
    {
      fillCh := fillCh + [fill];
    }

    method OnMatchLog(log: Log)
      requires Valid() && log.MatchLog?
      modifies this
      ensures Valid() && seen == old(seen) + [log] && table == old(table)
    {
      ghost var queued := fillCh;
      Push(Fill(log.tradeSeq, log.sequence, log.takerOrderId, log.size, log.price, TakerLiquidity,
                Some(log.side), false, Filled, false));
      Push(Fill(log.tradeSeq, log.sequence, log.makerOrderId, log.size, log.price, MakerLiquidity,
                Some(log.side.Opposite()), false, Filled, false));
      assert table + batch + fillCh == (table + batch + queued) + FillsOfLog(log);
      Seen(log);
    }

    method OnDoneLog(log: Log)
      requires Valid() && log.DoneLog?
      modifies this
      ensures Valid() && seen == old(seen) + [log] && table == old(table)
    {
      ghost var queued := fillCh;
      Push(Fill(0, log.sequence, log.orderId, log.remainingSize, 0, Unstated, None, true, log.reason, false));
      assert table + batch + fillCh == (table + batch + queued) + FillsOfLog(log);
      Seen(log);
    }

    method OnOpenLog(log: Log)
      requires Valid() && log.OpenLog?
      modifies this
      ensures Valid() && seen == old(seen) + [log] && table == old(table)
    {
      Seen(log);
    }

    /** One turn of the flusher takes one fill from the queue, and writes the batch once the queue is
        empty or a thousand fills have come together; nothing queued is a turn not taken. */
    method Flush()
      requires Valid()
      modifies this
      ensures Valid() && seen == old(seen)
      ensures fillCh == [] ==> table == before + FillsOf(seen)
      ensures old(fillCh) == [] ==> unchanged(this)
      ensures old(fillCh) != [] ==>
        && fillCh == old(fillCh)[1..]
        && table == old(table) + if fillCh == [] || |old(batch)| >= 999 then old(batch) + [old(fillCh)[0]] else []
    {
      if fillCh == [] {
        return;
      }
      ghost var all := table + batch + fillCh;
      batch := batch + [fillCh[0]];
      fillCh := fillCh[1..];
      assert table + batch + fillCh == all;
      if fillCh != [] && |batch| < FLUSH_BATCH {
        return;
      }
      table := table + batch;
      batch := [];
      assert table + batch + fillCh == all;
    }

    ghost method Seen(log: Log)
      requires table + batch + fillCh == before + (FillsOf(seen) + FillsOfLog(log))
      requires batch != [] ==> fillCh != [] && |batch| < FLUSH_BATCH
      modifies `seen
      ensures Valid() && seen == old(seen) + [log]
    {
      assert (seen + [log])[..|seen|] == seen;
      seen := seen + [log];
    }
  }
}
