/** Trades create no money: the bills of both sides of every match cancel out, however the fills
    are batched and whichever side settles first (service/order_service.go, worker/fill_maker.go). */
module Conservation {
  import opened Exchange
  import opened Fills
  import opened Sums
  import opened Ledgers
  import opened Placement
  import opened LedgerRuns

  predicate SettledAt(fills: seq<Fill>, i: nat) {
    i < |fills| && fills[i].settled
  }

  /** A match's two fills, side by side in the feed, are both settled or both not. */
  ghost predicate EvenlySettled(fills: seq<Fill>, feed: seq<Fill>) {
    forall i :: 0 <= i < |feed| && feed[i].liquidity == TakerLiquidity ==> (SettledAt(fills, i) <==> SettledAt(fills, i + 1))
  }

  /** The two orders of a match, once known to the ledger, are on opposite sides. */
  ghost predicate Opposed(orders: map<nat, OrderRow>, feed: seq<Fill>) {
    forall i :: 0 <= i < |feed| - 1 && feed[i].liquidity == TakerLiquidity
                && feed[i].orderId in orders && feed[i + 1].orderId in orders ==>
      orders[feed[i].orderId].side == orders[feed[i + 1].orderId].side.Opposite()
  }

  ghost predicate Pairs(fills: seq<Fill>, feed: seq<Fill>, orders: map<nat, OrderRow>) {
    PrefixOf(fills, feed, orders) && EvenlySettled(fills, feed) && Opposed(orders, feed)
  }

  lemma {:induction false} PairsCancel(logs: seq<Log>, fills: seq<Fill>, orders: map<nat, OrderRow>, pair: Pair, c: nat)
    requires Pairs(fills, FillsOf(logs), orders)
    ensures SumSeq(fills, SettledNet(pair, orders, c)) == 0
    decreases |logs|
  {
    hide SettledNet, FillsOfLog, Pairs, SumSeq;
    if logs == [] {
      NoPairs(fills, orders, SettledNet(pair, orders, c));
    } else {
      var n := |logs| - 1;
      var before := FillsOf(logs[..n]);
      PairsBefore(logs, fills, orders);
      if |fills| <= |before| {
        PairsCancel(logs[..n], fills, orders, pair, c);
      } else {
        PairsCancel(logs[..n], fills[..|before|], orders, pair, c);
        assert fills == fills[..|before|] + fills[|before|..];
        SumAppend(fills[..|before|], fills[|before|..], SettledNet(pair, orders, c));
        LastPairCancels(logs[n], before, fills, orders, pair, c);
      }
    }
  }

  lemma NoPairs(fills: seq<Fill>, orders: map<nat, OrderRow>, f: Fill -> int)
    requires Pairs(fills, FillsOf([]), orders)
    ensures SumSeq(fills, f) == 0
  {
  }

  lemma {:induction false} PairsBefore(logs: seq<Log>, fills: seq<Fill>, orders: map<nat, OrderRow>)
    requires logs != [] && Pairs(fills, FillsOf(logs), orders)
    ensures var before := FillsOf(logs[..|logs| - 1]);
            Pairs(if |fills| <= |before| then fills else fills[..|before|], before, orders)
  {
    hide FillsOfLog;
    var before, feed := FillsOf(logs[..|logs| - 1]), FillsOf(logs);
    assert forall i :: 0 <= i < |before| ==> feed[i] == before[i];
    PairsStayEven(logs[..|logs| - 1], fills, if |fills| <= |before| then fills else fills[..|before|], feed);
  }

  /** A taker's fill always has its maker's after it. */
  lemma TakerIsFollowed(logs: seq<Log>, i: nat)
    requires i < |FillsOf(logs)| && FillsOf(logs)[i].liquidity == TakerLiquidity
    ensures i + 1 < |FillsOf(logs)|
    decreases |logs|
  {
    var n := |logs| - 1;
    if i < |FillsOf(logs[..n])| {
      TakerIsFollowed(logs[..n], i);
    }
  }

  lemma PairsStayEven(logs: seq<Log>, fills: seq<Fill>, kept: seq<Fill>, feed: seq<Fill>)
    requires FillsOf(logs) <= feed && EvenlySettled(fills, feed)
    requires kept == if |fills| <= |FillsOf(logs)| then fills else fills[..|FillsOf(logs)|]
    ensures EvenlySettled(kept, FillsOf(logs))
  {
    var before := FillsOf(logs);
    forall i | 0 <= i < |before| && before[i].liquidity == TakerLiquidity
      ensures SettledAt(kept, i) <==> SettledAt(kept, i + 1)
    {
      TakerIsFollowed(logs, i);
      assert feed[i] == before[i];
      assert SettledAt(fills, i) <==> SettledAt(fills, i + 1);
    }
  }

  lemma LastPairCancels(log: Log, before: seq<Fill>, fills: seq<Fill>, orders: map<nat, OrderRow>, pair: Pair, c: nat)
    requires Pairs(fills, before + FillsOfLog(log), orders) && |fills| > |before|
    ensures SumSeq(fills[|before|..], SettledNet(pair, orders, c)) == 0
  {
    var k, feed, f := |before|, before + FillsOfLog(log), SettledNet(pair, orders, c);
    assert feed[k] == FillsOfLog(log)[0];
    var tail := fills[k..];
    SumOne(fills[k], f);
    if log.MatchLog? {
      assert feed[k + 1] == FillsOfLog(log)[1];
      assert SettledAt(fills, k) <==> SettledAt(fills, k + 1);
      if |fills| == k + 1 {
        assert tail == [fills[k]];
      } else {
        assert tail == [fills[k]] + [fills[k + 1]];
        SumOne(fills[k + 1], f);
        SumAppend([fills[k]], [fills[k + 1]], f);
        NetsCancel(pair, fills[k], fills[k + 1], c);
      }
    } else {
      assert tail == [fills[k]];
    }
  }

  lemma NetsCancel(pair: Pair, f: Fill, g: Fill, c: nat)
    requires f.size == g.size && f.price == g.price && f.done == g.done
    ensures forall side: Side :: Net(pair, side, f, c) + Net(pair, side.Opposite(), g, c) == 0
  {
  }

  /** After any transactions in any order, if every match is settled on both sides or on neither,
      the bills of all users and of the fee account sum to zero in every currency. */
  lemma {:induction false} TradesConserve(info: ProductInfo, logs: seq<Log>, accounts: map<Key, Account>,
                                          events: seq<Event>, c: nat)
    requires FairFeed(FillsOf(logs)) && Solvent(accounts)
    requires var l := Play(info, FillsOf(logs), accounts, events);
             EvenlySettled(l.fills, FillsOf(logs)) && Opposed(l.orders, FillsOf(logs))
    ensures SumSeq(Play(info, FillsOf(logs), accounts, events).bills, Worth(c)) == 0
  {
    hide SumSeq, Play, EvenlySettled, Opposed, FairFeed;
    var l := Play(info, FillsOf(logs), accounts, events);
    PlayKeeps(info, FillsOf(logs), accounts, events, 0, c);
    PairsCancel(logs, l.fills, l.orders, info.pair, c);
  }

  /** One match settled on both sides, each with its own fee ratio and role: the two settlements
      together are worth nothing in any currency. */
  lemma MatchConserves(pair: Pair, log: Log, taker: OrderRow, maker: OrderRow, c: nat)
    requires log.MatchLog? && log.size >= 0 && log.price >= 0
    requires FairRow(taker.id, taker) && FairRow(maker.id, maker) && taker.side == maker.side.Opposite()
    ensures var takerBills := SettleFill(pair, taker, FillsOfLog(log)[0]).bills;
            var makerBills := SettleFill(pair, maker, FillsOfLog(log)[1]).bills;
            SumSeq(takerBills + makerBills, Worth(c)) == 0
  {
    var t, m := FillsOfLog(log)[0], FillsOfLog(log)[1];
    FeeIsFair(taker, t);
    FeeIsFair(maker, m);
    FillIsWorthItsNet(pair, taker, t, c);
    FillIsWorthItsNet(pair, maker, m, c);
    SumAppend(SettleFill(pair, taker, t).bills, SettleFill(pair, maker, m).bills, Worth(c));
    NetsCancel(pair, t, m, c);
  }
}
