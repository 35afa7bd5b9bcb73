/** How far one call settles (service/account_service.go, service/order_service.go). */
module Batches {
  import opened Exchange
  import opened Fills
  import opened Sums
  import opened Tables
  import opened Ledgers
  import opened Placement
  import opened LedgerRuns

  // ---- how many rows wait ----

  function Waits(u: nat, c: nat): Bill -> int {
    (b: Bill) => if b.userId == u && b.currency == c && !b.settled then 1 else 0
  }

  /** How many bills of the account wait to be settled. */
  function Waiting(bills: seq<Bill>, u: nat, c: nat): int {
    SumSeq(bills, Waits(u, c))
  }

  function One<T>(pick: T -> bool): T -> int {
    (x: T) => if pick(x) then 1 else 0
  }

  /** A query with a limit finds all there are, or the limit. */
  lemma {:induction false} RowsCount<T>(s: seq<T>, pick: T -> bool, limit: nat)
    ensures |Rows(s, pick, limit)| == Min(SumSeq(s, One(pick)), limit) && SumSeq(s, One(pick)) >= 0
    decreases |s|
  {
    if s != [] {
      RowsCount(s[..|s| - 1], pick, limit);
    }
  }

  /** A row is found iff fewer than the limit stand before it. */
  lemma {:induction false} FoundIff<T>(s: seq<T>, pick: T -> bool, limit: nat, i: nat)
    requires i < |s| && pick(s[i])
    ensures i in Rows(s, pick, limit) <==> SumSeq(s[..i], One(pick)) < limit
    decreases |s|
  {
    hide SumSeq, One;
    var n := |s| - 1;
    var before := Rows(s[..n], pick, limit);
    if i == n {
      RowsCount(s[..n], pick, limit);
      assert n !in before;
    } else {
      FoundIff(s[..n], pick, limit, i);
      assert s[..n][..i] == s[..i];
      OneMoreRow(before, n, i);
    }
  }

  lemma OneMoreRow(rows: seq<nat>, n: nat, i: nat)
    requires i != n
    ensures i in rows + [n] <==> i in rows
  {
  }

  lemma {:induction false} NoneFound<T>(s: seq<T>, pick: T -> bool)
    requires SumSeq(s, One(pick)) == 0
    ensures forall i :: 0 <= i < |s| ==> !pick(s[i])
  {
    RowsCount(s, pick, 1);
    assert Rows(s, pick, 1) == [];
  }

  // ---- bills ----

  lemma {:induction false} WaitingIsFound(bills: seq<Bill>, u: nat, c: nat)
    ensures Waiting(bills, u, c) == SumSeq(bills, One(PendingBill(u, c)))
  {
    SumSame(bills, bills, Waits(u, c), One(PendingBill(u, c)));
  }

  ghost predicate SameButSettled(b: Bill, b': Bill) {
    b' == b.(settled := b'.settled) && (b.settled ==> b'.settled)
  }

  /** One call settles a hundred waiting bills, or all when there are fewer, and opens the account if
      there is none; bills of others, other accounts, orders and fills stay as they are. */
  lemma {:induction false} BillsGoOn(l: Ledger, u: nat, c: nat)
    ensures var l' := ExecuteBill(l, u, c);
            && Waiting(l'.bills, u, c) == (if Waiting(l.bills, u, c) <= 100 then 0 else Waiting(l.bills, u, c) - 100)
            && (Waiting(l.bills, u, c) > 0 ==> (u, c) in l'.accounts)
            && l'.accounts - {(u, c)} == l.accounts - {(u, c)} && l'.orders == l.orders && l'.fills == l.fills
            && |l'.bills| == |l.bills| && forall i :: 0 <= i < |l.bills| ==>
                 && SameButSettled(l.bills[i], l'.bills[i])
                 && (l'.bills[i].settled != l.bills[i].settled ==> l.bills[i].userId == u && l.bills[i].currency == c)
  {
    hide SumSeq, Mark, Picked, Rows, Waits;
    var rows := Rows(l.bills, PendingBill(u, c), BATCH);
    RowsCount(l.bills, PendingBill(u, c), BATCH);
    WaitingIsFound(l.bills, u, c);
    BillsCounted(l.bills, rows, u, c);
  }

  lemma {:induction false} BillsCounted(bills: seq<Bill>, rows: seq<nat>, u: nat, c: nat)
    requires InTable(bills, rows) && Increasing(rows)
    requires forall k :: 0 <= k < |rows| ==> PendingBill(u, c)(bills[rows[k]])
    ensures Waiting(Mark(bills, rows, SettleBill()), u, c) == Waiting(bills, u, c) - |rows|
  {
    hide SumSeq, Mark;
    var less: Bill -> int := (b: Bill) => -1;
    SumMark(bills, rows, SettleBill(), Waits(u, c), less);
    SumOfSame(Picked(bills, rows), less, -1);
  }

  lemma SumOfSame<T>(s: seq<T>, f: T -> int, n: int)
    requires forall i :: 0 <= i < |s| ==> f(s[i]) == n
    ensures SumSeq(s, f) == n * |s|
  {
    if s != [] {
      SumOfSame(s[..|s| - 1], f, n);
    }
  }

  /** With at most a hundred bills waiting, one call leaves none: the account is its opening balance
      and all its bills, whether or not it had been opened before. */
  lemma {:induction false} AllIsPaidOut(info: ProductInfo, feed: seq<Fill>, accounts: map<Key, Account>,
                                        events: seq<Event>, u: nat, c: nat)
    requires FairFeed(feed) && Solvent(accounts)
    requires 0 < Waiting(Play(info, feed, accounts, events).bills, u, c) <= 100
    ensures var l := ExecuteBill(Play(info, feed, accounts, events), u, c);
            var o := if (u, c) in accounts then accounts[(u, c)] else Account(0, 0);
            && (u, c) in l.accounts
            && l.accounts[(u, c)].available == o.available + SumSeq(l.bills, AvailableFor(u, c))
            && l.accounts[(u, c)].hold == o.hold + SumSeq(l.bills, HoldFor(u, c))
  {
    hide SumSeq, Play, ExecuteBill, Waiting, FairFeed, InBooks, Fair, SettledAvailable, SettledHold;
    var before := Play(info, feed, accounts, events);
    var l := ExecuteBill(before, u, c);
    PlayKeeps(info, feed, accounts, events, u, c);
    ExecuteBillKeepsBooks(before, accounts, info.pair, u, c, u, c);
    BooksBalance(l, accounts, info.pair, u, c);
    BillsGoOn(before, u, c);
    SettledAndPending(l.bills, u, c);
    NoneWaits(l.bills, u, c);
  }

  lemma BooksBalance(l: Ledger, opening: map<Key, Account>, pair: Pair, u: nat, c: nat)
    requires InBooks(l, opening, pair, u, c)
    ensures Balanced(l, opening, u, c)
  {
  }

  lemma {:induction false} NoneWaits(bills: seq<Bill>, u: nat, c: nat)
    requires Waiting(bills, u, c) == 0
    ensures SumSeq(bills, PendingAvailable(u, c)) == 0 && SumSeq(bills, PendingHold(u, c)) == 0
  {
    hide SumSeq;
    WaitingIsFound(bills, u, c);
    NoneFound(bills, PendingBill(u, c));
    SumOfZeros(bills, PendingAvailable(u, c));
    SumOfZeros(bills, PendingHold(u, c));
  }

  // ---- fills ----

  predicate WaitsOf(f: Fill, id: nat) {
    f.orderId == id && !f.settled
  }

  function WaitingFill(id: nat): Fill -> int {
    (f: Fill) => if WaitsOf(f, id) then 1 else 0
  }

  /** A waiting fill is within reach if fewer than a hundred of its order wait before it and none of
      them ends the order. */
  ghost predicate Reached(fills: seq<Fill>, id: nat, i: nat)
    requires i < |fills|
  {
    && WaitsOf(fills[i], id) && SumSeq(fills[..i], WaitingFill(id)) < 100
    && forall j :: 0 <= j < i && WaitsOf(fills[j], id) ==> !fills[j].done
  }

  /** A settlement stops at the first fill that ends the order, and only there before its list ends. */
  lemma {:induction false} StopsAtEnd(pair: Pair, row: OrderRow, fills: seq<Fill>)
    requires !row.Finished() && SettleFills(pair, row, fills).Some?
    ensures var s := SettleFills(pair, row, fills).value;
            && (forall k :: 0 <= k < s.count - 1 ==> !fills[k].done)
            && (s.row.Finished() <==> s.count > 0 && fills[s.count - 1].done)
            && (s.count < |fills| ==> s.count > 0 && fills[s.count - 1].done)
    decreases |fills|
  {
    if fills != [] && !fills[0].done {
      var first := SettleFill(pair, row, fills[0]);
      StopsAtEnd(pair, first.row, fills[1..]);
      var n := SettleFills(pair, first.row, fills[1..]).value.count;
      forall k | 0 <= k < n
        ensures !fills[k].done
      {
        assert k > 0 ==> fills[k] == fills[1..][k - 1];
      }
      assert n > 0 ==> fills[n] == fills[1..][n - 1];
    }
  }

  /** Which rows a settlement reaches. */
  lemma {:induction false} ReachedIff(fills: seq<Fill>, id: nat, rows: seq<nat>, count: nat)
    requires rows == Rows(fills, PendingFill(id), BATCH) && count <= |rows|
    requires forall k :: 0 <= k < count - 1 ==> !fills[rows[k]].done
    requires count < |rows| ==> count > 0 && fills[rows[count - 1]].done
    ensures forall i :: 0 <= i < |fills| ==> (i in rows[..count] <==> Reached(fills, id, i))
  {
    hide Rows, SumSeq;
    forall i | 0 <= i < |fills|
      ensures i in rows[..count] <==> Reached(fills, id, i)
    {
      SumSame(fills[..i], fills[..i], WaitingFill(id), One(PendingFill(id)));
      if WaitsOf(fills[i], id) {
        FoundIff(fills, PendingFill(id), BATCH, i);
      }
      if i in rows[..count] {
        var k :| 0 <= k < count && rows[k] == i;
        EarlierAreFound(fills, id, rows, k);
      }
    }
  }

  lemma {:induction false} EarlierAreFound(fills: seq<Fill>, id: nat, rows: seq<nat>, k: nat)
    requires rows == Rows(fills, PendingFill(id), BATCH) && k < |rows|
    requires forall j :: 0 <= j < k ==> !fills[rows[j]].done
    ensures PendingFill(id)(fills[rows[k]]) && forall j :: 0 <= j < rows[k] && WaitsOf(fills[j], id) ==> !fills[j].done
  {
    hide Rows;
    forall j | 0 <= j < rows[k] && WaitsOf(fills[j], id)
      ensures !fills[j].done
    {
      assert PendingFill(id)(fills[j]);
      assert j in rows;
      var m :| 0 <= m < |rows| && rows[m] == j;
      assert m < k;
    }
  }

  lemma {:induction false} EndIsReached(fills: seq<Fill>, id: nat, rows: seq<nat>, count: nat)
    requires InTable(fills, rows) && count <= |rows|
    requires forall i :: 0 <= i < |fills| ==> (i in rows[..count] <==> Reached(fills, id, i))
    requires forall k :: 0 <= k < count - 1 ==> !fills[rows[k]].done
    ensures (count > 0 && fills[rows[count - 1]].done)
            <==> exists i :: 0 <= i < |fills| && Reached(fills, id, i) && fills[i].done
  {
    hide Reached;
    if count > 0 && fills[rows[count - 1]].done {
      assert rows[..count][count - 1] == rows[count - 1];
      assert Reached(fills, id, rows[count - 1]);
    }
    if i :| 0 <= i < |fills| && Reached(fills, id, i) && fills[i].done {
      var k :| 0 <= k < |rows[..count]| && rows[..count][k] == i;
    }
  }

  /** All that waits in a fair ledger can be settled. */
  lemma {:induction false} WaitingSettles(l: Ledger, feed: seq<Fill>, pair: Pair, id: nat)
    requires Fair(l, feed) && FairFeed(feed) && id in l.orders && !l.orders[id].Finished()
    ensures SettleFills(pair, l.orders[id], Picked(l.fills, Rows(l.fills, PendingFill(id), BATCH))).Some?
  {
    hide SettleFills, Rows, Picked, SumSeq, PendingFill, FairRow, FairRows, FairFill, FairFills, FairFeed, FairBills, Solvent,
         Fed, Settles;
    var rows := Rows(l.fills, PendingFill(id), BATCH);
    PendingIsFair(l, feed, id, rows);
    RowIsFair(l.orders, id);
    SettleFillsSettles(pair, l.orders[id], Picked(l.fills, rows), 0, 0);
  }

  /** A call settles exactly the fills within reach, ends the order iff one of them does, and touches
      no other order. */
  lemma {:induction false} FillsGoOn(l: Ledger, feed: seq<Fill>, pair: Pair, id: nat)
    requires Fair(l, feed) && FairFeed(feed) && id in l.orders && !l.orders[id].Finished()
    ensures ExecuteFill(l, pair, id).Ok?
    ensures var l' := ExecuteFill(l, pair, id).value;
            && |l'.fills| == |l.fills|
            && (forall i :: 0 <= i < |l.fills| ==>
                  l'.fills[i] == l.fills[i].(settled := l.fills[i].settled || Reached(l.fills, id, i)))
            && id in l'.orders && l'.orders - {id} == l.orders - {id} && l'.accounts == l.accounts
            && (l'.orders[id].Finished() <==> exists i :: 0 <= i < |l.fills| && Reached(l.fills, id, i) && l.fills[i].done)
  {
    hide SettleFills, Rows, Mark, Picked, SumSeq, Reached, PendingFill, Fair, FairFeed;
    var rows := Rows(l.fills, PendingFill(id), BATCH);
    var picked := Picked(l.fills, rows);
    WaitingSettles(l, feed, pair, id);
    StopsAtEnd(pair, l.orders[id], picked);
    var s := SettleFills(pair, l.orders[id], picked).value;
    ReachedIff(l.fills, id, rows, s.count);
    EndIsReached(l.fills, id, rows, s.count);
  }
}
