/** What every interleaving of placements, fills and settlements keeps true of the ledger
    (service/order_service.go, service/account_service.go, worker/fill_maker.go). */
module LedgerRuns {
  import opened Exchange
  import opened Fills
  import opened Sums
  import opened Tables
  import opened Ledgers
  import opened Placement

  /** The transactions that run side by side; one that fails leaves the ledger as it is. `Flush`
      writes the next fills of the feed, `Opened` is an order seen resting. */
  datatype Event =
    | Place(request: Request) | Flush(n: nat) | Opened(id: nat) | SettleOrder(id: nat) | SettleAccount(userId: nat, currency: nat)

  function Flushed(l: Ledger, feed: seq<Fill>, n: nat): Ledger {
    var k := |l.fills|;
    if k + n > |feed| then l else l.(fills := l.fills + feed[k..k + n])
  }

  function MarkOpen(l: Ledger, id: nat): Ledger {
    if id in l.orders && l.orders[id].status == IsNew then l.(orders := l.orders[id := l.orders[id].(status := IsOpen)]) else l
  }

  function Commit<E>(r: Result<Ledger, E>, l: Ledger): Ledger {
    if r.Ok? then r.value else l
  }

  function Next(info: ProductInfo, feed: seq<Fill>, l: Ledger, event: Event): Ledger {
    match event
    case Place(request) => Commit(PlaceOrder(l, info, request), l)
    case Flush(n) => Flushed(l, feed, n)
    case Opened(id) => MarkOpen(l, id)
    case SettleOrder(id) => Commit(ExecuteFill(l, info.pair, id), l)
    case SettleAccount(u, c) => ExecuteBill(l, u, c)
  }

  function Opening(accounts: map<Key, Account>): Ledger {
    Ledger(accounts, [], map[], [])
  }

  /** The ledger after any list of transactions on the opening accounts. */
  function Play(info: ProductInfo, feed: seq<Fill>, accounts: map<Key, Account>, events: seq<Event>): Ledger
    decreases |events|
  {
    if events == [] then Opening(accounts)
    else Next(info, feed, Play(info, feed, accounts, events[..|events| - 1]), events[|events| - 1])
  }

  // ---- the feed and the rows ----

  ghost predicate FairFill(f: Fill) {
    !f.settled && (!f.done ==> f.size >= 0 && f.price >= 0 && f.liquidity != Unstated)
  }

  ghost predicate FairFeed(feed: seq<Fill>) {
    forall i :: 0 <= i < |feed| ==> FairFill(feed[i])
  }

  /** The table holds the first fills of the feed, some of them settled. */
  ghost predicate Copies(fills: seq<Fill>, feed: seq<Fill>) {
    |fills| <= |feed| && forall i :: 0 <= i < |fills| ==> fills[i] == feed[i].(settled := fills[i].settled)
  }

  /** Only fills of known orders are settled. */
  ghost predicate PrefixOf(fills: seq<Fill>, feed: seq<Fill>, orders: map<nat, OrderRow>) {
    && Copies(fills, feed)
    && (forall i :: 0 <= i < |fills| && fills[i].settled ==> fills[i].orderId in orders)
  }

  ghost predicate Fed(l: Ledger, feed: seq<Fill>) {
    PrefixOf(l.fills, feed, l.orders)
  }

  ghost predicate FairRow(id: nat, row: OrderRow) {
    row.id == id && ValidRatio(row.takerFeeRatio) && ValidRatio(row.makerFeeRatio)
  }

  ghost predicate FairRows(orders: map<nat, OrderRow>) {
    forall id :: id in orders ==> FairRow(id, orders[id])
  }

  /** No bill waiting to be settled takes from what is available. */
  ghost predicate FairBills(bills: seq<Bill>) {
    forall i :: 0 <= i < |bills| && !bills[i].settled ==> bills[i].available >= 0
  }

  ghost predicate Solvent(accounts: map<Key, Account>) {
    forall k :: k in accounts ==> accounts[k].available >= 0
  }

  ghost predicate Fair(l: Ledger, feed: seq<Fill>) {
    Fed(l, feed) && FairRows(l.orders) && FairBills(l.bills) && Solvent(l.accounts)
  }

  // ---- the books balance ----

  function SettledAvailable(u: nat, c: nat): Bill -> int {
    (b: Bill) => if Owned(b, u, c) && b.settled then b.available else 0
  }

  function SettledHold(u: nat, c: nat): Bill -> int {
    (b: Bill) => if Owned(b, u, c) && b.settled then b.hold else 0
  }

  function OpeningOf(accounts: map<Key, Account>, u: nat, c: nat): Account {
    if (u, c) in accounts then accounts[(u, c)] else Account(0, 0)
  }

  /** An account is its opening balance and the bills settled into it. */
  ghost predicate Balanced(l: Ledger, opening: map<Key, Account>, u: nat, c: nat) {
    var a, o := l.AccountOf(u, c), OpeningOf(opening, u, c);
    && a.available == o.available + SumSeq(l.bills, SettledAvailable(u, c))
    && a.hold == o.hold + SumSeq(l.bills, SettledHold(u, c))
  }

  /** The holds of all bills of an account are what its orders have not released. */
  ghost predicate HoldsMatch(l: Ledger, pair: Pair, u: nat, c: nat) {
    SumSeq(l.bills, HoldFor(u, c)) == SumMap(l.orders, UnreleasedFor(pair, u, c))
  }

  function SettledNet(pair: Pair, orders: map<nat, OrderRow>, c: nat): Fill -> int {
    (f: Fill) => if f.settled && f.orderId in orders then Net(pair, orders[f.orderId].side, f, c) else 0
  }

  /** All bills together are worth what the settled fills moved. */
  ghost predicate WorthMatches(l: Ledger, pair: Pair, c: nat) {
    SumSeq(l.bills, Worth(c)) == SumSeq(l.fills, SettledNet(pair, l.orders, c))
  }

  ghost predicate InBooks(l: Ledger, opening: map<Key, Account>, pair: Pair, u: nat, c: nat) {
    Balanced(l, opening, u, c) && HoldsMatch(l, pair, u, c) && WorthMatches(l, pair, c)
  }

  // ---- placing an order ----

  function HoldBill(pair: Pair, row: OrderRow): Bill {
    Bill(row.userId, row.HoldCurrency(pair), -row.Held(), row.Held(), true)
  }

  /** The ledger with a new row and its hold. */
  function WithOrder(l: Ledger, pair: Pair, row: OrderRow): Ledger {
    var key := (row.userId, row.HoldCurrency(pair));
    var a := l.AccountOf(row.userId, row.HoldCurrency(pair));
    Ledger(l.accounts[key := Account(a.available - row.Held(), a.hold + row.Held())],
           l.bills + [HoldBill(pair, row)], l.orders[row.id := row], l.fills)
  }

  ghost predicate Placeable(l: Ledger, pair: Pair, row: OrderRow) {
    && row.id !in l.orders && FairRow(row.id, row) && !row.Finished() && row.filledSize == row.executedValue == 0
    && 0 < row.Held() <= l.AccountOf(row.userId, row.HoldCurrency(pair)).available
  }

  lemma {:induction false} PlacedShape(l: Ledger, info: ProductInfo, r: Request) returns (row: OrderRow)
    requires PlaceOrder(l, info, r).Ok?
    ensures row.id == r.id && Placeable(l, info.pair, row) && PlaceOrder(l, info, r).value == WithOrder(l, info.pair, row)
  {
    hide TermsOf, Rounded;
    row := NewRow(r, TermsOf(info, r).value);
  }

  lemma PlaceKeepsFair(l: Ledger, feed: seq<Fill>, pair: Pair, row: OrderRow)
    requires Fair(l, feed) && Placeable(l, pair, row)
    ensures Fair(WithOrder(l, pair, row), feed)
  {
  }

  lemma PlaceKeepsBalance(l: Ledger, opening: map<Key, Account>, pair: Pair, row: OrderRow, u: nat, c: nat)
    requires Balanced(l, opening, u, c) && Placeable(l, pair, row)
    ensures Balanced(WithOrder(l, pair, row), opening, u, c)
  {
    hide FairRow, SumSeq;
    BillAdded(l.bills, HoldBill(pair, row), SettledAvailable(u, c));
    BillAdded(l.bills, HoldBill(pair, row), SettledHold(u, c));
  }

  lemma PlaceKeepsHolds(l: Ledger, pair: Pair, row: OrderRow, u: nat, c: nat)
    requires HoldsMatch(l, pair, u, c) && Placeable(l, pair, row)
    ensures HoldsMatch(WithOrder(l, pair, row), pair, u, c)
  {
    hide FairRow, SumSeq, SumMap;
    BillAdded(l.bills, HoldBill(pair, row), HoldFor(u, c));
    SumInsert(l.orders, row.id, row, UnreleasedFor(pair, u, c));
    SumAbsent(l.orders, row.id);
  }

  lemma PlaceKeepsWorth(l: Ledger, feed: seq<Fill>, pair: Pair, row: OrderRow, c: nat)
    requires WorthMatches(l, pair, c) && Placeable(l, pair, row) && Fed(l, feed)
    ensures WorthMatches(WithOrder(l, pair, row), pair, c)
  {
    hide FairRow, SumSeq, Net;
    BillAdded(l.bills, HoldBill(pair, row), Worth(c));
    SumSame(l.fills, l.fills, SettledNet(pair, l.orders, c), SettledNet(pair, l.orders[row.id := row], c));
  }

  lemma BillAdded(bills: seq<Bill>, bill: Bill, f: Bill -> int)
    ensures SumSeq(bills + [bill], f) == SumSeq(bills, f) + f(bill)
  {
    assert (bills + [bill])[..|bills|] == bills;
  }

  // ---- writing fills, opening an order ----

  lemma {:induction false} FlushKeeps(l: Ledger, feed: seq<Fill>, opening: map<Key, Account>, pair: Pair, n: nat, u: nat, c: nat)
    requires Fair(l, feed) && FairFeed(feed) && InBooks(l, opening, pair, u, c)
    ensures Fair(Flushed(l, feed, n), feed) && InBooks(Flushed(l, feed, n), opening, pair, u, c)
  {
    hide SumSeq, SumMap, Balanced, HoldsMatch, FairRows, FairBills, Solvent, Net;
    var k := |l.fills|;
    if k + n <= |feed| {
      FlushKeepsFed(l, feed, n);
      SumAppend(l.fills, feed[k..k + n], SettledNet(pair, l.orders, c));
      SumOfZeros(feed[k..k + n], SettledNet(pair, l.orders, c));
      SameAccounts(l, Flushed(l, feed, n), opening, pair, u, c);
    }
  }

  ghost predicate Unsettled(s: seq<Fill>) {
    forall i :: 0 <= i < |s| ==> !s[i].settled
  }

  lemma FlushKeepsFed(l: Ledger, feed: seq<Fill>, n: nat)
    requires Fed(l, feed) && FairFeed(feed) && |l.fills| + n <= |feed|
    ensures Fed(Flushed(l, feed, n), feed)
    ensures Unsettled(feed[|l.fills|..|l.fills| + n])
  {
    assert forall i :: 0 <= i < |feed| ==> FairFill(feed[i]);
  }

  lemma SameAccounts(l: Ledger, l': Ledger, opening: map<Key, Account>, pair: Pair, u: nat, c: nat)
    requires l' == l.(fills := l'.fills) && Balanced(l, opening, u, c) && HoldsMatch(l, pair, u, c)
    ensures Balanced(l', opening, u, c) && HoldsMatch(l', pair, u, c)
  {
  }

  lemma SumOfZeros<T>(s: seq<T>, f: T -> int)
    requires forall i :: 0 <= i < |s| ==> f(s[i]) == 0
    ensures SumSeq(s, f) == 0
  {
    if s != [] {
      SumOfZeros(s[..|s| - 1], f);
    }
  }

  /** Rewriting an order row that keeps its side moves no settled fill. */
  lemma {:induction false} RowRewritten(l: Ledger, id: nat, row: OrderRow, pair: Pair, u: nat, c: nat)
    requires id in l.orders && row.side == l.orders[id].side
    ensures SumSeq(l.fills, SettledNet(pair, l.orders[id := row], c)) == SumSeq(l.fills, SettledNet(pair, l.orders, c))
    ensures SumMap(l.orders[id := row], UnreleasedFor(pair, u, c))
            == SumMap(l.orders, UnreleasedFor(pair, u, c))
               - UnreleasedFor(pair, u, c)(l.orders[id]) + UnreleasedFor(pair, u, c)(row)
  {
    SumSame(l.fills, l.fills, SettledNet(pair, l.orders[id := row], c), SettledNet(pair, l.orders, c));
    SumRemove(l.orders, id, UnreleasedFor(pair, u, c));
    SumInsert(l.orders, id, row, UnreleasedFor(pair, u, c));
  }

  lemma {:induction false} OpenKeeps(l: Ledger, feed: seq<Fill>, opening: map<Key, Account>, pair: Pair, id: nat, u: nat, c: nat)
    requires Fair(l, feed) && InBooks(l, opening, pair, u, c)
    ensures Fair(MarkOpen(l, id), feed) && InBooks(MarkOpen(l, id), opening, pair, u, c)
  {
    hide SumSeq, SumMap;
    if id in l.orders && l.orders[id].status == IsNew {
      RowRewritten(l, id, l.orders[id].(status := IsOpen), pair, u, c);
    }
  }

  // ---- settling an account ----

  /** Settling bills of an account moves exactly their sums into it, and changes no total. */
  lemma {:induction false} ExecuteBillKeepsBooks(l: Ledger, opening: map<Key, Account>, pair: Pair, u0: nat,
                                                 c0: nat, u: nat, c: nat)
    requires InBooks(l, opening, pair, u, c)
    ensures InBooks(ExecuteBill(l, u0, c0), opening, pair, u, c)
  {
    hide SumSeq, SumMap, Mark;
    var rows := Rows(l.bills, PendingBill(u0, c0), BATCH);
    BillsMarked(l.bills, rows, u0, c0, u, c);
  }

  /** The sums after marking pending bills of one account settled, seen from any account. */
  lemma {:induction false} BillsMarked(bills: seq<Bill>, rows: seq<nat>, u0: nat, c0: nat, u: nat, c: nat)
    requires InTable(bills, rows) && Increasing(rows)
    requires forall k :: 0 <= k < |rows| ==> PendingBill(u0, c0)(bills[rows[k]])
    ensures var bills', picked := Mark(bills, rows, SettleBill()), Picked(bills, rows);
            var mine := u == u0 && c == c0;
            && SumSeq(bills', SettledAvailable(u, c))
               == SumSeq(bills, SettledAvailable(u, c)) + (if mine then SumSeq(picked, Available()) else 0)
            && SumSeq(bills', SettledHold(u, c))
               == SumSeq(bills, SettledHold(u, c)) + (if mine then SumSeq(picked, Hold()) else 0)
            && SumSeq(bills', HoldFor(u, c)) == SumSeq(bills, HoldFor(u, c))
            && SumSeq(bills', Worth(c)) == SumSeq(bills, Worth(c))
  {
    hide SumSeq, Mark;
    var picked := Picked(bills, rows);
    var none: Bill -> int := (b: Bill) => 0;
    SumOfZeros(picked, none);
    SumMark(bills, rows, SettleBill(), HoldFor(u, c), none);
    SumMark(bills, rows, SettleBill(), Worth(c), none);
    if u == u0 && c == c0 {
      SumMark(bills, rows, SettleBill(), SettledAvailable(u, c), Available());
      SumMark(bills, rows, SettleBill(), SettledHold(u, c), Hold());
    } else {
      SumMark(bills, rows, SettleBill(), SettledAvailable(u, c), none);
      SumMark(bills, rows, SettleBill(), SettledHold(u, c), none);
    }
  }

  lemma {:induction false} ExecuteBillKeepsFair(l: Ledger, feed: seq<Fill>, u: nat, c: nat)
    requires Fair(l, feed)
    ensures Fair(ExecuteBill(l, u, c), feed)
  {
    hide SumSeq;
    var rows := Rows(l.bills, PendingBill(u, c), BATCH);
    var picked := Picked(l.bills, rows);
    SumOfNonNegative(picked, Available());
  }

  lemma SumOfNonNegative<T>(s: seq<T>, f: T -> int)
    requires forall i :: 0 <= i < |s| ==> f(s[i]) >= 0
    ensures SumSeq(s, f) >= 0
  {
    if s != [] {
      SumOfNonNegative(s[..|s| - 1], f);
    }
  }

  // ---- settling an order ----

  function NetOf(pair: Pair, side: Side, c: nat): Fill -> int {
    (f: Fill) => Net(pair, side, f, c)
  }

  /** A settlement changes a row's totals and status and nothing else. */
  ghost predicate SameOrder(row: OrderRow, row': OrderRow) {
    row' == row.(status := row'.status, filledSize := row'.filledSize,
                 executedValue := row'.executedValue, fillFees := row'.fillFees)
  }

  ghost predicate FairFills(fills: seq<Fill>) {
    forall i :: 0 <= i < |fills| ==> FairFill(fills[i])
  }

  ghost predicate NewBills(bills: seq<Bill>) {
    forall i :: 0 <= i < |bills| ==> !bills[i].settled && bills[i].available >= 0
  }

  lemma FeeIsFair(row: OrderRow, fill: Fill)
    requires FairFill(fill) && FairRow(row.id, row) && !fill.done
    ensures Received(row, fill) >= 0 && 0 <= Fee(row, fill) <= Received(row, fill) * ONE
  {
    var ratio := FeeRatio(row, fill.liquidity);
    assert fill.size * fill.price >= 0;
    assert Received(row, fill) * (ONE - ratio) >= 0;
  }

  lemma {:induction false} FillWritesNewBills(pair: Pair, row: OrderRow, fill: Fill)
    requires FairFill(fill) && FairRow(row.id, row)
    ensures NewBills(SettleFill(pair, row, fill).bills)
  {
    if !fill.done {
      FeeIsFair(row, fill);
    }
  }

  /** The settlement of a list of fills: the holds in its bills are what the order releases, and
      its bills are worth what the fills move, up to the one that ends the order. */
  ghost predicate Settles(pair: Pair, row: OrderRow, fills: seq<Fill>, s: Settlement, u: nat, c: nat) {
    && s.count <= |fills| && SameOrder(row, s.row) && NewBills(s.bills)
    && SumSeq(s.bills, HoldFor(u, c)) == UnreleasedFor(pair, u, c)(s.row) - UnreleasedFor(pair, u, c)(row)
    && SumSeq(s.bills, Worth(c)) == SumSeq(fills[..s.count], NetOf(pair, row.side, c))
  }

  lemma SettlesNothing(pair: Pair, row: OrderRow, u: nat, c: nat)
    ensures SettleFills(pair, row, []) == Some(Settlement(row, [], 0))
    ensures Settles(pair, row, [], Settlement(row, [], 0), u, c)
  {
  }

  lemma SettlesPrefix(pair: Pair, row: OrderRow, fills: seq<Fill>, s: Settlement, u: nat, c: nat)
    requires Settles(pair, row, fills, s, u, c)
    ensures s.count <= |fills| && Settles(pair, row, fills[..s.count], s, u, c)
  {
    assert fills[..s.count][..s.count] == fills[..s.count];
  }

  lemma {:induction false} SettlesOne(pair: Pair, row: OrderRow, fills: seq<Fill>, u: nat, c: nat)
    requires fills != [] && FairFill(fills[0]) && FairRow(row.id, row) && !row.Finished()
    ensures Settles(pair, row, fills, SettleFill(pair, row, fills[0]), u, c)
  {
    hide Net, HoldFor, Worth, Unreleased, TradeBills, RefundBills, Fee;
    var fill := fills[0];
    FillWritesNewBills(pair, row, fill);
    FillReleases(pair, row, fill, u, c);
    if !fill.done {
      FeeIsFair(row, fill);
    }
    FillIsWorthItsNet(pair, row, fill, c);
    SumOne(fill, NetOf(pair, row.side, c));
    assert fills[..1] == [fill];
  }

  lemma {:induction false} SettlesThen(pair: Pair, row: OrderRow, fills: seq<Fill>, first: Settlement, rest: Settlement, u: nat, c: nat)
    requires fills != [] && first.count == 1
    requires Settles(pair, row, fills, first, u, c) && Settles(pair, first.row, fills[1..], rest, u, c)
    ensures Settles(pair, row, fills, Settlement(rest.row, first.bills + rest.bills, 1 + rest.count), u, c)
  {
    hide Net, HoldFor, Worth, Unreleased, UnreleasedFor, SumSeq;
    SumAppend(first.bills, rest.bills, HoldFor(u, c));
    SumAppend(first.bills, rest.bills, Worth(c));
    SumAppend(fills[..1], fills[1..][..rest.count], NetOf(pair, row.side, c));
    assert fills[..1 + rest.count] == fills[..1] + fills[1..][..rest.count];
  }

  lemma {:induction false} SettleFillsSettles(pair: Pair, row: OrderRow, fills: seq<Fill>, u: nat, c: nat)
    requires FairFills(fills) && FairRow(row.id, row) && !row.Finished()
    ensures SettleFills(pair, row, fills).Some? && Settles(pair, row, fills, SettleFills(pair, row, fills).value, u, c)
    decreases |fills|
  {
    hide Settles, FairRow;
    if fills == [] {
      SettlesNothing(pair, row, u, c);
    } else {
      assert FairFill(fills[0]);
      SettlesOne(pair, row, fills, u, c);
      if !fills[0].done {
        var first := SettleFill(pair, row, fills[0]);
        SameRowIsFair(row, first.row);
        SettleFillsSettles(pair, first.row, fills[1..], u, c);
        SettlesThen(pair, row, fills, first, SettleFills(pair, first.row, fills[1..]).value, u, c);
      }
    }
  }

  lemma SameRowIsFair(row: OrderRow, row': OrderRow)
    requires FairRow(row.id, row) && SameOrder(row, row')
    ensures FairRow(row'.id, row')
  {
  }

  /** The rows an execution settles, and the settlement. */
  lemma {:induction false} ExecuteFillShape(l: Ledger, feed: seq<Fill>, pair: Pair, id: nat, u: nat, c: nat)
    returns (rows: seq<nat>, s: Settlement)
    requires Fair(l, feed) && FairFeed(feed) && ExecuteFill(l, pair, id).Ok?
    ensures id in l.orders && !l.orders[id].Finished()
    ensures InTable(l.fills, rows) && Increasing(rows) && |rows| == s.count
    ensures forall k :: 0 <= k < |rows| ==> PendingFill(id)(l.fills[rows[k]])
    ensures Settles(pair, l.orders[id], Picked(l.fills, rows), s, u, c)
    ensures ExecuteFill(l, pair, id).value
            == Ledger(l.accounts, l.bills + s.bills, l.orders[id := s.row], Mark(l.fills, rows, MarkSettled()))
  {
    hide FairRow, FairRows, FairFill, FairFills, SettleFills, Settles, Rows, Picked, Mark, FairBills, Solvent, PendingFill;
    var all := Rows(l.fills, PendingFill(id), BATCH);
    var picked := Picked(l.fills, all);
    PendingIsFair(l, feed, id, all);
    RowIsFair(l.orders, id);
    SettleFillsSettles(pair, l.orders[id], picked, u, c);
    s := SettleFills(pair, l.orders[id], picked).value;
    rows := all[..s.count];
    PickedPrefix(l.fills, all, s.count);
    SettlesPrefix(pair, l.orders[id], picked, s, u, c);
    if all == [] {
      SettlesNothing(pair, l.orders[id], u, c);
      assert l.bills + [] == l.bills && l.orders[id := l.orders[id]] == l.orders;
    }
  }

  lemma RowIsFair(orders: map<nat, OrderRow>, id: nat)
    requires FairRows(orders) && id in orders
    ensures FairRow(orders[id].id, orders[id]) && orders[id].id == id
  {
    assert FairRow(id, orders[id]);
  }

  lemma {:induction false} PendingIsFair(l: Ledger, feed: seq<Fill>, id: nat, rows: seq<nat>)
    requires Fed(l, feed) && FairFeed(feed) && InTable(l.fills, rows)
    requires forall k :: 0 <= k < |rows| ==> PendingFill(id)(l.fills[rows[k]])
    ensures FairFills(Picked(l.fills, rows))
  {
    hide Picked;
    forall k | 0 <= k < |rows|
      ensures FairFill(Picked(l.fills, rows)[k])
    {
      OneIsFair(l, feed, id, rows[k]);
    }
  }

  lemma {:induction false} OneIsFair(l: Ledger, feed: seq<Fill>, id: nat, i: nat)
    requires Fed(l, feed) && FairFeed(feed) && i < |l.fills| && PendingFill(id)(l.fills[i])
    ensures FairFill(l.fills[i])
  {
    assert l.fills[i] == feed[i] && FairFill(feed[i]);
  }

  lemma PickedPrefix<T>(s: seq<T>, rows: seq<nat>, n: nat)
    requires InTable(s, rows) && n <= |rows|
    ensures Picked(s, rows[..n]) == Picked(s, rows)[..n]
  {
  }

  lemma {:induction false} ExecuteFillKeepsFair(l: Ledger, feed: seq<Fill>, pair: Pair, id: nat)
    requires Fair(l, feed) && FairFeed(feed) && ExecuteFill(l, pair, id).Ok?
    ensures Fair(ExecuteFill(l, pair, id).value, feed)
  {
    hide SumSeq, ExecuteFill, HoldFor, Worth, UnreleasedFor, NetOf, ValidRatio;
    var rows, s := ExecuteFillShape(l, feed, pair, id, 0, 0);
    RowIsFair(l.orders, id);
    SameRowIsFair(l.orders[id], s.row);
  }

  lemma {:induction false} ExecuteFillKeepsBooks(l: Ledger, feed: seq<Fill>, opening: map<Key, Account>,
                                                 pair: Pair, id: nat, u: nat, c: nat)
    requires Fair(l, feed) && FairFeed(feed) && ExecuteFill(l, pair, id).Ok? && InBooks(l, opening, pair, u, c)
    ensures InBooks(ExecuteFill(l, pair, id).value, opening, pair, u, c)
  {
    hide Fed, FairRows, FairBills, Solvent, FairFeed, SumSeq, SumMap, ExecuteFill, UnreleasedFor, Net, Mark, Picked;
    var rows, s := ExecuteFillShape(l, feed, pair, id, u, c);
    NewBillsAddNothing(l.bills, s.bills, u, c);
    SumAppend(l.bills, s.bills, HoldFor(u, c));
    SumAppend(l.bills, s.bills, Worth(c));
    RowRewritten(l, id, s.row, pair, u, c);
    FillsMarked(l, rows, id, s.row, pair, c);
    PickedWhole(l.fills, rows, s.count);
    RewrittenNets(l, rows, id, s.row, pair, c);
  }

  lemma PickedWhole<T>(s: seq<T>, rows: seq<nat>, n: nat)
    requires InTable(s, rows) && n == |rows|
    ensures Picked(s, rows)[..n] == Picked(s, rows)
  {
  }

  /** Unsettled bills are not in any account yet. */
  lemma NewBillsAddNothing(bills: seq<Bill>, more: seq<Bill>, u: nat, c: nat)
    requires NewBills(more)
    ensures SumSeq(bills + more, SettledAvailable(u, c)) == SumSeq(bills, SettledAvailable(u, c))
    ensures SumSeq(bills + more, SettledHold(u, c)) == SumSeq(bills, SettledHold(u, c))
  {
    SumAppend(bills, more, SettledAvailable(u, c));
    SumAppend(bills, more, SettledHold(u, c));
    SumOfZeros(more, SettledAvailable(u, c));
    SumOfZeros(more, SettledHold(u, c));
  }

  /** Marking an order's fills settled adds what they move for its side. */
  lemma {:induction false} FillsMarked(l: Ledger, rows: seq<nat>, id: nat, row: OrderRow, pair: Pair, c: nat)
    requires InTable(l.fills, rows) && Increasing(rows) && id in l.orders && row.side == l.orders[id].side
    requires forall k :: 0 <= k < |rows| ==> PendingFill(id)(l.fills[rows[k]])
    ensures SumSeq(Mark(l.fills, rows, MarkSettled()), SettledNet(pair, l.orders, c))
            == SumSeq(l.fills, SettledNet(pair, l.orders, c)) + SumSeq(Picked(l.fills, rows), NetOf(pair, row.side, c))
  {
    hide SumSeq;
    SumMark(l.fills, rows, MarkSettled(), SettledNet(pair, l.orders, c), NetOf(pair, row.side, c));
  }

  lemma RewrittenNets(l: Ledger, rows: seq<nat>, id: nat, row: OrderRow, pair: Pair, c: nat)
    requires InTable(l.fills, rows) && Increasing(rows) && id in l.orders && row.side == l.orders[id].side
    ensures SumSeq(Mark(l.fills, rows, MarkSettled()), SettledNet(pair, l.orders[id := row], c))
            == SumSeq(Mark(l.fills, rows, MarkSettled()), SettledNet(pair, l.orders, c))
  {
    var marked := Mark(l.fills, rows, MarkSettled());
    SumSame(marked, marked, SettledNet(pair, l.orders[id := row], c), SettledNet(pair, l.orders, c));
  }

  // ---- every interleaving ----

  lemma {:induction false} NextKeeps(info: ProductInfo, feed: seq<Fill>, l: Ledger, event: Event, opening: map<Key,
                                     Account>, u: nat, c: nat)
    requires Fair(l, feed) && FairFeed(feed) && InBooks(l, opening, info.pair, u, c)
    ensures var l' := Next(info, feed, l, event); Fair(l', feed) && InBooks(l', opening, info.pair, u, c)
  {
    hide Fed, FairRows, FairBills, Solvent, FairFeed, Balanced, HoldsMatch, WorthMatches, ExecuteFill, ExecuteBill, PlaceOrder,
         Flushed, MarkOpen, Placeable, WithOrder;
    match event
    case Place(r) =>
      if PlaceOrder(l, info, r).Ok? {
        var row := PlacedShape(l, info, r);
        PlaceKeepsFair(l, feed, info.pair, row);
        PlaceKeepsBalance(l, opening, info.pair, row, u, c);
        PlaceKeepsHolds(l, info.pair, row, u, c);
        PlaceKeepsWorth(l, feed, info.pair, row, c);
      }
    case Flush(n) => FlushKeeps(l, feed, opening, info.pair, n, u, c);
    case Opened(id) => OpenKeeps(l, feed, opening, info.pair, id, u, c);
    case SettleOrder(id) =>
      if ExecuteFill(l, info.pair, id).Ok? {
        ExecuteFillKeepsFair(l, feed, info.pair, id);
        ExecuteFillKeepsBooks(l, feed, opening, info.pair, id, u, c);
      }
    case SettleAccount(u0, c0) =>
      ExecuteBillKeepsFair(l, feed, u0, c0);
      ExecuteBillKeepsBooks(l, opening, info.pair, u0, c0, u, c);
  }

  lemma {:induction false} PlayKeeps(info: ProductInfo, feed: seq<Fill>, accounts: map<Key, Account>,
                                     events: seq<Event>, u: nat, c: nat)
    requires FairFeed(feed) && Solvent(accounts)
    ensures var l := Play(info, feed, accounts, events); Fair(l, feed) && InBooks(l, accounts, info.pair, u, c)
    decreases |events|
  {
    hide FairFeed, Next;
    if events != [] {
      var n := |events| - 1;
      PlayKeeps(info, feed, accounts, events[..n], u, c);
      NextKeeps(info, feed, Play(info, feed, accounts, events[..n]), events[n], accounts, u, c);
    }
  }

  function PendingAvailable(u: nat, c: nat): Bill -> int {
    (b: Bill) => if Owned(b, u, c) && !b.settled then b.available else 0
  }

  function PendingHold(u: nat, c: nat): Bill -> int {
    (b: Bill) => if Owned(b, u, c) && !b.settled then b.hold else 0
  }

  function AvailableFor(u: nat, c: nat): Bill -> int {
    (b: Bill) => if Owned(b, u, c) then b.available else 0
  }

  lemma SettledAndPending(bills: seq<Bill>, u: nat, c: nat)
    ensures SumSeq(bills, AvailableFor(u, c)) == SumSeq(bills, SettledAvailable(u, c)) + SumSeq(bills, PendingAvailable(u, c))
    ensures SumSeq(bills, HoldFor(u, c)) == SumSeq(bills, SettledHold(u, c)) + SumSeq(bills, PendingHold(u, c))
  {
    if bills != [] {
      SettledAndPending(bills[..|bills| - 1], u, c);
    }
  }

  /** After any transactions in any order, for every account: the balance and the bills not yet
      settled make up the opening balance and all bills; nothing available is negative; and the
      hold with the holds not yet settled is what the account's orders have not released. */
  lemma {:induction false} LedgerBalances(info: ProductInfo, feed: seq<Fill>, accounts: map<Key, Account>,
                                          events: seq<Event>, u: nat, c: nat)
    requires FairFeed(feed) && Solvent(accounts)
    ensures var l := Play(info, feed, accounts, events);
            var a, o := l.AccountOf(u, c), OpeningOf(accounts, u, c);
            && a.available + SumSeq(l.bills, PendingAvailable(u, c)) == o.available + SumSeq(l.bills, AvailableFor(u, c))
            && a.available >= 0
            && a.hold + SumSeq(l.bills, PendingHold(u, c)) == o.hold + SumMap(l.orders, UnreleasedFor(info.pair, u, c))
  {
    hide SumSeq, SumMap, Play;
    var l := Play(info, feed, accounts, events);
    PlayKeeps(info, feed, accounts, events, u, c);
    SettledAndPending(l.bills, u, c);
  }
}
