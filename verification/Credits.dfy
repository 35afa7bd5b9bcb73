/** Who is paid what, by user and currency (service/order_service.go). */
module Credits {
  import opened Exchange
  import opened Fills
  import opened Sums
  import opened Tables
  import opened Ledgers
  import opened Placement
  import opened LedgerRuns

  // ---- what a trade pays, in plain terms ----

  /** A buyer earns the size, anyone else the value. */
  function Earned(row: OrderRow, f: Fill): int {
    if row.side == Buy then f.size else f.size * f.price
  }

  function EarnedIn(pair: Pair, row: OrderRow): nat {
    if row.side == Buy then pair.baseCurrency else pair.quoteCurrency
  }

  function Charge(row: OrderRow, f: Fill): int {
    Earned(row, f) * if f.liquidity == TakerLiquidity then row.takerFeeRatio else row.makerFeeRatio
  }

  /** What a fill of the order adds to what is available to a user in a currency: to the order's own
      user the earnings less the fee, to the fee account the fee. */
  function CreditOf(pair: Pair, row: OrderRow, u: nat, c: nat): Fill -> int {
    (f: Fill) =>
      if f.done || c != EarnedIn(pair, row) then 0
      else (if u == row.userId then Earned(row, f) * ONE - Charge(row, f) else 0)
           + if u == FEE_USER then Charge(row, f) else 0
  }

  /** What the order keeps of its user's balance: all it was placed with until it is finished, and
      then what its trades used of that. */
  function Kept(row: OrderRow): int {
    var held := if row.side == Buy then row.funds else row.size;
    var used := if row.side == Buy then row.executedValue else row.filledSize;
    (if row.status == IsNew || row.status == IsOpen then held else Min(used, held)) * ONE
  }

  function KeptFor(pair: Pair, u: nat, c: nat): OrderRow -> int {
    (row: OrderRow) =>
      if row.userId == u && c == (if row.side == Buy then pair.quoteCurrency else pair.baseCurrency) then Kept(row) else 0
  }

  function SettledCredit(pair: Pair, orders: map<nat, OrderRow>, u: nat, c: nat): Fill -> int {
    (f: Fill) => if f.settled && f.orderId in orders then CreditOf(pair, orders[f.orderId], u, c)(f) else 0
  }

  ghost predicate Credited(l: Ledger, pair: Pair, u: nat, c: nat) {
    SumSeq(l.bills, AvailableFor(u, c))
    == SumSeq(l.fills, SettledCredit(pair, l.orders, u, c)) - SumMap(l.orders, KeptFor(pair, u, c))
  }

  // ---- one settlement, and a list of them ----

  lemma {:induction false} FillPays(pair: Pair, row: OrderRow, fill: Fill, u: nat, c: nat)
    requires FairFill(fill) && FairRow(row.id, row) && !row.Finished()
    ensures var s := SettleFill(pair, row, fill);
            SumSeq(s.bills, AvailableFor(u, c))
            == CreditOf(pair, row, u, c)(fill) + KeptFor(pair, u, c)(row) - KeptFor(pair, u, c)(s.row)
  {
    hide SumSeq;
    if !fill.done {
      FeeIsFair(row, fill);
    }
    SumOfFew(SettleFill(pair, row, fill).bills, AvailableFor(u, c));
  }

  ghost predicate Pays(pair: Pair, row: OrderRow, fills: seq<Fill>, s: Settlement, u: nat, c: nat) {
    && s.count <= |fills| && SameOrder(row, s.row)
    && SumSeq(s.bills, AvailableFor(u, c))
       == SumSeq(fills[..s.count], CreditOf(pair, row, u, c)) + KeptFor(pair, u, c)(row) - KeptFor(pair, u, c)(s.row)
  }

  lemma {:induction false} PaysOne(pair: Pair, row: OrderRow, fills: seq<Fill>, u: nat, c: nat)
    requires fills != [] && FairFill(fills[0]) && FairRow(row.id, row) && !row.Finished()
    ensures Pays(pair, row, fills, SettleFill(pair, row, fills[0]), u, c)
  {
    hide SumSeq, TradeBills, RefundBills, CreditOf, KeptFor, AvailableFor, Fee, FairFill;
    FillPays(pair, row, fills[0], u, c);
    assert fills[..1] == [fills[0]];
    SumOne(fills[0], CreditOf(pair, row, u, c));
  }

  lemma {:induction false} PaysThen(pair: Pair, row: OrderRow, fills: seq<Fill>, first: Settlement,
                                    rest: Settlement, u: nat, c: nat)
    requires fills != [] && first.count == 1
    requires Pays(pair, row, fills, first, u, c) && Pays(pair, first.row, fills[1..], rest, u, c)
    ensures Pays(pair, row, fills, Settlement(rest.row, first.bills + rest.bills, 1 + rest.count), u, c)
  {
    hide SumSeq, KeptFor, AvailableFor;
    var tail := fills[1..][..rest.count];
    SumAppend(first.bills, rest.bills, AvailableFor(u, c));
    SumSame(tail, tail, CreditOf(pair, first.row, u, c), CreditOf(pair, row, u, c));
    SumAppend(fills[..1], tail, CreditOf(pair, row, u, c));
    assert fills[..1 + rest.count] == fills[..1] + tail;
  }

  lemma {:induction false} SettleFillsPays(pair: Pair, row: OrderRow, fills: seq<Fill>, u: nat, c: nat)
    requires FairFills(fills) && FairRow(row.id, row) && !row.Finished()
    ensures SettleFills(pair, row, fills).Some? && Pays(pair, row, fills, SettleFills(pair, row, fills).value, u, c)
    decreases |fills|
  {
    hide FairRow, Pays;
    if fills == [] {
      PaysNothing(pair, row, u, c);
    } else {
      assert FairFill(fills[0]);
      PaysOne(pair, row, fills, u, c);
      if !fills[0].done {
        var first := SettleFill(pair, row, fills[0]);
        SameRowIsFair(row, first.row);
        SettleFillsPays(pair, first.row, fills[1..], u, c);
        PaysThen(pair, row, fills, first, SettleFills(pair, first.row, fills[1..]).value, u, c);
      }
    }
  }

  lemma PaysNothing(pair: Pair, row: OrderRow, u: nat, c: nat)
    ensures Pays(pair, row, [], Settlement(row, [], 0), u, c)
  {
  }

  // ---- every transaction ----

  lemma {:induction false} PlaceKeepsCredits(l: Ledger, feed: seq<Fill>, pair: Pair, row: OrderRow, u: nat, c: nat)
    requires Credited(l, pair, u, c) && LedgerRuns.Placeable(l, pair, row) && Fed(l, feed)
    ensures Credited(WithOrder(l, pair, row), pair, u, c)
  {
    hide FairRow, SumSeq, SumMap, CreditOf;
    BillAdded(l.bills, HoldBill(pair, row), AvailableFor(u, c));
    SumInsert(l.orders, row.id, row, KeptFor(pair, u, c));
    SumAbsent(l.orders, row.id);
    SumSame(l.fills, l.fills, SettledCredit(pair, l.orders, u, c), SettledCredit(pair, l.orders[row.id := row], u, c));
  }

  lemma {:induction false} FlushKeepsCredits(l: Ledger, feed: seq<Fill>, pair: Pair, n: nat, u: nat, c: nat)
    requires Credited(l, pair, u, c) && Fed(l, feed) && FairFeed(feed)
    ensures Credited(Flushed(l, feed, n), pair, u, c)
  {
    hide SumSeq, SumMap, CreditOf, Fed;
    var k := |l.fills|;
    if k + n <= |feed| {
      FlushKeepsFed(l, feed, n);
      SumAppend(l.fills, feed[k..k + n], SettledCredit(pair, l.orders, u, c));
      SumOfZeros(feed[k..k + n], SettledCredit(pair, l.orders, u, c));
    }
  }

  /** Rewriting a row's totals and status moves no credit. */
  lemma {:induction false} RowKeepsCredits(fills: seq<Fill>, orders: map<nat, OrderRow>, id: nat, row: OrderRow,
                                           pair: Pair, u: nat, c: nat)
    requires id in orders && SameOrder(orders[id], row)
    ensures SumSeq(fills, SettledCredit(pair, orders[id := row], u, c)) == SumSeq(fills, SettledCredit(pair, orders, u, c))
    ensures SumMap(orders[id := row], KeptFor(pair, u, c))
            == SumMap(orders, KeptFor(pair, u, c)) - KeptFor(pair, u, c)(orders[id]) + KeptFor(pair, u, c)(row)
  {
    hide SumSeq, SumMap, KeptFor;
    assert forall f: Fill :: CreditOf(pair, row, u, c)(f) == CreditOf(pair, orders[id], u, c)(f);
    SumSame(fills, fills, SettledCredit(pair, orders[id := row], u, c), SettledCredit(pair, orders, u, c));
    SumRemove(orders, id, KeptFor(pair, u, c));
    SumInsert(orders, id, row, KeptFor(pair, u, c));
  }

  lemma {:induction false} OpenKeepsCredits(l: Ledger, pair: Pair, id: nat, u: nat, c: nat)
    requires Credited(l, pair, u, c)
    ensures Credited(MarkOpen(l, id), pair, u, c)
  {
    hide SumSeq, SumMap, SettledCredit;
    if id in l.orders && l.orders[id].status == IsNew {
      RowKeepsCredits(l.fills, l.orders, id, l.orders[id].(status := IsOpen), pair, u, c);
    }
  }

  lemma {:induction false} BillsKeepCredits(l: Ledger, pair: Pair, u0: nat, c0: nat, u: nat, c: nat)
    requires Credited(l, pair, u, c)
    ensures Credited(ExecuteBill(l, u0, c0), pair, u, c)
  {
    hide SumSeq, SumMap, Mark, SettledCredit, KeptFor;
    var rows := Rows(l.bills, PendingBill(u0, c0), BATCH);
    var none: Bill -> int := (b: Bill) => 0;
    SumOfZeros(Picked(l.bills, rows), none);
    SumMark(l.bills, rows, SettleBill(), AvailableFor(u, c), none);
  }

  /** Marking an order's fills settled adds what they pay. */
  lemma {:induction false} CreditsMarked(l: Ledger, rows: seq<nat>, id: nat, pair: Pair, u: nat, c: nat)
    requires InTable(l.fills, rows) && Increasing(rows) && id in l.orders
    requires forall k :: 0 <= k < |rows| ==> PendingFill(id)(l.fills[rows[k]])
    ensures SumSeq(Mark(l.fills, rows, MarkSettled()), SettledCredit(pair, l.orders, u, c))
            == SumSeq(l.fills, SettledCredit(pair, l.orders, u, c))
               + SumSeq(Picked(l.fills, rows), CreditOf(pair, l.orders[id], u, c))
  {
    hide SumSeq, Mark;
    SumMark(l.fills, rows, MarkSettled(), SettledCredit(pair, l.orders, u, c), CreditOf(pair, l.orders[id], u, c));
  }

  lemma {:induction false} FillsKeepCredits(l: Ledger, feed: seq<Fill>, pair: Pair, id: nat, u: nat, c: nat)
    requires Credited(l, pair, u, c) && Fair(l, feed) && FairFeed(feed) && ExecuteFill(l, pair, id).Ok?
    ensures Credited(ExecuteFill(l, pair, id).value, pair, u, c)
  {
    hide SumSeq, SumMap, SettledCredit, CreditOf, KeptFor, SettleFills, Rows, Mark, Picked, PendingFill,
         FairRow, FairRows, FairFill, FairFills, FairFeed, FairBills, Solvent, Fed;
    var rows := Rows(l.fills, PendingFill(id), BATCH);
    if rows != [] {
      var row, picked := l.orders[id], Picked(l.fills, rows);
      PendingIsFair(l, feed, id, rows);
      RowIsFair(l.orders, id);
      SettleFillsPays(pair, row, picked, u, c);
      var s := SettleFills(pair, row, picked).value;
      PickedPrefix(l.fills, rows, s.count);
      CreditsMarked(l, rows[..s.count], id, pair, u, c);
      RowKeepsCredits(Mark(l.fills, rows[..s.count], MarkSettled()), l.orders, id, s.row, pair, u, c);
      SumAppend(l.bills, s.bills, AvailableFor(u, c));
    }
  }

  lemma {:induction false} NextKeepsCredits(info: ProductInfo, feed: seq<Fill>, l: Ledger, event: Event, u: nat, c: nat)
    requires Credited(l, info.pair, u, c) && Fair(l, feed) && FairFeed(feed)
    ensures Credited(Next(info, feed, l, event), info.pair, u, c)
  {
    hide Fed, FairRows, FairBills, Solvent, FairFeed, Credited, ExecuteFill, ExecuteBill, PlaceOrder,
         Flushed, MarkOpen, LedgerRuns.Placeable, WithOrder;
    match event
    case Place(r) =>
      if PlaceOrder(l, info, r).Ok? {
        var row := PlacedShape(l, info, r);
        PlaceKeepsCredits(l, feed, info.pair, row, u, c);
      }
    case Flush(n) => FlushKeepsCredits(l, feed, info.pair, n, u, c);
    case Opened(id) => OpenKeepsCredits(l, info.pair, id, u, c);
    case SettleOrder(id) =>
      if ExecuteFill(l, info.pair, id).Ok? {
        FillsKeepCredits(l, feed, info.pair, id, u, c);
      }
    case SettleAccount(u0, c0) => BillsKeepCredits(l, info.pair, u0, c0, u, c);
  }

  lemma {:induction false} PlayKeepsCredits(info: ProductInfo, feed: seq<Fill>, accounts: map<Key, Account>,
                                            events: seq<Event>, u: nat, c: nat)
    requires FairFeed(feed) && Solvent(accounts)
    ensures Credited(Play(info, feed, accounts, events), info.pair, u, c)
    decreases |events|
  {
    hide Next, Fair, FairFeed, InBooks;
    if events != [] {
      var n := |events| - 1;
      PlayKeeps(info, feed, accounts, events[..n], u, c);
      PlayKeepsCredits(info, feed, accounts, events[..n], u, c);
      NextKeepsCredits(info, feed, Play(info, feed, accounts, events[..n]), events[n], u, c);
    }
  }

  /** After any transactions in any order, what a user has available in a currency, with what is on
      its way, is the opening balance, with the earnings of the user's own settled trades less their
      fees, less what the user's orders keep; and the fee account has the fees of all. */
  lemma {:induction false} UsersArePaid(info: ProductInfo, feed: seq<Fill>, accounts: map<Key, Account>,
                                        events: seq<Event>, u: nat, c: nat)
    requires FairFeed(feed) && Solvent(accounts)
    ensures var l := Play(info, feed, accounts, events);
            l.AccountOf(u, c).available + SumSeq(l.bills, PendingAvailable(u, c))
            == OpeningOf(accounts, u, c).available
               + SumSeq(l.fills, SettledCredit(info.pair, l.orders, u, c)) - SumMap(l.orders, KeptFor(info.pair, u, c))
  {
    hide SumSeq, SumMap, Play, SettledCredit, KeptFor;
    LedgerBalances(info, feed, accounts, events, u, c);
    PlayKeepsCredits(info, feed, accounts, events, u, c);
  }

  // ---- the fees an order has paid ----

  function SettledCharge(row: OrderRow, id: nat): Fill -> int {
    (f: Fill) => if f.settled && f.orderId == id && !f.done then Charge(row, f) else 0
  }

  function ChargeOf(row: OrderRow, id: nat): Fill -> int {
    (f: Fill) => if f.orderId == id && !f.done then Charge(row, f) else 0
  }

  ghost predicate Charged(l: Ledger, id: nat) {
    id in l.orders ==> l.orders[id].fillFees == SumSeq(l.fills, SettledCharge(l.orders[id], id))
  }

  ghost predicate Charges(row: OrderRow, fills: seq<Fill>, s: Settlement, id: nat) {
    && s.count <= |fills| && SameOrder(row, s.row)
    && s.row.fillFees == row.fillFees + SumSeq(fills[..s.count], ChargeOf(row, id))
  }

  ghost predicate AllOf(fills: seq<Fill>, id: nat) {
    forall i :: 0 <= i < |fills| ==> fills[i].orderId == id
  }

  lemma {:induction false} SettleFillsCharges(pair: Pair, row: OrderRow, fills: seq<Fill>, id: nat)
    requires AllOf(fills, id) && SettleFills(pair, row, fills).Some?
    ensures Charges(row, fills, SettleFills(pair, row, fills).value, id)
    decreases |fills|
  {
    hide SumSeq, TradeBills, RefundBills;
    if fills == [] {
      SumOfZeros([], ChargeOf(row, id));
    } else {
      var first := SettleFill(pair, row, fills[0]);
      assert fills[..1] == [fills[0]];
      SumOne(fills[0], ChargeOf(row, id));
      if !fills[0].done {
        SettleFillsCharges(pair, first.row, fills[1..], id);
        var k := SettleFills(pair, first.row, fills[1..]).value.count;
        var tail := fills[1..][..k];
        assert fills[..1 + k] == [fills[0]] + tail;
        SumSame(tail, tail, ChargeOf(first.row, id), ChargeOf(row, id));
        SumAppend([fills[0]], tail, ChargeOf(row, id));
      }
    }
  }

  lemma {:induction false} ChargesMarked(fills: seq<Fill>, rows: seq<nat>, of: nat, row: OrderRow, id: nat)
    requires InTable(fills, rows) && Increasing(rows)
    requires forall k :: 0 <= k < |rows| ==> PendingFill(of)(fills[rows[k]])
    ensures SumSeq(Mark(fills, rows, MarkSettled()), SettledCharge(row, id))
            == SumSeq(fills, SettledCharge(row, id)) + if id == of then SumSeq(Picked(fills, rows), ChargeOf(row, id)) else 0
  {
    hide SumSeq, Mark;
    if id == of {
      SumMark(fills, rows, MarkSettled(), SettledCharge(row, id), ChargeOf(row, id));
    } else {
      var none: Fill -> int := (f: Fill) => 0;
      SumOfZeros(Picked(fills, rows), none);
      SumMark(fills, rows, MarkSettled(), SettledCharge(row, id), none);
    }
  }

  lemma {:induction false} FillsKeepCharges(l: Ledger, pair: Pair, of: nat, id: nat)
    requires Charged(l, id) && ExecuteFill(l, pair, of).Ok?
    ensures Charged(ExecuteFill(l, pair, of).value, id)
  {
    hide SumSeq, SettleFills, ChargeOf, SettledCharge, Mark, Picked, Rows;
    var rows := Rows(l.fills, PendingFill(of), BATCH);
    var picked := Picked(l.fills, rows);
    if rows != [] && id in l.orders {
      SettleFillsCharges(pair, l.orders[of], picked, of);
      var s := SettleFills(pair, l.orders[of], picked).value;
      PickedPrefix(l.fills, rows, s.count);
      ChargesMarked(l.fills, rows[..s.count], of, l.orders[id], id);
      if id == of {
        SameCharges(Mark(l.fills, rows[..s.count], MarkSettled()), l.orders[id], s.row, id);
      }
    }
  }

  lemma {:induction false} SameCharges(fills: seq<Fill>, row: OrderRow, row': OrderRow, id: nat)
    requires SameOrder(row, row')
    ensures SumSeq(fills, SettledCharge(row, id)) == SumSeq(fills, SettledCharge(row', id))
  {
    SumSame(fills, fills, SettledCharge(row, id), SettledCharge(row', id));
  }

  lemma {:induction false} PlaceKeepsCharges(l: Ledger, feed: seq<Fill>, info: ProductInfo, r: Request, id: nat)
    requires Fed(l, feed) && Charged(l, id) && PlaceOrder(l, info, r).Ok?
    ensures Charged(PlaceOrder(l, info, r).value, id)
  {
    hide SumSeq, PlaceOrder, Charge;
    PlacedIff(l, info, r);
    PlacedPlainly(l, info, r);
    var l' := PlaceOrder(l, info, r).value;
    if id == r.id {
      forall i | 0 <= i < |l.fills|
        ensures SettledCharge(l'.orders[id], id)(l.fills[i]) == 0
      {
        assert l.fills[i].settled ==> l.fills[i].orderId != id;
      }
      SumOfZeros(l.fills, SettledCharge(l'.orders[id], id));
    }
  }

  lemma {:induction false} FlushKeepsCharges(l: Ledger, feed: seq<Fill>, n: nat, id: nat)
    requires Fed(l, feed) && FairFeed(feed) && Charged(l, id)
    ensures Charged(Flushed(l, feed, n), id)
  {
    hide SumSeq, Fed, Charge;
    var k := |l.fills|;
    if k + n <= |feed| && id in l.orders {
      FlushKeepsFed(l, feed, n);
      SumAppend(l.fills, feed[k..k + n], SettledCharge(l.orders[id], id));
      SumOfZeros(feed[k..k + n], SettledCharge(l.orders[id], id));
    }
  }

  lemma {:induction false} NextKeepsCharges(info: ProductInfo, feed: seq<Fill>, l: Ledger, event: Event, id: nat)
    requires Fair(l, feed) && FairFeed(feed) && Charged(l, id)
    ensures Charged(Next(info, feed, l, event), id)
  {
    hide PlaceOrder, ExecuteFill, FairRows, FairBills, Solvent, FairFeed, SumSeq, Rows, Mark, Fed, SettledCharge;
    match event
    case Place(r) =>
      if PlaceOrder(l, info, r).Ok? {
        PlaceKeepsCharges(l, feed, info, r, id);
      }
    case Flush(n) => FlushKeepsCharges(l, feed, n, id);
    case Opened(of) =>
      if of == id && id in l.orders {
        SameCharges(l.fills, l.orders[id], MarkOpen(l, of).orders[id], id);
      }
    case SettleOrder(of) =>
      if ExecuteFill(l, info.pair, of).Ok? {
        FillsKeepCharges(l, info.pair, of, id);
      }
    case SettleAccount(u, c) =>
  }

  /** The fees a row shows are those of its settled trades, each at the ratio of its own role. */
  lemma {:induction false} FeesAddUp(info: ProductInfo, feed: seq<Fill>, accounts: map<Key, Account>,
                                     events: seq<Event>, id: nat)
    requires FairFeed(feed) && Solvent(accounts)
    ensures Charged(Play(info, feed, accounts, events), id)
    decreases |events|
  {
    hide Next, Fair, FairFeed, InBooks;
    if events != [] {
      var n := |events| - 1;
      PlayKeeps(info, feed, accounts, events[..n], 0, 0);
      FeesAddUp(info, feed, accounts, events[..n], id);
      NextKeepsCharges(info, feed, Play(info, feed, accounts, events[..n]), events[n], id);
    }
  }

  // ---- by the log: who took and who made ----

  /** What one side of a match is due: the size or the value, less the given part of it, which goes
      to the fee account. */
  function Due(pair: Pair, row: OrderRow, size: int, price: int, ratio: int, u: nat, c: nat): int {
    var got := if row.side == Buy then size else size * price;
    if c != (if row.side == Buy then pair.baseCurrency else pair.quoteCurrency) then 0
    else (if u == row.userId then got * ONE - got * ratio else 0) + if u == FEE_USER then got * ratio else 0
  }

  /** The order that the log names as taker pays the taker's fee, the one it names as maker the
      maker's. */
  function LogPays(pair: Pair, orders: map<nat, OrderRow>, u: nat, c: nat): Log -> int {
    (log: Log) =>
      if !log.MatchLog? then 0
      else
        var taker, maker := log.takerOrderId, log.makerOrderId;
        (if taker in orders then Due(pair, orders[taker], log.size, log.price, orders[taker].takerFeeRatio, u, c) else 0)
        + (if maker in orders then Due(pair, orders[maker], log.size, log.price, orders[maker].makerFeeRatio, u, c) else 0)
  }

  function CreditIn(pair: Pair, orders: map<nat, OrderRow>, u: nat, c: nat): Fill -> int {
    (f: Fill) => if f.orderId in orders then CreditOf(pair, orders[f.orderId], u, c)(f) else 0
  }

  lemma {:induction false} FillIsDue(pair: Pair, row: OrderRow, f: Fill, u: nat, c: nat)
    ensures CreditOf(pair, row, u, c)(f)
            == if f.done then 0
               else Due(pair, row, f.size, f.price,
                        if f.liquidity == TakerLiquidity then row.takerFeeRatio else row.makerFeeRatio, u, c)
  {
  }

  lemma {:induction false} MatchPays(pair: Pair, orders: map<nat, OrderRow>, log: Log, u: nat, c: nat)
    ensures SumSeq(FillsOfLog(log), CreditIn(pair, orders, u, c)) == LogPays(pair, orders, u, c)(log)
  {
    hide SumSeq, CreditOf, Due;
    var fills := FillsOfLog(log);
    if log.MatchLog? {
      var taker, maker := log.takerOrderId, log.makerOrderId;
      assert fills == [fills[0]] + [fills[1]];
      if taker in orders {
        FillIsDue(pair, orders[taker], fills[0], u, c);
      }
      if maker in orders {
        FillIsDue(pair, orders[maker], fills[1], u, c);
      }
      SumOne(fills[0], CreditIn(pair, orders, u, c));
      SumOne(fills[1], CreditIn(pair, orders, u, c));
      SumAppend([fills[0]], [fills[1]], CreditIn(pair, orders, u, c));
    } else {
      forall i | 0 <= i < |fills|
        ensures CreditIn(pair, orders, u, c)(fills[i]) == 0
      {
        if fills[i].orderId in orders {
          FillIsDue(pair, orders[fills[i].orderId], fills[i], u, c);
        }
      }
      SumOfZeros(fills, CreditIn(pair, orders, u, c));
    }
  }

  lemma {:induction false} LogsPay(pair: Pair, orders: map<nat, OrderRow>, logs: seq<Log>, u: nat, c: nat)
    ensures SumSeq(FillsOf(logs), CreditIn(pair, orders, u, c)) == SumSeq(logs, LogPays(pair, orders, u, c))
    decreases |logs|
  {
    hide CreditIn, LogPays, FillsOfLog;
    if logs != [] {
      var n := |logs| - 1;
      LogsPay(pair, orders, logs[..n], u, c);
      MatchPays(pair, orders, logs[n], u, c);
      SumAppend(FillsOf(logs[..n]), FillsOfLog(logs[n]), CreditIn(pair, orders, u, c));
    }
  }

  lemma {:induction false} SettledIsCredited(pair: Pair, orders: map<nat, OrderRow>, f: Fill, u: nat, c: nat)
    ensures SettledCredit(pair, orders, u, c)(f.(settled := true)) == CreditIn(pair, orders, u, c)(f)
  {
    hide CreditOf, Due;
    if f.orderId in orders {
      FillIsDue(pair, orders[f.orderId], f, u, c);
      FillIsDue(pair, orders[f.orderId], f.(settled := true), u, c);
    }
  }

  /** Once every fill of a log is settled, everyone has what the log's matches owe them: the trader
      of each side what it bought less its own fee, the fee account the fees of both. */
  lemma {:induction false} TradersArePaid(info: ProductInfo, logs: seq<Log>, accounts: map<Key, Account>,
                                          events: seq<Event>, u: nat, c: nat)
    requires FairFeed(FillsOf(logs)) && Solvent(accounts)
    requires var l := Play(info, FillsOf(logs), accounts, events);
             |l.fills| == |FillsOf(logs)| && forall i :: 0 <= i < |l.fills| ==> l.fills[i].settled
    ensures var l := Play(info, FillsOf(logs), accounts, events);
            l.AccountOf(u, c).available + SumSeq(l.bills, PendingAvailable(u, c))
            == OpeningOf(accounts, u, c).available
               + SumSeq(logs, LogPays(info.pair, l.orders, u, c)) - SumMap(l.orders, KeptFor(info.pair, u, c))
  {
    hide SumSeq, SumMap, Play, KeptFor, LogPays, FillsOf, FairFeed, FairRows, FairBills, Solvent, PendingAvailable;
    var feed := FillsOf(logs);
    var l := Play(info, feed, accounts, events);
    PlayKeeps(info, feed, accounts, events, u, c);
    UsersArePaid(info, feed, accounts, events, u, c);
    LogsPay(info.pair, l.orders, logs, u, c);
    forall i | 0 <= i < |feed|
      ensures SettledCredit(info.pair, l.orders, u, c)(l.fills[i]) == CreditIn(info.pair, l.orders, u, c)(feed[i])
    {
      assert l.fills[i] == feed[i].(settled := true);
      SettledIsCredited(info.pair, l.orders, feed[i], u, c);
    }
    SumSame(l.fills, feed, SettledCredit(info.pair, l.orders, u, c), CreditIn(info.pair, l.orders, u, c));
  }
}
