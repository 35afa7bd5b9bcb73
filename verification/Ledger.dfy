/** The settlement ledger as functions on its tables: holds, bills, and the settlement of fills
    (service/account_service.go, service/order_service.go).

    Amounts of money count units of 10^-16 of a size or of a value, so a fee, the product of an
    amount and a ratio in units of 10^-16, is exact. */
module Ledgers {
  import opened Exchange
  import opened Fills
  import opened Sums
  import opened Tables

  const ONE: int := 10000000000000000

  /** The currencies a product's sizes and values are held in. */
  datatype Pair = Pair(baseCurrency: nat, quoteCurrency: nat)

  datatype Account = Account(available: int, hold: int)

  datatype Bill = Bill(userId: nat, currency: nat, available: int, hold: int, settled: bool)

  datatype OrderStatus = IsNew | IsOpen | IsCancelled | IsPartial | IsFilled

  datatype OrderRow = OrderRow(
    id: nat, userId: nat, side: Side, otype: OrderType, tif: TimeInForce, size: int, price: int, funds: int,
    takerFeeRatio: int, makerFeeRatio: int,
    status: OrderStatus, filledSize: int, executedValue: int, fillFees: int)
  {
    predicate Finished() {
      status == IsFilled || status == IsCancelled || status == IsPartial
    }

    /** What placement holds for the order, and what its fills have taken of that so far. */
    function Held(): int {
      (if side == Buy then funds else size) * ONE
    }

    function Used(): int {
      (if side == Buy then executedValue else filledSize) * ONE
    }

    function HoldCurrency(pair: Pair): nat {
      if side == Buy then pair.quoteCurrency else pair.baseCurrency
    }
  }

  type Key = (nat, nat)

  datatype Ledger = Ledger(
    accounts: map<Key, Account>, bills: seq<Bill>, orders: map<nat, OrderRow>, fills: seq<Fill>)
  {
    function AccountOf(u: nat, c: nat): Account {
      if (u, c) in accounts then accounts[(u, c)] else Account(0, 0)
    }
  }

  datatype LedgerError = NotPositive | NotEnough | OrderNotFound | OrderFinished | InvalidLiquidity

  datatype Result<+T, +E> = Ok(value: T) | Err(error: E)

  // ---- accounts ----

  /** The fee account. */
  const FEE_USER: nat := 0

  const BATCH: nat := 100

  function HoldBalance(l: Ledger, u: nat, c: nat, size: int): Result<Ledger, LedgerError> {
    if size <= 0 then Err(NotPositive)
    else if (u, c) !in l.accounts || l.accounts[(u, c)].available < size then Err(NotEnough)
    else
      var a := l.accounts[(u, c)];
      Ok(l.(accounts := l.accounts[(u, c) := Account(a.available - size, a.hold + size)],
            bills := l.bills + [Bill(u, c, -size, size, true)]))
  }

  function DelayBill(u: nat, c: nat, available: int, hold: int): Bill {
    Bill(u, c, available, hold, false)
  }

  predicate Owned(b: Bill, u: nat, c: nat) {
    b.userId == u && b.currency == c
  }

  function PendingBill(u: nat, c: nat): Bill -> bool {
    (b: Bill) => Owned(b, u, c) && !b.settled
  }

  function SettleBill(): Bill -> Bill {
    (b: Bill) => b.(settled := true)
  }

  function Available(): Bill -> int {
    (b: Bill) => b.available
  }

  function Hold(): Bill -> int {
    (b: Bill) => b.hold
  }

  /** The first hundred unsettled bills of an account move into it. */
  function ExecuteBill(l: Ledger, u: nat, c: nat): Ledger {
    var rows := Rows(l.bills, PendingBill(u, c), BATCH);
    if rows == [] then l
    else
      var a := l.AccountOf(u, c);
      var bills := Picked(l.bills, rows);
      l.(accounts := l.accounts[(u, c) := Account(a.available + SumSeq(bills, Available()), a.hold + SumSeq(bills, Hold()))],
         bills := Mark(l.bills, rows, SettleBill()))
  }

  // ---- the settlement of fills ----

  function FeeRatio(row: OrderRow, liquidity: Liquidity): int {
    if liquidity == TakerLiquidity then row.takerFeeRatio else row.makerFeeRatio
  }

  /** The fee is taken out of what the order receives. */
  function Received(row: OrderRow, fill: Fill): int {
    if row.side == Buy then fill.size else fill.size * fill.price
  }

  function Fee(row: OrderRow, fill: Fill): int {
    Received(row, fill) * FeeRatio(row, fill.liquidity)
  }

  /** The bills of one trade: what the order receives less its fee, what it gives out of its hold,
      and the fee. */
  function TradeBills(pair: Pair, row: OrderRow, fill: Fill): seq<Bill> {
    var given := if row.side == Buy then fill.size * fill.price else fill.size;
    var into, from :=
      if row.side == Buy then pair.baseCurrency else pair.quoteCurrency,
      if row.side == Buy then pair.quoteCurrency else pair.baseCurrency;
    var fee := Fee(row, fill);
    var credit := DelayBill(row.userId, into, Received(row, fill) * ONE - fee, 0);
    var debit := DelayBill(row.userId, from, 0, -given * ONE);
    (if row.side == Buy then [credit, debit] else [debit, credit])
    + if fee > 0 then [DelayBill(FEE_USER, into, fee, 0)] else []
  }

  /** The bill that ends an order: what is left of its hold becomes available again. */
  function RefundBills(pair: Pair, row: OrderRow): seq<Bill> {
    var left := row.Held() - row.Used();
    if left > 0 then [DelayBill(row.userId, row.HoldCurrency(pair), left, -left)] else []
  }

  function FinalStatus(row: OrderRow, reason: DoneReason): OrderStatus {
    if reason == Filled then IsFilled else if row.filledSize == 0 then IsCancelled else IsPartial
  }

  predicate Settleable(fill: Fill) {
    fill.done || fill.liquidity != Unstated
  }

  datatype Settlement = Settlement(row: OrderRow, bills: seq<Bill>, count: nat)

  function SettleFill(pair: Pair, row: OrderRow, fill: Fill): Settlement {
    if fill.done then Settlement(row.(status := FinalStatus(row, fill.doneReason)), RefundBills(pair, row), 1)
    else
      Settlement(row.(filledSize := row.filledSize + fill.size,
                      executedValue := row.executedValue + fill.size * fill.price,
                      fillFees := row.fillFees + Fee(row, fill)),
                 TradeBills(pair, row, fill), 1)
  }

  /** The fills of one order in turn, up to the one that ends it. */
  function SettleFills(pair: Pair, row: OrderRow, fills: seq<Fill>): (r: Option<Settlement>)
    ensures r.Some? ==> r.value.count <= |fills|
    decreases |fills|
  {
    if fills == [] then Some(Settlement(row, [], 0))
    else if !Settleable(fills[0]) then None
    else
      var first := SettleFill(pair, row, fills[0]);
      if fills[0].done then Some(first)
      else
        var rest := SettleFills(pair, first.row, fills[1..]);
        if rest.None? then None
        else Some(Settlement(rest.value.row, first.bills + rest.value.bills, 1 + rest.value.count))
  }

  function PendingFill(id: nat): Fill -> bool {
    (f: Fill) => f.orderId == id && !f.settled
  }

  function MarkSettled(): Fill -> Fill {
    (f: Fill) => f.(settled := true)
  }

  /** The first hundred unsettled fills of an order; nothing changes on an error. */
  function ExecuteFill(l: Ledger, pair: Pair, id: nat): Result<Ledger, LedgerError> {
    if id !in l.orders then Err(OrderNotFound)
    else if l.orders[id].Finished() then Err(OrderFinished)
    else
      var rows := Rows(l.fills, PendingFill(id), BATCH);
      var s := SettleFills(pair, l.orders[id], Picked(l.fills, rows));
      if rows == [] then Ok(l)
      else if s.None? then Err(InvalidLiquidity)
      else
        Ok(l.(orders := l.orders[id := s.value.row], bills := l.bills + s.value.bills,
              fills := Mark(l.fills, rows[..s.value.count], MarkSettled())))
  }

  // ---- what one settlement does to the holds ----

  /** What an order still holds: all that is not used, until it is finished; nothing after, unless
      it has used more than was held. */
  function Unreleased(row: OrderRow): int {
    var left := row.Held() - row.Used();
    if row.Finished() && left > 0 then 0 else left
  }

  function UnreleasedFor(pair: Pair, u: nat, c: nat): OrderRow -> int {
    (row: OrderRow) => if row.userId == u && row.HoldCurrency(pair) == c then Unreleased(row) else 0
  }

  function HoldFor(u: nat, c: nat): Bill -> int {
    (b: Bill) => if Owned(b, u, c) then b.hold else 0
  }

  function Worth(c: nat): Bill -> int {
    (b: Bill) => if b.currency == c then b.available + b.hold else 0
  }

  /** What a fill moves in a currency for an order of a side, whoever pays the fee. */
  function Net(pair: Pair, side: Side, fill: Fill, c: nat): int {
    var bought := (if c == pair.baseCurrency then fill.size * ONE else 0)
                  - (if c == pair.quoteCurrency then fill.size * fill.price * ONE else 0);
    if fill.done then 0 else if side == Buy then bought else -bought
  }

  /** A settlement writes at most three bills. */
  lemma SumOfFew(s: seq<Bill>, f: Bill -> int)
    requires |s| <= 3
    ensures SumSeq(s, f) == (if |s| > 0 then f(s[0]) else 0) + (if |s| > 1 then f(s[1]) else 0) + (if |s| > 2 then f(s[2]) else 0)
  {
    if |s| > 0 {
      SumOfFew(s[..|s| - 1], f);
    }
  }

  /** The holds in a settlement's bills sum to the change of what the order has not released. */
  lemma {:induction false} FillReleases(pair: Pair, row: OrderRow, fill: Fill, u: nat, c: nat)
    requires !row.Finished()
    ensures var s := SettleFill(pair, row, fill);
            SumSeq(s.bills, HoldFor(u, c)) == UnreleasedFor(pair, u, c)(s.row) - UnreleasedFor(pair, u, c)(row)
  {
    hide SumSeq, Fee;
    SumOfFew(SettleFill(pair, row, fill).bills, HoldFor(u, c));
  }

  /** Whatever the fee, a trade's bills are worth exactly what the fill moves; the refund that ends
      an order is worth nothing. */
  lemma {:induction false} FillIsWorthItsNet(pair: Pair, row: OrderRow, fill: Fill, c: nat)
    requires fill.done || Fee(row, fill) >= 0
    ensures SumSeq(SettleFill(pair, row, fill).bills, Worth(c)) == Net(pair, row.side, fill, c)
  {
    hide SumSeq, Fee;
    SumOfFew(SettleFill(pair, row, fill).bills, Worth(c));
  }
}
