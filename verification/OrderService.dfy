/** The ledger's transactions as they run on the tables, each proved against its function in
    `Ledgers` and `Placement` (service/order_service.go, service/account_service.go). A
    transaction that fails puts back what it wrote. */
module OrderServices {
  import opened Exchange
  import opened Fills
  import opened Sums
  import opened Tables
  import opened Ledgers
  import opened Placement

  /** The settlement of `fills` goes on from here: `bills` written, `count` fills settled. */
  function Resumed(bills: seq<Bill>, count: nat, rest: Option<Settlement>): Option<Settlement> {
    if rest.None? then None
    else Some(Settlement(rest.value.row, bills + rest.value.bills, count + rest.value.count))
  }

  lemma ResumeTrade(total: Option<Settlement>, pair: Pair, row: OrderRow, fills: seq<Fill>, bills: seq<Bill>, count: nat)
    requires fills != [] && !fills[0].done && Settleable(fills[0])
    requires total == Resumed(bills, count, SettleFills(pair, row, fills))
    ensures var s := SettleFill(pair, row, fills[0]);
            total == Resumed(bills + s.bills, count + 1, SettleFills(pair, s.row, fills[1..]))
  {
    var s := SettleFill(pair, row, fills[0]);
    var rest := SettleFills(pair, s.row, fills[1..]);
    if rest.Some? {
      assert bills + (s.bills + rest.value.bills) == bills + s.bills + rest.value.bills;
    }
  }

  class Store {
    var accounts: map<Key, Account>
    var bills: seq<Bill>
    var orders: map<nat, OrderRow>
    var fills: seq<Fill>

    constructor (accounts: map<Key, Account>)
      ensures State() == Ledger(accounts, [], map[], [])
    {
      this.accounts, bills, orders, fills := accounts, [], map[], [];
    }

    function State(): Ledger
      reads this
    {
      Ledger(accounts, bills, orders, fills)
    }

    method HoldBalance(u: nat, c: nat, size: int) returns (err: Option<LedgerError>)
      modifies `accounts, `bills
      ensures match Ledgers.HoldBalance(old(State()), u, c, size)
              case Ok(l) => err == None && State() == l
              case Err(e) => err == Some(e) && State() == old(State())
    {
      if size <= 0 {
        return Some(NotPositive);
      }
      if (u, c) !in accounts {
        return Some(NotEnough);
      }
      var account := accounts[(u, c)];
      if account.available < size {
        return Some(NotEnough);
      }
      account := account.(available := account.available - size);
      account := account.(hold := account.hold + size);
      bills := bills + [Bill(u, c, -size, size, true)];
      accounts := accounts[(u, c) := account];
      return None;
    }

    method AddDelayBill(u: nat, c: nat, available: int, hold: int)
      modifies `bills
      ensures bills == old(bills) + [Bill(u, c, available, hold, false)]
    {
      bills := bills + [Bill(u, c, available, hold, false)];
    }

    /** Moves the pending bills of an account into it. */
    method ExecuteBill(u: nat, c: nat)
      modifies `accounts, `bills
      ensures State() == Ledgers.ExecuteBill(old(State()), u, c)
    {
      hide SumSeq, Rows, Mark, Picked;
      var account := if (u, c) in accounts then accounts[(u, c)] else Account(0, 0);
      var rows := Rows(bills, PendingBill(u, c), BATCH);
      if rows == [] {
        return;
      }
      var availableSum, holdSum := SumAndMark(rows);
      account := Account(account.available + availableSum, account.hold + holdSum);
      accounts := accounts[(u, c) := account];
    }

    /** Sums bills and marks them settled. */
    method SumAndMark(rows: seq<nat>) returns (availableSum: int, holdSum: int)
      requires InTable(bills, rows) && Increasing(rows)
      modifies `bills
      ensures bills == Mark(old(bills), rows, SettleBill())
      ensures availableSum == SumSeq(Picked(old(bills), rows), Available())
      ensures holdSum == SumSeq(Picked(old(bills), rows), Hold())
    {
      hide SumSeq, Mark, Available, Hold;
      ghost var was, picked := bills, Picked(bills, rows);
      availableSum, holdSum := 0, 0;
      NothingMarked(was, picked, rows);
      for k := 0 to |rows|
        invariant InTable(was, rows[..k]) && Increasing(rows[..k]) && bills == Mark(was, rows[..k], SettleBill())
        invariant availableSum == SumSeq(picked[..k], Available()) && holdSum == SumSeq(picked[..k], Hold())
      {
        MarkNext(was, rows, k, SettleBill());
        var bill := bills[rows[k]];
        SumsSoFar(picked, k);
        availableSum := availableSum + bill.available;
        holdSum := holdSum + bill.hold;
        bills := bills[rows[k] := bill.(settled := true)];
      }
      assert rows[..|rows|] == rows && picked[..|rows|] == picked;
    }

    static lemma NothingMarked(was: seq<Bill>, picked: seq<Bill>, rows: seq<nat>)
      requires InTable(was, rows) && Increasing(rows)
      ensures InTable(was, rows[..0]) && Increasing(rows[..0]) && Mark(was, rows[..0], SettleBill()) == was
      ensures SumSeq(picked[..0], Available()) == 0 && SumSeq(picked[..0], Hold()) == 0
    {
    }

    static lemma SumsSoFar(picked: seq<Bill>, k: nat)
      requires k < |picked|
      ensures SumSeq(picked[..k + 1], Available()) == SumSeq(picked[..k], Available()) + picked[k].available
      ensures SumSeq(picked[..k + 1], Hold()) == SumSeq(picked[..k], Hold()) + picked[k].hold
    {
      assert picked[..k + 1][..k] == picked[..k];
    }

    method PlaceOrder(info: ProductInfo, r: Request) returns (err: Option<PlaceError>)
      modifies this
      ensures match Placement.PlaceOrder(old(State()), info, r)
              case Ok(l) => err == None && State() == l
              case Err(e) => err == Some(e) && State() == old(State())
    {
      hide Rounded, Pow10;
      if !ValidRatio(r.makerFeeRatio) || !ValidRatio(r.takerFeeRatio) {
        return Some(InvalidFeeRatio);
      }
      var size, price, funds := 0, 0, 0;
      match r.otype {
        case Limit =>
          size := Rounded(r.size);
          if LessThan(size, info.baseMinSize) {
            return Some(SizeTooSmall);
          }
          price := Rounded(r.price);
          if info.quoteIncrement.units > 0 && !MultipleOf(price, info.quoteIncrement) {
            return Some(NotAMultiple);
          }
          if price <= 0 {
            return Some(PriceNotPositive);
          }
          funds := size * price;
        case Market =>
          if r.side == Buy {
            funds := Rounded(r.funds);
            if LessThan(funds, info.quoteMinSize) {
              return Some(FundsTooSmall);
            }
            funds := funds * Pow10(info.scales.baseScale);
          } else {
            size := Rounded(r.size);
            if LessThan(size, info.baseMinSize) {
              return Some(SizeTooSmall);
            }
          }
      }
      var holdCurrency, holdSize := info.pair.baseCurrency, size;
      if r.side == Buy {
        holdCurrency, holdSize := info.pair.quoteCurrency, funds;
      }
      var accountsBefore, billsBefore := accounts, bills;
      var failed := HoldBalance(r.userId, holdCurrency, holdSize * ONE);
      if failed.Some? {
        return Some(CannotHold(failed.value));
      }
      if r.id in orders {
        accounts, bills := accountsBefore, billsBefore;
        return Some(DuplicateId);
      }
      orders := orders[r.id := OrderRow(r.id, r.userId, r.side, r.otype, r.tif, size, price, funds,
                                        r.takerFeeRatio, r.makerFeeRatio, IsNew, 0, 0, 0)];
      return None;
    }

    /** The bills and totals of one trade. */
    method SettleTrade(pair: Pair, row: OrderRow, fill: Fill) returns (row': OrderRow)
      requires !fill.done && fill.liquidity != Unstated
      modifies `bills
      ensures row' == SettleFill(pair, row, fill).row && bills == old(bills) + SettleFill(pair, row, fill).bills
    {
      var executedValue := fill.size * fill.price;
      row' := row.(executedValue := row.executedValue + executedValue);
      row' := row'.(filledSize := row'.filledSize + fill.size);
      var ratio := if fill.liquidity == TakerLiquidity then row.takerFeeRatio else row.makerFeeRatio;
      if row.side == Buy {
        var fee := fill.size * ratio;
        row' := row'.(fillFees := row'.fillFees + fee);
        AddDelayBill(row.userId, pair.baseCurrency, fill.size * ONE - fee, 0);
        AddDelayBill(row.userId, pair.quoteCurrency, 0, -executedValue * ONE);
        if fee > 0 {
          AddDelayBill(FEE_USER, pair.baseCurrency, fee, 0);
        }
      } else {
        var fee := executedValue * ratio;
        row' := row'.(fillFees := row'.fillFees + fee);
        AddDelayBill(row.userId, pair.baseCurrency, 0, -fill.size * ONE);
        AddDelayBill(row.userId, pair.quoteCurrency, executedValue * ONE - fee, 0);
        if fee > 0 {
          AddDelayBill(FEE_USER, pair.quoteCurrency, fee, 0);
        }
      }
    }

    /** The end of an order: its status, and what is left of its hold. */
    method SettleDone(pair: Pair, row: OrderRow, fill: Fill) returns (row': OrderRow)
      requires fill.done
      modifies `bills
      ensures row' == SettleFill(pair, row, fill).row && bills == old(bills) + SettleFill(pair, row, fill).bills
    {
      row' := row;
      match fill.doneReason {
        case Cancelled =>
          row' := row.(status := if row.filledSize == 0 then IsCancelled else IsPartial);
        case Filled =>
          row' := row.(status := IsFilled);
      }
      if row.side == Buy {
        var remainingFunds := (row.funds - row.executedValue) * ONE;
        if remainingFunds > 0 {
          AddDelayBill(row.userId, pair.quoteCurrency, remainingFunds, -remainingFunds);
        }
      } else {
        var remainingSize := (row.size - row.filledSize) * ONE;
        if remainingSize > 0 {
          AddDelayBill(row.userId, pair.baseCurrency, remainingSize, -remainingSize);
        }
      }
    }

    /** Settles fills in turn, stopping after the one that ends the order, or at one of no stated
        liquidity. */
    method SettleAll(pair: Pair, row: OrderRow, picked: seq<Fill>) returns (order: OrderRow, count: nat, ok: bool)
      modifies `bills
      ensures ok == SettleFills(pair, row, picked).Some?
      ensures ok ==> var s := SettleFills(pair, row, picked).value;
                     order == s.row && count == s.count && bills == old(bills) + s.bills
    {
      hide SettleFill;
      order, count, ok := row, 0, true;
      ghost var total, written := SettleFills(pair, row, picked), [];
      var done := false;
      ResumeStart(total);
      assert picked[0..] == picked;
      while count < |picked| && !done
        invariant count <= |picked| && ok && bills == old(bills) + written
        invariant !done ==> total == Resumed(written, count, SettleFills(pair, order, picked[count..]))
        invariant done ==> total == Some(Settlement(order, written, count))
      {
        var fill := picked[count];
        ghost var s := SettleFill(pair, order, fill);
        assert picked[count..][0] == fill && picked[count..][1..] == picked[count + 1..];
        if fill.done {
          OneCounted(pair, order, fill);
          order := SettleDone(pair, order, fill);
          done := true;
        } else if fill.liquidity == Unstated {
          return order, count, false;
        } else {
          ResumeTrade(total, pair, order, picked[count..], written, count);
          order := SettleTrade(pair, order, fill);
        }
        written := written + s.bills;
        count := count + 1;
      }
      assert !done ==> picked[count..] == [] && written + [] == written;
    }

    static lemma ResumeStart(total: Option<Settlement>)
      ensures total == Resumed([], 0, total)
    {
      if total.Some? {
        assert [] + total.value.bills == total.value.bills;
      }
    }

    static lemma OneCounted(pair: Pair, row: OrderRow, fill: Fill)
      ensures SettleFill(pair, row, fill).count == 1
    {
    }

    method ExecuteFill(pair: Pair, id: nat) returns (err: Option<LedgerError>)
      modifies `orders, `bills, `fills
      ensures match Ledgers.ExecuteFill(old(State()), pair, id)
              case Ok(l) => err == None && State() == l
              case Err(e) => err == Some(e) && State() == old(State())
    {
      hide SettleFills, Rows, Mark, Picked;
      if id !in orders {
        return Some(OrderNotFound);
      }
      var order := orders[id];
      if order.status == IsFilled || order.status == IsCancelled || order.status == IsPartial {
        return Some(OrderFinished);
      }
      var rows := Rows(fills, PendingFill(id), BATCH);
      if rows == [] {
        return None;
      }
      var billsBefore := bills;
      var settled, count, ok := SettleAll(pair, order, Picked(fills, rows));
      if !ok {
        bills := billsBefore;
        return Some(InvalidLiquidity);
      }
      orders := orders[id := settled];
      MarkRows(rows[..count]);
      return None;
    }

    /** Saves the fills settled. */
    method MarkRows(rows: seq<nat>)
      requires InTable(fills, rows) && Increasing(rows)
      modifies `fills
      ensures fills == Mark(old(fills), rows, MarkSettled())
    {
      ghost var was := fills;
      for k := 0 to |rows|
        invariant InTable(was, rows[..k]) && Increasing(rows[..k]) && fills == Mark(was, rows[..k], MarkSettled())
      {
        MarkNext(was, rows, k, MarkSettled());
        fills := fills[rows[k] := fills[rows[k]].(settled := true)];
      }
      assert rows[..|rows|] == rows;
    }
  }
}
