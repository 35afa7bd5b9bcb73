/** Order placement: rounding, checks, the hold and the new row (service/order_service.go,
    `PlaceOrder`). */
module Placement {
  import opened Exchange
  import opened Matcher
  import opened Division
  import opened Ledgers

  /** A decimal a user or an operator wrote, as a fraction of the unit it counts. */
  datatype Fraction = Fraction(units: int, per: int)

  type Decimal = d: Fraction | d.per > 0 witness Fraction(0, 1)

  function Rounded(d: Decimal): int {
    RoundedQuotient(d.units, d.per)
  }

  predicate LessThan(n: int, d: Decimal) {
    n * d.per < d.units
  }

  predicate MultipleOf(n: int, d: Decimal)
    requires d.units > 0
  {
    n * d.per % d.units == 0
  }

  /** Sizes count units of 10^-BaseScale, prices and quote amounts units of 10^-QuoteScale. */
  datatype ProductInfo = ProductInfo(
    scales: Product, pair: Pair, baseMinSize: Decimal, quoteMinSize: Decimal, quoteIncrement: Decimal)

  /** `id` is the id generated for the order if it is placed. */
  datatype Request = Request(
    id: nat, userId: nat, side: Side, otype: OrderType, tif: TimeInForce,
    size: Decimal, price: Decimal, funds: Decimal, takerFeeRatio: int, makerFeeRatio: int)

  datatype PlaceError =
    | InvalidFeeRatio | SizeTooSmall | NotAMultiple | PriceNotPositive | FundsTooSmall
    | CannotHold(error: LedgerError) | DuplicateId

  /** Size, price and funds of the order as placed. */
  datatype Terms = Terms(size: int, price: int, funds: int)

  predicate ValidRatio(ratio: int) {
    0 <= ratio < ONE
  }

  function TermsOf(info: ProductInfo, r: Request): Result<Terms, PlaceError> {
    match (r.otype, r.side)
    case (Limit, _) =>
      var size, price := Rounded(r.size), Rounded(r.price);
      if LessThan(size, info.baseMinSize) then Err(SizeTooSmall)
      else if info.quoteIncrement.units > 0 && !MultipleOf(price, info.quoteIncrement) then Err(NotAMultiple)
      else if price <= 0 then Err(PriceNotPositive)
      else Ok(Terms(size, price, size * price))
    case (Market, Buy) =>
      var funds := Rounded(r.funds);
      if LessThan(funds, info.quoteMinSize) then Err(FundsTooSmall)
      else Ok(Terms(0, 0, funds * Pow10(info.scales.baseScale)))
    case (Market, _) =>
      var size := Rounded(r.size);
      if LessThan(size, info.baseMinSize) then Err(SizeTooSmall) else Ok(Terms(size, 0, 0))
  }

  function NewRow(r: Request, t: Terms): OrderRow {
    OrderRow(r.id, r.userId, r.side, r.otype, r.tif, t.size, t.price, t.funds, r.takerFeeRatio, r.makerFeeRatio,
             IsNew, 0, 0, 0)
  }

  /** The order as the engine is sent it. */
  function Sent(row: OrderRow): Order {
    Order(row.id, row.userId, row.side, row.otype, row.tif, row.size, row.price, row.funds, false)
  }

  function PlaceOrder(l: Ledger, info: ProductInfo, r: Request): Result<Ledger, PlaceError> {
    if !ValidRatio(r.makerFeeRatio) || !ValidRatio(r.takerFeeRatio) then Err(InvalidFeeRatio)
    else match TermsOf(info, r)
      case Err(e) => Err(e)
      case Ok(t) =>
        var row := NewRow(r, t);
        match HoldBalance(l, r.userId, row.HoldCurrency(info.pair), row.Held())
        case Err(e) => Err(CannotHold(e))
        case Ok(held) =>
          if r.id in l.orders then Err(DuplicateId)
          else Ok(held.(orders := held.orders[r.id := row]))
  }

  /** Within half a unit of what was asked, and away from zero when exactly halfway. */
  predicate Nearest(n: int, d: Decimal) {
    && -d.per <= 2 * (n * d.per - d.units) <= d.per
    && (2 * (n * d.per - d.units) == d.per ==> d.units > 0)
    && (2 * (n * d.per - d.units) == -d.per ==> d.units < 0)
  }

  lemma RoundsUpHalves(n: int, per: int)
    requires n >= 0 && per > 0
    ensures var q := RoundedQuotient(n, per);
            && -per < 2 * (q * per - n) <= per && (n == 0 ==> q * per == 0)
  {
    var q, rest := (2 * n + per) / (2 * per), (2 * n + per) % (2 * per);
    assert 2 * n + per == 2 * per * q + rest;
    assert 2 * per * q == 2 * (q * per);
    if n == 0 {
      DivUnique(per, 2 * per, 0, per);
    }
  }

  lemma RoundsAlike(d: Decimal)
    requires d.units < 0
    ensures Rounded(d) == -RoundedQuotient(-d.units, d.per)
    ensures Rounded(d) * d.per == -(RoundedQuotient(-d.units, d.per) * d.per)
  {
    var q := RoundedQuotient(-d.units, d.per);
    assert Rounded(d) == -q;
  }

  lemma RoundedIsNearest(d: Decimal)
    ensures Nearest(Rounded(d), d)
    ensures forall n :: Nearest(n, d) ==> n == Rounded(d)
  {
    hide RoundedQuotient;
    if d.units >= 0 {
      RoundsUpHalves(d.units, d.per);
    } else {
      RoundsUpHalves(-d.units, d.per);
      RoundsAlike(d);
    }
    forall n | Nearest(n, d)
      ensures n == Rounded(d)
    {
      NearestIsUnique(n, Rounded(d), d);
    }
  }

  lemma NearestIsUnique(n: int, m: int, d: Decimal)
    requires Nearest(n, d) && Nearest(m, d)
    ensures n == m
  {
    var k := n - m;
    assert k * d.per == n * d.per - m * d.per;
    MulBound(d.per, k);
    assert -d.per <= k * d.per <= d.per;
  }

  /** What placement promises of an order it lets through: every amount is the nearest the product
      can express to what was asked, no smaller than the product's minimum, its price positive and
      a multiple of the increment; and funds are what a limit order can cost. */
  lemma TermsMeetTheProduct(info: ProductInfo, r: Request)
    requires TermsOf(info, r).Ok?
    ensures var t := TermsOf(info, r).value;
            && (r.otype == Limit ==>
                  Nearest(t.size, r.size) && Nearest(t.price, r.price) && t.price > 0 && t.funds == t.size * t.price
                  && !LessThan(t.size, info.baseMinSize)
                  && (info.quoteIncrement.units > 0 ==>
                        exists k :: t.price * info.quoteIncrement.per == k * info.quoteIncrement.units))
            && (r.otype == Market && r.side != Buy ==>
                  Nearest(t.size, r.size) && t.price == t.funds == 0 && !LessThan(t.size, info.baseMinSize))
            && (r.otype == Market && r.side == Buy ==>
                  t.size == t.price == 0
                  && exists n :: Nearest(n, r.funds) && !LessThan(n, info.quoteMinSize)
                                 && t.funds == n * Pow10(info.scales.baseScale))
  {
    RoundedIsNearest(r.size);
    RoundedIsNearest(r.price);
    RoundedIsNearest(r.funds);
    if r.otype == Limit && info.quoteIncrement.units > 0 {
      var n, units := Rounded(r.price) * info.quoteIncrement.per, info.quoteIncrement.units;
      assert n == n / units * units;
    }
  }

  /** The terms alone do not exclude an empty order when a product's minimum is not positive; the
      hold does: an order is fit for the engine exactly when there is something to hold. */
  lemma {:induction false} TermsFitIff(info: ProductInfo, r: Request)
    requires TermsOf(info, r).Ok?
    ensures var row := NewRow(r, TermsOf(info, r).value); FitTerms(Sent(row)) <==> row.Held() > 0
  {
    var t := TermsOf(info, r).value;
    if r.otype == Limit {
      if t.size > 0 {
        assert t.size * t.price > 0;
      } else if t.size < 0 {
        assert (-t.size) * t.price > 0;
      }
    }
  }

  /** Whatever is placed has such terms, and its hold was available, in the base currency unless it
      is a buy. Nobody looks at the side: the order is fit for the engine iff it has one. */
  lemma {:induction false} PlacedIsFitIff(l: Ledger, info: ProductInfo, r: Request)
    requires PlaceOrder(l, info, r).Ok?
    ensures var l' := PlaceOrder(l, info, r).value;
            && r.id in l'.orders
            && var row := l'.orders[r.id];
               && Placeable(info.scales, Sent(row)) && row.side == r.side
               && 0 < row.Held() <= l.AccountOf(r.userId, row.HoldCurrency(info.pair)).available
               && row.HoldCurrency(info.pair) == (if r.side == Buy then info.pair.quoteCurrency else info.pair.baseCurrency)
               && (WellFormed(Sent(row)) <==> r.side == Buy || r.side == Sell)
  {
    hide Rounded, Pow10, LessThan, MultipleOf, FitTerms;
    TermsFitIff(info, r);
    if r.otype == Market && r.side == Buy {
      FundsAreWhole(info, r);
    }
  }

  lemma FundsAreWhole(info: ProductInfo, r: Request)
    requires TermsOf(info, r).Ok? && r.otype == Market && r.side == Buy
    ensures TermsOf(info, r).value.funds % Pow10(info.scales.baseScale) == 0
  {
    hide Rounded, Pow10, LessThan;
    WholeMultiple(Rounded(r.funds), Pow10(info.scales.baseScale));
  }

  lemma WholeMultiple(n: int, d: int)
    requires d > 0
    ensures n * d % d == 0
  {
    DivUnique(n * d, d, n, 0);
  }

  // ---- exactly what is placed, and what is refused ----

  predicate RatiosPass(r: Request) {
    0 <= r.makerFeeRatio < ONE && 0 <= r.takerFeeRatio < ONE
  }

  /** All but market buys are measured by size, to the nearest unit. */
  predicate SizePasses(info: ProductInfo, r: Request) {
    Rounded(r.size) * info.baseMinSize.per >= info.baseMinSize.units
  }

  predicate FundsPass(info: ProductInfo, r: Request) {
    Rounded(r.funds) * info.quoteMinSize.per >= info.quoteMinSize.units
  }

  predicate IncrementPasses(info: ProductInfo, r: Request) {
    info.quoteIncrement.units > 0 ==> Rounded(r.price) * info.quoteIncrement.per % info.quoteIncrement.units == 0
  }

  predicate MeasuredByFunds(r: Request) {
    r.otype == Market && r.side == Buy
  }

  predicate AmountsPass(info: ProductInfo, r: Request) {
    && (if MeasuredByFunds(r) then FundsPass(info, r) else SizePasses(info, r))
    && (r.otype == Limit ==> IncrementPasses(info, r) && Rounded(r.price) > 0)
  }

  /** What must be held: a limit buy's whole price, a market buy's funds, the size of anything else. */
  function AmountToHold(info: ProductInfo, r: Request): int {
    if MeasuredByFunds(r) then Rounded(r.funds) * Pow10(info.scales.baseScale) * ONE
    else if r.side == Buy then Rounded(r.size) * Rounded(r.price) * ONE
    else Rounded(r.size) * ONE
  }

  function CurrencyToHold(info: ProductInfo, r: Request): nat {
    if r.side == Buy then info.pair.quoteCurrency else info.pair.baseCurrency
  }

  predicate IsAvailable(l: Ledger, info: ProductInfo, r: Request) {
    var key := (r.userId, CurrencyToHold(info, r));
    key in l.accounts && l.accounts[key].available >= AmountToHold(info, r)
  }

  /** An order is placed exactly if the fee ratios are below one, its amounts meet the product, there
      is something to hold and the account has it, and its id is new. */
  lemma {:induction false} PlacedIff(l: Ledger, info: ProductInfo, r: Request)
    ensures PlaceOrder(l, info, r).Ok?
            <==> && RatiosPass(r) && AmountsPass(info, r)
                 && AmountToHold(info, r) > 0 && IsAvailable(l, info, r) && r.id !in l.orders
  {
    hide Rounded, Pow10;
  }

  /** Each refusal has its own reason, the first that applies. */
  lemma {:induction false} RefusedIff(l: Ledger, info: ProductInfo, r: Request)
    ensures var out := PlaceOrder(l, info, r);
            && (out == Err(InvalidFeeRatio) <==> !RatiosPass(r))
            && (out == Err(SizeTooSmall) <==> RatiosPass(r) && !MeasuredByFunds(r) && !SizePasses(info, r))
            && (out == Err(FundsTooSmall) <==> RatiosPass(r) && MeasuredByFunds(r) && !FundsPass(info, r))
            && (out == Err(NotAMultiple) <==>
                 RatiosPass(r) && r.otype == Limit && SizePasses(info, r) && !IncrementPasses(info, r))
            && (out == Err(PriceNotPositive) <==>
                 RatiosPass(r) && r.otype == Limit && SizePasses(info, r) && IncrementPasses(info, r) && Rounded(r.price) <= 0)
            && (out == Err(CannotHold(NotPositive)) <==>
                 RatiosPass(r) && AmountsPass(info, r) && AmountToHold(info, r) <= 0)
            && (out == Err(CannotHold(NotEnough)) <==>
                 RatiosPass(r) && AmountsPass(info, r) && AmountToHold(info, r) > 0 && !IsAvailable(l, info, r))
            && (out == Err(DuplicateId) <==>
                 && RatiosPass(r) && AmountsPass(info, r)
                 && AmountToHold(info, r) > 0 && IsAvailable(l, info, r) && r.id in l.orders)
  {
    hide Rounded, Pow10;
  }

  /** What placing an order changes: its amount moves from available to hold, with a settled bill, and
      its row is new and carries the request's own terms. */
  lemma {:induction false} PlacedPlainly(l: Ledger, info: ProductInfo, r: Request)
    requires PlaceOrder(l, info, r).Ok?
    ensures var l' := PlaceOrder(l, info, r).value;
            var key, amount := (r.userId, CurrencyToHold(info, r)), AmountToHold(info, r);
            var size := if MeasuredByFunds(r) then 0 else Rounded(r.size);
            var price := if r.otype == Limit then Rounded(r.price) else 0;
            var funds := if r.otype == Limit then size * price
                         else if r.side == Buy then Rounded(r.funds) * Pow10(info.scales.baseScale) else 0;
            && key in l.accounts
            && l'.accounts == l.accounts[key := Account(l.accounts[key].available - amount, l.accounts[key].hold + amount)]
            && l'.bills == l.bills + [Bill(r.userId, key.1, -amount, amount, true)] && l'.fills == l.fills
            && l'.orders == l.orders[r.id := OrderRow(r.id, r.userId, r.side, r.otype, r.tif, size, price, funds,
                                                      r.takerFeeRatio, r.makerFeeRatio, IsNew, 0, 0, 0)]
  {
    hide Rounded, Pow10;
  }
}
