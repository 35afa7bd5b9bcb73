/** The vocabulary every component shares: orders, resting orders, matching logs and scaled
    decimals (matching/log.go, models/models.go).

    Decimals are exact scaled integers. Sizes count units of 10^-BaseScale, prices units of
    10^-QuoteScale, and funds and traded values units of 10^-(BaseScale + QuoteScale), so the
    product of a size and a price is a value without any rescaling. */
module Exchange {

  datatype Option<+T> = None | Some(value: T)

  /** `OtherSide` is any other string: nothing on the way to the engine validates the field, and
      everything that is not a buy is treated as a sell. */
  datatype Side = Buy | Sell | OtherSide {
    function Opposite(): Side {
      if this == Buy then Sell else Buy
    }
  }

  datatype OrderType = Limit | Market

  /** `Unknown` is any other string: nothing on the way to the engine validates the field. */
  datatype TimeInForce = GTC | IOC | GTX | FOK | Unknown

  datatype DoneReason = Filled | Cancelled

  /** An order as the engine reads it; `cancelling` is the status of a cancel request. */
  datatype Order = Order(
    id: nat, userId: nat, side: Side, otype: OrderType, tif: TimeInForce,
    size: int, price: int, funds: int, cancelling: bool)

  datatype BookOrder = BookOrder(
    orderId: nat, userId: nat, size: int, funds: int, price: int,
    side: Side, otype: OrderType, tif: TimeInForce)

  /** Matching logs without their timestamps and product id. */
  datatype Log =
    | OpenLog(sequence: nat, orderId: nat, userId: nat, remainingSize: int, price: int, side: Side, tif: TimeInForce)
    | MatchLog(sequence: nat, tradeSeq: nat, takerOrderId: nat, makerOrderId: nat, takerUserId: nat, makerUserId: nat,
               side: Side, price: int, size: int, takerTif: TimeInForce, makerTif: TimeInForce)
    | DoneLog(sequence: nat, orderId: nat, userId: nat, price: int, remainingSize: int, reason: DoneReason,
              side: Side, tif: TimeInForce)

  /** The decimal places a quotient keeps (the decimal library's default). */
  const DIVISION_PRECISION: nat := 16

  datatype ProductRow = ProductRow(baseScale: nat, quoteScale: nat)

  type Product = p: ProductRow | p.baseScale <= DIVISION_PRECISION witness ProductRow(8, 2)

  function Pow10(n: nat): (r: nat)
    ensures r >= 1
  {
    if n == 0 then 1 else 10 * Pow10(n - 1)
  }

  /** How many of the quotient's last units make one unit of size. */
  function DivUnit(p: Product): (r: nat)
    ensures r >= 1
  {
    Pow10(DIVISION_PRECISION - p.baseScale)
  }

  /** math.MaxFloat32 as the decimal library reads it from a float64. */
  const MAX_FLOAT32: nat := 340282346638528860000000000000000000000

  function MaxPrice(p: Product): nat {
    MAX_FLOAT32 * Pow10(p.quoteScale)
  }

  /** A multiple of d is zero or at least d away from it. */
  lemma MulBound(d: int, k: int)
    requires d > 0
    ensures k >= 1 ==> d * k >= d
    ensures k <= -1 ==> d * k <= -d
  {
  }

  function Min(a: int, b: int): int {
    if a <= b then a else b
  }

  /** Size, price and funds as placement sends them: whatever is not a buy has the terms of a sell. */
  predicate FitTerms(o: Order) {
    match o.otype
    case Limit => o.size > 0 && o.price > 0 && o.funds == o.size * o.price
    case Market =>
      o.price == 0 && if o.side == Buy then o.funds > 0 && o.size == 0 else o.size > 0 && o.funds == 0
  }

  /** What the engine is built for; a cancel request repeats the stored order. */
  predicate WellFormed(o: Order) {
    o.side != OtherSide && FitTerms(o)
  }

  /** What placement sends, the side aside: its terms, and a market buy's funds in whole units of the
      quote currency. */
  predicate Placeable(p: Product, o: Order) {
    FitTerms(o) && (o.otype == Market && o.side == Buy ==> o.funds % Pow10(p.baseScale) == 0)
  }

  function NewBookOrder(o: Order): BookOrder {
    BookOrder(o.id, o.userId, o.size, o.funds, o.price, o.side, o.otype, o.tif)
  }
}
