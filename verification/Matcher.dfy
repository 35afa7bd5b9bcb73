/** The matching engine as functions on values: what one order does to the book and which logs
    it writes (matching/order_book.go, and the dispatch of matching/engine.go). */
module Matcher {
  import opened Exchange
  import opened Depths

  const TABLE_ORDER_SPLIT_COUNT: nat := 128
  const ORDER_ID_WINDOW_CAP: nat := 10000

  function Shard(id: nat): (i: nat)
    ensures i < TABLE_ORDER_SPLIT_COUNT
  {
    (id / 4096) % TABLE_ORDER_SPLIT_COUNT
  }

  /** Both sides best order first, the last sequence numbers given out, and every id the
      windows have admitted. */
  datatype Book = Book(bids: seq<BookOrder>, asks: seq<BookOrder>, tradeSeq: nat, logSeq: nat, accepted: set<nat>) {
    function Resting(side: Side): seq<BookOrder> {
      match side
      case Buy => bids
      case Sell => asks
      case OtherSide => []
    }

    function WithResting(side: Side, s: seq<BookOrder>): Book {
      match side
      case Buy => this.(bids := s)
      case Sell => this.(asks := s)
      case OtherSide => this
    }
  }

  const EmptyBook: Book := Book([], [], 0, 0, {})

  datatype Outcome = Outcome(book: Book, logs: seq<Log>)

  /** An id is admitted once, and only while no admitted id of its shard is a window ahead. */
  ghost predicate Admissible(accepted: set<nat>, id: nat) {
    id !in accepted && forall a :: a in accepted && Shard(a) == Shard(id) ==> a < id + ORDER_ID_WINDOW_CAP
  }

  ghost function Admit(accepted: set<nat>, id: nat): set<nat> {
    if Admissible(accepted, id) then accepted + {id} else accepted
  }

  // ---- one taker against one maker ----

  /** A market order is priced so that it crosses whatever rests. */
  function PrepareTaker(p: Product, taker: BookOrder): BookOrder {
    if taker.otype == Limit then taker
    else taker.(price := if taker.side == Buy then MaxPrice(p) else 0)
  }

  predicate PricesCross(side: Side, takerPrice: int, makerPrice: int) {
    if side == Buy then takerPrice >= makerPrice else takerPrice <= makerPrice
  }

  /** n / d to the nearest integer, halves away from zero. */
  function RoundedQuotient(n: int, d: int): int
    requires d > 0
  {
    if n >= 0 then (2 * n + d) / (2 * d) else -((-2 * n + d) / (2 * d))
  }

  /** n / d cut toward zero. */
  function TruncatedQuotient(n: int, d: int): int
    requires d > 0
  {
    if n >= 0 then n / d else -((-n) / d)
  }

  /** How much the funds buy at a price: a quotient rounded at its sixteenth place, then cut to
      the product's base scale. */
  function AffordableSize(p: Product, funds: int, price: int): int
    requires price > 0
  {
    TruncatedQuotient(RoundedQuotient(funds * DivUnit(p), price), DivUnit(p))
  }

  predicate SpendsFunds(o: BookOrder) {
    o.otype == Market && o.side == Buy
  }

  predicate Exhausted(taker: BookOrder) {
    if SpendsFunds(taker) then taker.funds == 0 else taker.size == 0
  }

  function TradeSize(p: Product, taker: BookOrder, maker: BookOrder): int
    requires maker.price > 0
  {
    if Exhausted(taker) then 0
    else if SpendsFunds(taker) then
      var takerSize := AffordableSize(p, taker.funds, maker.price);
      if takerSize == 0 then 0 else Min(takerSize, maker.size)
    else Min(taker.size, maker.size)
  }

  lemma SizeFits(p: Product, taker: BookOrder, maker: BookOrder)
    requires maker.price > 0 && TradeSize(p, taker, maker) != 0
    ensures TradeSize(p, taker, maker) <= maker.size
  {
  }

  /** The taker after a trade. */
  function Spend(taker: BookOrder, size: int, price: int): BookOrder {
    if SpendsFunds(taker) then taker.(funds := taker.funds - size * price)
    else taker.(size := taker.size - size)
  }

  function NewMatchLog(sequence: nat, tradeSeq: nat, taker: BookOrder, maker: BookOrder, size: int): Log {
    MatchLog(sequence, tradeSeq, taker.orderId, maker.orderId, taker.userId, maker.userId,
             maker.side, maker.price, size, taker.tif, maker.tif)
  }

  function NewOpenLog(sequence: nat, o: BookOrder): Log {
    OpenLog(sequence, o.orderId, o.userId, o.size, o.price, o.side, o.tif)
  }

  function NewDoneLog(sequence: nat, o: BookOrder, remainingSize: int, reason: DoneReason): Log {
    DoneLog(sequence, o.orderId, o.userId, o.price, remainingSize, reason, o.side, o.tif)
  }

  // ---- the matching loop ----

  ghost predicate Priced(s: seq<BookOrder>) {
    forall i :: 0 <= i < |s| ==> s[i].price > 0
  }

  datatype Matched = Matched(taker: BookOrder, makers: seq<BookOrder>, logs: seq<Log>, logSeq: nat, tradeSeq: nat)

  /** The logs of one trade: the match, and the maker's end if the trade emptied it. */
  function TradeLogs(logSeq: nat, tradeSeq: nat, taker: BookOrder, maker: BookOrder, size: int): seq<Log> {
    var traded := [NewMatchLog(logSeq + 1, tradeSeq + 1, taker, maker, size)];
    if maker.size == size then traded + [NewDoneLog(logSeq + 2, maker, 0, Filled)] else traded
  }

  /** The taker against the makers in queue order. */
  ghost function Match(p: Product, taker: BookOrder, makers: seq<BookOrder>, logSeq: nat, tradeSeq: nat): Matched
    requires Priced(makers)
    decreases |makers|
  {
    if makers == [] || !PricesCross(taker.side, taker.price, makers[0].price) then
      Matched(taker, makers, [], logSeq, tradeSeq)
    else
      var maker := makers[0];
      var size := TradeSize(p, taker, maker);
      if size == 0 then
        Matched(taker, makers, [], logSeq, tradeSeq)
      else
        var taker' := Spend(taker, size, maker.price);
        var logs := TradeLogs(logSeq, tradeSeq, taker', maker, size);
        var kept := Reduced(maker, size);
        if Exhausted(taker') then
          Matched(taker', kept + makers[1..], logs, logSeq + |logs|, tradeSeq + 1)
        else
          var rest := Match(p, taker', makers[1..], logSeq + |logs|, tradeSeq + 1);
          Matched(rest.taker, kept + rest.makers, logs + rest.logs, rest.logSeq, rest.tradeSeq)
  }

  /** Every maker left by a match was there before it, with no more than its size changed. */
  ghost predicate Survives(o: BookOrder, makers: seq<BookOrder>) {
    exists i :: 0 <= i < |makers| && SameButSize(o, makers[i])
  }

  ghost predicate AllSurvive(makers': seq<BookOrder>, makers: seq<BookOrder>) {
    forall j :: 0 <= j < |makers'| ==> Survives(makers'[j], makers)
  }

  ghost predicate SameButSize(a: BookOrder, b: BookOrder) {
    && a.orderId == b.orderId && a.userId == b.userId && a.funds == b.funds && a.price == b.price
    && a.side == b.side && a.otype == b.otype && a.tif == b.tif
  }

  lemma {:induction false} MatchSurvivors(p: Product, taker: BookOrder, makers: seq<BookOrder>, logSeq: nat, tradeSeq: nat)
    requires Priced(makers)
    ensures AllSurvive(Match(p, taker, makers, logSeq, tradeSeq).makers, makers)
    decreases |makers|
  {
    hide TradeSize, TradeLogs, Exhausted, PricesCross, AllSurvive, Reduced;
    AllSurviveSelf(makers);
    if makers != [] && PricesCross(taker.side, taker.price, makers[0].price) && TradeSize(p, taker, makers[0]) != 0 {
      var size := TradeSize(p, taker, makers[0]);
      var taker' := Spend(taker, size, makers[0].price);
      var logs := TradeLogs(logSeq, tradeSeq, taker', makers[0], size);
      AllSurviveSelf(makers[1..]);
      SurviveAfterTrade(makers, size, makers[1..]);
      if !Exhausted(taker') {
        MatchSurvivors(p, taker', makers[1..], logSeq + |logs|, tradeSeq + 1);
        SurviveAfterTrade(makers, size, Match(p, taker', makers[1..], logSeq + |logs|, tradeSeq + 1).makers);
      }
    }
  }

  lemma AllSurviveSelf(s: seq<BookOrder>)
    ensures AllSurvive(s, s)
  {
    forall j | 0 <= j < |s|
      ensures Survives(s[j], s)
    {
      assert SameButSize(s[j], s[j]);
    }
  }

  /** What a trade leaves of the first maker, before survivors of the others. */
  lemma SurviveAfterTrade(makers: seq<BookOrder>, size: int, rest: seq<BookOrder>)
    requires makers != [] && AllSurvive(rest, makers[1..])
    ensures AllSurvive(Reduced(makers[0], size) + rest, makers)
  {
    hide SameButSize;
    var kept := Reduced(makers[0], size);
    forall j | 0 <= j < |kept + rest|
      ensures Survives((kept + rest)[j], makers)
    {
      if j < |kept| {
        SameButItsSize(makers[0], size);
        assert SameButSize(kept[j], makers[0]);
      } else {
        assert Survives(rest[j - |kept|], makers[1..]);
        var i :| 0 <= i < |makers[1..]| && SameButSize(rest[j - |kept|], makers[1..][i]);
        assert SameButSize(rest[j - |kept|], makers[i + 1]);
      }
    }
  }

  lemma SameButItsSize(o: BookOrder, size: int)
    ensures SameButSize(o.(size := o.size - size), o)
  {
  }

  // ---- the operations of the book ----

  ghost predicate IdsAccepted(s: seq<BookOrder>, accepted: set<nat>) {
    forall i :: 0 <= i < |s| ==> s[i].orderId in accepted
  }

  ghost predicate OnSide(s: seq<BookOrder>, side: Side) {
    forall i :: 0 <= i < |s| ==> s[i].side == side
  }

  /** Every resting order has its side, a positive price and an id its window has admitted, so
      an id the windows still admit is not in the book. */
  ghost predicate SoundSide(s: seq<BookOrder>, side: Side, accepted: set<nat>) {
    Priced(s) && OnSide(s, side) && IdsAccepted(s, accepted)
  }

  ghost predicate Sound(b: Book) {
    SoundSide(b.bids, Buy, b.accepted) && SoundSide(b.asks, Sell, b.accepted)
  }

  /** What an applied taker leaves behind: an open order, or the log that ends it. */
  ghost function Settle(b: Book, taker: BookOrder): Outcome {
    if taker.otype == Limit && taker.size > 0 then
      Outcome(b.WithResting(taker.side, Insert(taker.side, b.Resting(taker.side), taker)).(logSeq := b.logSeq + 1),
              [NewOpenLog(b.logSeq + 1, taker)])
    else
      var log :=
        if taker.otype == Limit then NewDoneLog(b.logSeq + 1, taker, taker.size, Filled)
        else
          var leftover := match taker.side case Buy => taker.funds case Sell => taker.size case OtherSide => 0;
          NewDoneLog(b.logSeq + 1, taker.(price := 0), 0, if leftover > 0 then Cancelled else Filled);
      Outcome(b.(logSeq := b.logSeq + 1), [log])
  }

  /** The book once the taker's trades are done, before the taker is settled. */
  ghost function AfterTrades(b: Book, side: Side, m: Matched): Book {
    b.WithResting(side.Opposite(), m.makers).(logSeq := m.logSeq, tradeSeq := m.tradeSeq)
  }

  ghost function MatchOrder(p: Product, b: Book, o: Order): Matched
    requires Sound(b)
  {
    Match(p, PrepareTaker(p, NewBookOrder(o)), b.Resting(o.side.Opposite()), b.logSeq, b.tradeSeq)
  }

  ghost function ApplyOrder(p: Product, b: Book, o: Order): Outcome
    requires Sound(b)
  {
    if !Admissible(b.accepted, o.id) then Outcome(b, [])
    else
      var m := MatchOrder(p, b, o);
      var settled := Settle(AfterTrades(b.(accepted := b.accepted + {o.id}), o.side, m), m.taker);
      Outcome(settled.book, m.logs + settled.logs)
  }

  ghost function CancelOrder(b: Book, o: Order): Outcome {
    var b' := b.(accepted := Admit(b.accepted, o.id));
    match Lookup(b.Resting(o.side), o.id)
    case None => Outcome(b', [])
    case Some(resting) =>
      Outcome(b'.WithResting(o.side, Decrease(b.Resting(o.side), o.id, resting.size)).(logSeq := b.logSeq + 1),
              [NewDoneLog(b.logSeq + 1, resting, resting.size, Cancelled)])
  }

  ghost function NullifyOrder(b: Book, o: Order): Outcome {
    Outcome(b.(accepted := Admit(b.accepted, o.id), logSeq := b.logSeq + 1),
            [NewDoneLog(b.logSeq + 1, NewBookOrder(o), o.size, Cancelled)])
  }

  /** The probe of a GTX order: a buy looks at the first ask; a sell looks at the LAST bid of the
      descending queue, the lowest one. */
  function WillNotMatch(p: Product, b: Book, o: Order): bool {
    var taker := PrepareTaker(p, NewBookOrder(o));
    var makers := b.Resting(o.side.Opposite());
    makers == []
    || !PricesCross(taker.side, taker.price, (if o.side == Buy then makers[0] else makers[|makers| - 1]).price)
  }

  /** The taker left over by the dry run of an FOK order, which shrinks no maker. */
  ghost function DryRun(p: Product, taker: BookOrder, makers: seq<BookOrder>): BookOrder
    requires Priced(makers)
    decreases |makers|
  {
    if makers == [] || !PricesCross(taker.side, taker.price, makers[0].price) then taker
    else
      var size := TradeSize(p, taker, makers[0]);
      if size == 0 then taker
      else
        var taker' := Spend(taker, size, makers[0].price);
        if Exhausted(taker') then taker' else DryRun(p, taker', makers[1..])
  }

  ghost predicate WillFullMatch(p: Product, b: Book, o: Order)
    requires Sound(b)
  {
    var taker := DryRun(p, PrepareTaker(p, NewBookOrder(o)), b.Resting(o.side.Opposite()));
    !(taker.otype == Limit && taker.size > 0)
  }

  /** One order through the engine's applier. */
  ghost function Step(p: Product, b: Book, o: Order): Outcome
    requires Sound(b)
  {
    if o.cancelling then CancelOrder(b, o)
    else match o.tif
      case GTC => ApplyOrder(p, b, o)
      case IOC =>
        var applied := ApplyOrder(p, b, o);
        var cancelled := CancelOrder(applied.book, o);
        Outcome(cancelled.book, applied.logs + cancelled.logs)
      case GTX => if WillNotMatch(p, b, o) then ApplyOrder(p, b, o) else NullifyOrder(b, o)
      case FOK => if WillFullMatch(p, b, o) then ApplyOrder(p, b, o) else NullifyOrder(b, o)
      case Unknown => Outcome(b, [])
  }

  // ---- orders that stop the process ----

  /** The loop reaches a maker it crosses with a taker that neither spends funds nor has a size to
      trade: a market order of neither side. */
  predicate LoopKills(taker: BookOrder, makers: seq<BookOrder>) {
    && taker.otype == Market && taker.side == OtherSide
    && makers != [] && PricesCross(taker.side, taker.price, makers[0].price)
  }

  predicate OrderLoopKills(p: Product, b: Book, o: Order) {
    LoopKills(PrepareTaker(p, NewBookOrder(o)), b.Resting(o.side.Opposite()))
  }

  /** Or something is left to rest, and there is no depth for it. */
  ghost predicate ApplyKills(p: Product, b: Book, o: Order)
    requires Sound(b)
  {
    && Admissible(b.accepted, o.id)
    && (OrderLoopKills(p, b, o)
        || (o.side == OtherSide && o.otype == Limit && MatchOrder(p, b, o).taker.size > 0))
  }

  /** There is no depth to look for the order in. */
  predicate CancelKills(o: Order) {
    o.side == OtherSide
  }

  /** One order stops the applier, and the process with it. `Step` says what happens otherwise. */
  ghost predicate Kills(p: Product, b: Book, o: Order)
    requires Sound(b)
  {
    if o.cancelling then CancelKills(o)
    else match o.tif
      case GTC => ApplyKills(p, b, o)
      case IOC => ApplyKills(p, b, o) || CancelKills(o)
      case GTX => WillNotMatch(p, b, o) && ApplyKills(p, b, o)
      case FOK => OrderLoopKills(p, b, o) || (WillFullMatch(p, b, o) && ApplyKills(p, b, o))
      case Unknown => false
  }

  // ---- the operations keep the book sound ----

  lemma SurvivorsKeepSound(makers': seq<BookOrder>, makers: seq<BookOrder>, side: Side, accepted: set<nat>)
    requires SoundSide(makers, side, accepted) && AllSurvive(makers', makers)
    ensures SoundSide(makers', side, accepted)
  {
    forall j | 0 <= j < |makers'|
      ensures makers'[j].price > 0 && makers'[j].side == side && makers'[j].orderId in accepted
    {
      var i :| 0 <= i < |makers| && SameButSize(makers'[j], makers[i]);
    }
  }

  lemma {:induction false} TradesKeepSound(p: Product, b: Book, taker: BookOrder)
    requires Sound(b)
    ensures Sound(AfterTrades(b, taker.side, Match(p, taker, b.Resting(taker.side.Opposite()), b.logSeq, b.tradeSeq)))
  {
    var makers := b.Resting(taker.side.Opposite());
    MatchSurvivors(p, taker, makers, b.logSeq, b.tradeSeq);
    SurvivorsKeepSound(Match(p, taker, makers, b.logSeq, b.tradeSeq).makers, makers, taker.side.Opposite(), b.accepted);
  }

  lemma InsertKeepsSound(s: seq<BookOrder>, o: BookOrder, accepted: set<nat>)
    requires SoundSide(s, o.side, accepted) && o.price > 0 && o.orderId in accepted
    ensures SoundSide(Insert(o.side, s, o), o.side, accepted)
  {
    InsertMembers(o.side, s, o);
    forall i | 0 <= i < |Insert(o.side, s, o)|
      ensures var x := Insert(o.side, s, o)[i]; x.price > 0 && x.side == o.side && x.orderId in accepted
    {
      assert Insert(o.side, s, o)[i] in Insert(o.side, s, o);
    }
  }

  lemma {:induction false} SettleKeepsSound(b: Book, taker: BookOrder)
    requires Sound(b) && taker.orderId in b.accepted && (taker.otype == Limit ==> taker.price > 0)
    ensures Sound(Settle(b, taker).book)
  {
    if taker.otype == Limit && taker.size > 0 {
      InsertKeepsSound(b.Resting(taker.side), taker, b.accepted);
    }
  }

  lemma DecreaseKeepsSound(s: seq<BookOrder>, id: nat, size: int, side: Side, accepted: set<nat>)
    requires SoundSide(s, side, accepted)
    ensures SoundSide(Decrease(s, id, size), side, accepted)
  {
    if s != [] && s[0].orderId != id {
      DecreaseKeepsSound(s[1..], id, size, side, accepted);
    }
  }

  lemma AdmitKeepsSound(b: Book, id: nat)
    requires Sound(b)
    ensures Sound(b.(accepted := Admit(b.accepted, id)))
  {
  }

  lemma {:induction false} CancelKeepsSound(b: Book, o: Order)
    requires Sound(b)
    ensures Sound(CancelOrder(b, o).book)
  {
    AdmitKeepsSound(b, o.id);
    var r := Lookup(b.Resting(o.side), o.id);
    if r.Some? {
      DecreaseKeepsSound(b.Resting(o.side), o.id, r.value.size, o.side, Admit(b.accepted, o.id));
    }
  }

  lemma {:induction false} ApplyKeepsSound(p: Product, b: Book, o: Order)
    requires Sound(b) && (o.otype == Limit ==> o.price > 0)
    ensures Sound(ApplyOrder(p, b, o).book)
  {
    if Admissible(b.accepted, o.id) {
      var b' := b.(accepted := b.accepted + {o.id});
      var taker := PrepareTaker(p, NewBookOrder(o));
      TradesKeepSound(p, b', taker);
      MatchTakerFields(p, taker, b.Resting(o.side.Opposite()), b.logSeq, b.tradeSeq);
      SettleKeepsSound(AfterTrades(b', o.side, MatchOrder(p, b, o)), MatchOrder(p, b, o).taker);
    }
  }

  /** Matching changes no more of the taker than its size and funds. */
  lemma MatchTakerFields(p: Product, taker: BookOrder, makers: seq<BookOrder>, logSeq: nat, tradeSeq: nat)
    requires Priced(makers)
    ensures var t := Match(p, taker, makers, logSeq, tradeSeq).taker;
            t == taker.(size := t.size, funds := t.funds)
    decreases |makers|
  {
    if makers != [] && PricesCross(taker.side, taker.price, makers[0].price) && TradeSize(p, taker, makers[0]) != 0 {
      var size := TradeSize(p, taker, makers[0]);
      var taker' := Spend(taker, size, makers[0].price);
      var logs := TradeLogs(logSeq, tradeSeq, taker', makers[0], size);
      MatchTakerFields(p, taker', makers[1..], logSeq + |logs|, tradeSeq + 1);
    }
  }
}
