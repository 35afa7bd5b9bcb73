/** What an order's arrival leads to: when it is never heard of again, and what it does if the topic
    delivers it more than once (matching/engine.go, matching/order_book.go). */
module Arrivals {
  import opened Exchange
  import opened Depths
  import opened Matcher
  import opened Invariants
  import opened Runs
  import opened TimeInForces
  import opened Lifecycle

  // ---- an order of which nothing is logged ----

  /** The engine passes the order by: it does not know its time in force, or its windows refuse the
      id, which an earlier cancel request has used up or a later id has left behind, and no probe
      nullifies it. */
  ghost predicate PassedBy(p: Product, b: Book, o: Order)
    requires Sound(b)
  {
    o.tif == Unknown
    || (!Admissible(b.accepted, o.id)
        && (o.tif == GTX ==> WillNotMatch(p, b, o)) && (o.tif == FOK ==> WillFullMatch(p, b, o)))
  }

  lemma SettleNames(b: Book, t: BookOrder, l: Life)
    ensures LifeOf(l, Settle(b, t).logs, t.orderId).stage != Unseen
  {
    LifeOne(l, Settle(b, t).logs[0], t.orderId);
  }

  lemma {:induction false} AppliedIsSeen(p: Product, b: Book, o: Order)
    requires Invariant(b) && WellFormed(o) && Admissible(b.accepted, o.id)
    ensures Sound(b) && LifeOf(Unborn, ApplyOrder(p, b, o).logs, o.id).stage != Unseen
  {
    hide Match, Settle, Invariant, LifeOf, Admissible;
    InvariantIsGood(b);
    MatchesAlike(p, b, o);
    MatchTakerFields(p, PrepareTaker(p, NewBookOrder(o)), b.Resting(o.side.Opposite()), b.logSeq, b.tradeSeq);
    var m := MatchOrder(p, b, o);
    var b' := AfterTrades(b.(accepted := b.accepted + {o.id}), o.side, m);
    SettleNames(b', m.taker, LifeOf(Unborn, m.logs, o.id));
    LifeAppend(Unborn, m.logs, Settle(b', m.taker).logs, o.id);
  }

  lemma CarriedStaysSeen(l: Life, l': Life, place: Option<BookOrder>, place': Option<BookOrder>)
    requires Tracks(l, place) && Carried(l, l', place, place')
    ensures l.stage == Unseen <==> l'.stage == Unseen
  {
  }

  /** Of an order that is new to the book its step logs something iff it does not pass it by. */
  lemma {:induction false} StepPassesByIff(p: Product, b: Book, o: Order)
    requires Invariant(b) && WellFormed(o) && !o.cancelling && Find(b, o.id) == None
    ensures Sound(b)
    ensures LifeOf(Unborn, Step(p, b, o).logs, o.id).stage == Unseen <==> PassedBy(p, b, o)
  {
    hide Invariant, ApplyOrder, CancelOrder, NullifyOrder, Find, LifeOf, WillFullMatch, WillNotMatch, WellFormed, Admissible;
    InvariantIsGood(b);
    LifeNone(Unborn, o.id);
    NullifiedIsSeen(b, o);
    if Admissible(b.accepted, o.id) {
      AppliedIsSeen(p, b, o);
    } else {
      RefusedIsNothing(p, b, o);
    }
    if o.tif == IOC {
      var applied := ApplyOrder(p, b, o);
      var l := LifeOf(Unborn, applied.logs, o.id);
      ApplyBears(p, b, o, None);
      LivedTracks(p, l, Find(applied.book, o.id), o, None);
      ApplyKeepsInvariant(p, b, o);
      CancelCarries(applied.book, o, o.id, l);
      var cancelled := CancelOrder(applied.book, o);
      LifeAppend(Unborn, applied.logs, cancelled.logs, o.id);
      CarriedStaysSeen(l, LifeOf(l, cancelled.logs, o.id), Find(applied.book, o.id), Find(cancelled.book, o.id));
    }
  }

  lemma NullifiedIsSeen(b: Book, o: Order)
    ensures LifeOf(Unborn, NullifyOrder(b, o).logs, o.id).stage == Closed
  {
    LifeOne(Unborn, NullifyOrder(b, o).logs[0], o.id);
  }

  lemma RefusedIsNothing(p: Product, b: Book, o: Order)
    requires Sound(b) && !Admissible(b.accepted, o.id)
    ensures ApplyOrder(p, b, o) == Outcome(b, []) && Admit(b.accepted, o.id) == b.accepted
  {
  }

  /** Exactly when the log never speaks of an order, so that nothing ever ends it: when its step
      passed it by. */
  lemma {:induction false} NeverLoggedIff(p: Product, orders: seq<Order>, i: nat)
    requires AllWellFormed(orders) && DistinctNew(orders) && i < |orders| && !orders[i].cancelling
    ensures Invariant(Run(p, orders[..i]).book) && Sound(Run(p, orders[..i]).book)
    ensures LifeOf(Unborn, Run(p, orders).logs, orders[i].id).stage == Unseen
            <==> PassedBy(p, Run(p, orders[..i]).book, orders[i])
    decreases |orders|
  {
    hide Invariant, Step, Find, LifeOf, PassedBy, WellFormed, Carried, Tracks;
    var n, id := |orders| - 1, orders[i].id;
    var before := Run(p, orders[..n]);
    var l := LifeOf(Unborn, before.logs, id);
    InvariantIsGood(Run(p, orders[..i]).book);
    InvariantIsGood(before.book);
    LifeAppend(Unborn, before.logs, Step(p, before.book, orders[n]).logs, id);
    EveryOrderLives(p, orders[..n], id, None);
    if i == n {
      NotBroughtYet(orders, i);
      StepPassesByIff(p, before.book, orders[n]);
    } else {
      assert orders[..n][..i] == orders[..i] && orders[..n][i] == orders[i];
      NeverLoggedIff(p, orders[..n], i);
      assert orders[i].id != orders[n].id || orders[i].cancelling || orders[n].cancelling;
      StepCarries(p, before.book, orders[n], id, l);
      CarriedStaysSeen(l, LifeOf(l, Step(p, before.book, orders[n]).logs, id), Find(before.book, id),
                       Find(Step(p, before.book, orders[n]).book, id));
    }
  }

  lemma NotBroughtYet(orders: seq<Order>, i: nat)
    requires DistinctNew(orders) && i < |orders| && !orders[i].cancelling
    ensures !BroughtBy(orders[..i], orders[i].id)
  {
    assert forall k :: 0 <= k < i ==> orders[k].id != orders[i].id || orders[k].cancelling;
  }

  // ---- the same order again ----

  /** However often an id arrives as new, it is the same order: at-least-once delivery. */
  ghost predicate Redelivered(orders: seq<Order>) {
    forall i, j {:trigger orders[i].id, orders[j].id} :: 0 <= i < j < |orders| ==>
      orders[i].id != orders[j].id || orders[i].cancelling || orders[j].cancelling || orders[i] == orders[j]
  }

  lemma OnceIsRedelivered(orders: seq<Order>)
    requires DistinctNew(orders)
    ensures Redelivered(orders)
  {
  }

  /** The engine will not enter the order into the book any more. */
  ghost predicate Refused(b: Book, o: Order) {
    o.tif == Unknown || !Admissible(b.accepted, o.id)
  }

  lemma {:induction false} ArrivalIsRefusedLater(p: Product, b: Book, o: Order)
    requires Sound(b) && !o.cancelling
    ensures Refused(Step(p, b, o).book, o)
  {
    hide Match, Lookup, Decrease, Insert, WillNotMatch, WillFullMatch;
  }

  lemma {:induction false} RefusedStaysRefused(p: Product, b: Book, o: Order, other: Order)
    requires Sound(b) && Refused(b, other)
    ensures Refused(Step(p, b, o).book, other)
  {
    hide Match, Lookup, Decrease, Insert, WillNotMatch, WillFullMatch;
    assert b.accepted <= Step(p, b, o).book.accepted;
  }

  /** An order resting at the price of another of its side shields it from the GTX probe. */
  lemma {:induction false} RestingDoesNotMatch(p: Product, b: Book, o: Order)
    requires Invariant(b) && o.otype == Limit && o.side != OtherSide
    requires Find(b, o.id).Some? && Find(b, o.id).value.side == o.side && Find(b, o.id).value.price == o.price
    ensures WillNotMatch(p, b, o)
  {
    var x, makers := Find(b, o.id).value, b.Resting(o.side.Opposite());
    assert x in b.bids || x in b.asks;
    assert x in b.Resting(o.side);
    var i :| 0 <= i < |b.Resting(o.side)| && b.Resting(o.side)[i] == x;
    if makers != [] {
      assert o.side == Buy ==> b.bids[i].price < b.asks[0].price;
      assert o.side == Sell ==> b.bids[|b.bids| - 1].price < b.asks[i].price;
    }
  }

  /** Arriving again, an order does nothing if it rests, and otherwise writes at most one more done
      log. */
  lemma {:induction false} RepeatIsHarmless(p: Product, b: Book, o: Order)
    requires Invariant(b) && WellFormed(o) && !o.cancelling && Refused(b, o)
    requires Find(b, o.id).Some? ==>
               && Find(b, o.id).value.side == o.side && Find(b, o.id).value.price == o.price
               && o.otype == Limit && o.tif != IOC && o.tif != FOK
    ensures Sound(b)
    ensures Step(p, b, o) == Outcome(b, [])
            || (Find(b, o.id).None? && Step(p, b, o) == NullifyOrder(b, o)
                && NullifyOrder(b, o).book == b.(logSeq := b.logSeq + 1))
  {
    hide Invariant, ApplyOrder, Lookup, WillFullMatch, WillNotMatch, WellFormed, Admissible;
    InvariantIsGood(b);
    if o.tif != Unknown {
      RefusedIsNothing(p, b, o);
    }
    if o.tif == GTX && Find(b, o.id).Some? {
      assert o.side != OtherSide by {
        SideOf(o);
      }
      RestingDoesNotMatch(p, b, o);
    }
    if o.tif == IOC {
      assert Lookup(b.Resting(o.side), o.id) == None by {
        Lifecycle.NotFound(b, o.id);
        NotThere(b.Resting(o.side), o.id);
      }
    }
  }

  lemma SideOf(o: Order)
    requires WellFormed(o)
    ensures o.side != OtherSide
  {
  }

  lemma NotThere(s: seq<BookOrder>, id: nat)
    ensures Lookup(s, id).None? <==> !HasId(s, id)
  {
  }

  /** An IOC or FOK order never rests. */
  lemma {:induction false} NeverRests(p: Product, b: Book, o: Order)
    requires Invariant(b) && WellFormed(o) && !o.cancelling && Find(b, o.id) == None && (o.tif == IOC || o.tif == FOK)
    ensures Sound(b) && Find(Step(p, b, o).book, o.id) == None
  {
    hide Invariant, ApplyOrder, CancelOrder, NullifyOrder, Lookup, WillFullMatch, Admissible, HasId;
    InvariantIsGood(b);
    Lifecycle.NotFound(b, o.id);
    StepKeepsInvariant(p, b, o);
    var b' := Step(p, b, o).book;
    if !Admissible(b.accepted, o.id) {
      RepeatIsHarmless(p, b, o);
    } else {
      StepBears(p, b, o, None);
      if o.tif == IOC {
        IocTakesAsGtcAndNeverRests(p, b, o);
      } else if o.otype == Limit {
        FokIsAllOrNothing(p, b, o);
      }
      if o.tif == IOC || o.otype == Limit {
        NotOnItsSide(b', o.id, o.side);
      }
    }
  }

  lemma NotOnItsSide(b: Book, id: nat, side: Side)
    requires Invariant(b) && !HasId(b.Resting(side), id) && (Find(b, id).Some? ==> Find(b, id).value.side == side)
    ensures Find(b, id) == None
  {
    FoundOnItsSide(b, id);
  }

  lemma FoundOnItsSide(b: Book, id: nat)
    requires Invariant(b)
    ensures Find(b, id).Some? ==> HasId(b.Resting(Find(b, id).value.side), id)
  {
    if Find(b, id).Some? {
      var x := Find(b, id).value;
      assert x in b.bids || x in b.asks;
    }
  }

  // ---- the life of an order that may be delivered again ----

  /** As an order's life, but for further done logs of one that is over. */
  function AdvanceAgain(l: Life, log: Log, id: nat): Life {
    if log.DoneLog? && log.orderId == id && l.stage == Closed then l else Advance(l, log, id)
  }

  function LifeAgain(l: Life, logs: seq<Log>, id: nat): Life
    decreases |logs|
  {
    if logs == [] then l else LifeAgain(AdvanceAgain(l, logs[0], id), logs[1..], id)
  }

  lemma AgainAppend(l: Life, a: seq<Log>, c: seq<Log>, id: nat)
    ensures LifeAgain(l, a + c, id) == LifeAgain(LifeAgain(l, a, id), c, id)
    decreases |a|
  {
    if a == [] {
      assert a + c == c;
    } else {
      assert (a + c)[1..] == a[1..] + c;
      AgainAppend(AdvanceAgain(l, a[0], id), a[1..], c, id);
    }
  }

  lemma AgainOne(l: Life, log: Log, id: nat)
    ensures LifeAgain(l, [log], id) == AdvanceAgain(l, log, id)
  {
    assert [log][1..] == [];
  }

  lemma {:induction false} BrokenStays(l: Life, logs: seq<Log>, id: nat)
    requires l.stage == Broken
    ensures LifeOf(l, logs, id).stage == Broken && LifeAgain(l, logs, id).stage == Broken
    decreases |logs|
  {
    if logs != [] {
      BrokenStays(Advance(l, logs[0], id), logs[1..], id);
    }
  }

  /** A log in form for an id is in form again. */
  lemma {:induction false} AgainIsLife(l: Life, logs: seq<Log>, id: nat)
    requires LifeOf(l, logs, id).stage != Broken
    ensures LifeAgain(l, logs, id) == LifeOf(l, logs, id)
    decreases |logs|
  {
    if logs != [] {
      if Advance(l, logs[0], id).stage == Broken {
        BrokenStays(Advance(l, logs[0], id), logs[1..], id);
      }
      AgainIsLife(Advance(l, logs[0], id), logs[1..], id);
    }
  }

  /** The life of an id follows its place in the book, keeps the account of the order it stands for
      however often that was delivered, and belongs to nobody if nobody brought it. */
  ghost predicate LivesAgain(p: Product, orders: seq<Order>, id: nat)
    requires AllWellFormed(orders)
  {
    var r := Run(p, orders);
    var l := LifeAgain(Unborn, r.logs, id);
    && Tracks(l, Find(r.book, id))
    && (!BroughtBy(orders, id) ==> l == Unborn && Find(r.book, id) == None)
    && forall i :: 0 <= i < |orders| && Brings(orders[i], id) ==> ArrivedAs(p, r.book, l, orders[i])
  }

  ghost predicate ArrivedAs(p: Product, b: Book, l: Life, o: Order) {
    && Lived(p, l, Find(b, o.id), o, None) && Refused(b, o)
    && (o.tif == IOC || o.tif == FOK ==> Find(b, o.id) == None)
  }

  lemma {:induction false} EveryOrderLivesAgain(p: Product, orders: seq<Order>, id: nat)
    requires AllWellFormed(orders) && Redelivered(orders)
    ensures LivesAgain(p, orders, id)
    decreases |orders|
  {
    hide Invariant, Step, ArrivedAs, LifeAgain, Find, Tracks;
    if orders == [] {
      NothingAgain(id);
    } else {
      var n := |orders| - 1;
      EveryOrderLivesAgain(p, orders[..n], id);
      if !Brings(orders[n], id) {
        OthersGoOn(p, orders, id);
      } else if BroughtBy(orders[..n], id) {
        RepeatGoesOn(p, orders, id);
      } else {
        FirstGoesOn(p, orders, id);
      }
    }
  }

  lemma NothingAgain(id: nat)
    ensures LifeAgain(Unborn, [], id) == Unborn && Find(EmptyBook, id) == None && Tracks(Unborn, None)
  {
  }

  /** A step that does not bring the id. */
  lemma {:induction false} OthersGoOn(p: Product, orders: seq<Order>, id: nat)
    requires orders != [] && AllWellFormed(orders) && LivesAgain(p, orders[..|orders| - 1], id)
    requires !Brings(orders[|orders| - 1], id)
    ensures LivesAgain(p, orders, id)
  {
    hide Invariant, Step, LifeAgain, LifeOf, Find, Tracks, Carried, Lived, Refused, WellFormed;
    var n := |orders| - 1;
    var o, before := orders[n], Run(p, orders[..n]);
    var b, l := before.book, LifeAgain(Unborn, before.logs, id);
    InvariantIsGood(b);
    var step := Step(p, b, o);
    AgainAppend(Unborn, before.logs, step.logs, id);
    StepCarries(p, b, o, id, l);
    var l' := LifeOf(l, step.logs, id);
    CarriedTracks(l, l', Find(b, id), Find(step.book, id));
    TrackedIsNotBroken(l', Find(step.book, id));
    AgainIsLife(l, step.logs, id);
    if Find(b, id) == None {
      CarriedNone(l, l', Find(step.book, id));
    }
    forall i | 0 <= i < |orders| && Brings(orders[i], id)
      ensures ArrivedAs(p, step.book, l', orders[i])
    {
      assert orders[..n][i] == orders[i];
      assert ArrivedAs(p, b, l, orders[i]);
      CarriedLives(p, l, l', Find(b, id), Find(step.book, id), orders[i], None);
      RefusedStaysRefused(p, b, o, orders[i]);
    }
    if !BroughtBy(orders, id) {
      assert forall i :: 0 <= i < n ==> orders[..n][i] == orders[i];
      assert !BroughtBy(orders[..n], id);
    }
  }

  lemma TrackedIsNotBroken(l: Life, place: Option<BookOrder>)
    requires Tracks(l, place)
    ensures l.stage != Broken
  {
  }

  /** The step that brings it first. */
  lemma {:induction false} FirstGoesOn(p: Product, orders: seq<Order>, id: nat)
    requires orders != [] && AllWellFormed(orders) && Redelivered(orders) && LivesAgain(p, orders[..|orders| - 1], id)
    requires Brings(orders[|orders| - 1], id) && !BroughtBy(orders[..|orders| - 1], id)
    ensures LivesAgain(p, orders, id)
  {
    hide Invariant, Step, LifeAgain, LifeOf, Find, Tracks, Lived, Refused, WellFormed;
    var n := |orders| - 1;
    var o, before := orders[n], Run(p, orders[..n]);
    InvariantIsGood(before.book);
    var step := Step(p, before.book, o);
    AgainAppend(Unborn, before.logs, step.logs, id);
    StepBears(p, before.book, o, None);
    var l' := LifeOf(Unborn, step.logs, id);
    LivedTracks(p, l', Find(step.book, id), o, None);
    TrackedIsNotBroken(l', Find(step.book, id));
    AgainIsLife(Unborn, step.logs, id);
    ArrivalIsRefusedLater(p, before.book, o);
    if o.tif == IOC || o.tif == FOK {
      NeverRests(p, before.book, o);
    }
    OnlyThisOne(orders, id);
  }

  lemma OnlyThisOne(orders: seq<Order>, id: nat)
    requires orders != [] && Brings(orders[|orders| - 1], id) && Redelivered(orders)
    ensures BroughtBy(orders, id)
    ensures forall i :: 0 <= i < |orders| && Brings(orders[i], id) ==> orders[i] == orders[|orders| - 1]
  {
  }

  /** A step that brings it again. */
  lemma {:induction false} RepeatGoesOn(p: Product, orders: seq<Order>, id: nat)
    requires orders != [] && AllWellFormed(orders) && Redelivered(orders) && LivesAgain(p, orders[..|orders| - 1], id)
    requires Brings(orders[|orders| - 1], id) && BroughtBy(orders[..|orders| - 1], id)
    ensures LivesAgain(p, orders, id)
  {
    hide Invariant, Step, LifeAgain, Find, WellFormed, Refused;
    var n := |orders| - 1;
    var o, before := orders[n], Run(p, orders[..n]);
    var b, l := before.book, LifeAgain(Unborn, before.logs, id);
    InvariantIsGood(b);
    OnlyThisOne(orders, id);
    var i :| 0 <= i < n && Brings(orders[..n][i], id);
    assert orders[..n][i] == o && ArrivedAs(p, b, l, o);
    RepeatIsHarmless(p, b, o);
    var step := Step(p, b, o);
    RefusedStaysRefused(p, b, o, o);
    AgainAppend(Unborn, before.logs, step.logs, id);
    if step.logs == [] {
      NothingFollows(l, id);
    } else {
      NullifiedAgain(p, b, o, l);
    }
  }

  lemma NothingFollows(l: Life, id: nat)
    ensures LifeAgain(l, [], id) == l
  {
  }

  /** One more done log for an id that does not rest. */
  lemma {:induction false} NullifiedAgain(p: Product, b: Book, o: Order, l: Life)
    requires WellFormed(o) && Find(b, o.id) == None && Lived(p, l, None, o, None)
    ensures var l' := LifeAgain(l, NullifyOrder(b, o).logs, o.id);
            Find(NullifyOrder(b, o).book, o.id) == None && Tracks(l', None) && Lived(p, l', None, o, None)
  {
    AgainOne(l, NullifyOrder(b, o).logs[0], o.id);
    if l == Unborn {
      NullifyBears(p, b, o, None);
      LifeOne(Unborn, NullifyOrder(b, o).logs[0], o.id);
    }
  }
}
