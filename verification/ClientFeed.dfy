/** What one client is sent of a book over a lossy path: a snapshot, then changes, and a new
    snapshot after a loss (pushing/client.go). */
module ClientFeed {
  import opened Exchange
  import opened Replica
  import opened Agreement

  datatype State = State(resendSnapshot: bool, changes: seq<Level2Change>, lastSeq: nat)

  const NewState: State := State(true, [], 0)

  /** A published snapshot, as the client will see it. */
  datatype ViewSnapshot = ViewSnapshot(sequence: nat, view: LevelView)

  datatype Message = SnapshotMessage(view: LevelView) | UpdateMessage(changes: seq<Level2Change>)

  /** The next state, what is written to the client, and whether the writer asks itself for a
      snapshot. */
  datatype Handled = Handled(state: State, messages: seq<Message>, request: bool)

  const UPDATE_BATCH: nat := 10

  /** One message of the client's channel. A change numbered 0 is a request for a snapshot; `snap`
      is the snapshot published at the moment, if any; `more` is whether the channel still holds
      messages. */
  function Handle(s: State, c: Level2Change, snap: Option<ViewSnapshot>, more: bool): Handled {
    if s.resendSnapshot || c.sequence == 0 then
      match snap
      case None => Handled(s, [], false)
      case Some(v) =>
        if s.lastSeq > v.sequence then Handled(s, [], false)
        else Handled(s.(lastSeq := v.sequence, resendSnapshot := false), [SnapshotMessage(v.view)], false)
    else if c.sequence <= s.lastSeq then Handled(s, [], false)
    else if c.sequence != s.lastSeq + 1 then Handled(State(true, [], c.sequence), [], !more)
    else
      var changes := s.changes + [c];
      if more && |changes| < UPDATE_BATCH then Handled(s.(changes := changes, lastSeq := c.sequence), [], false)
      else Handled(s.(changes := [], lastSeq := c.sequence), [UpdateMessage(changes)], false)
  }

  // ---- the client at the other end ----

  function Receive(v: Option<LevelView>, m: Message): Option<LevelView> {
    match m
    case SnapshotMessage(view) => Some(view)
    case UpdateMessage(changes) => if v.None? then None else Some(ApplyChanges(v.value, changes))
  }

  /** The writer, what its client shows, and the sequence number that stands for. */
  datatype Feed = Feed(state: State, view: Option<LevelView>, shown: Option<nat>)

  const NewFeed: Feed := Feed(NewState, None, None)

  datatype Turn = Turn(change: Level2Change, snap: Option<ViewSnapshot>, more: bool)

  function Advance(f: Feed, t: Turn): Feed {
    var h := Handle(f.state, t.change, t.snap, t.more);
    if h.messages == [] then f.(state := h.state)
    else Feed(h.state, Receive(f.view, h.messages[0]), Some(h.state.lastSeq))
  }

  function AdvanceAll(f: Feed, turns: seq<Turn>): Feed
    decreases |turns|
  {
    if turns == [] then f else Advance(AdvanceAll(f, turns[..|turns| - 1]), turns[|turns| - 1])
  }

  /** The turn carries a request, or a change of the history, and any snapshot of the history. */
  ghost predicate Genuine(t: Turn, views: seq<LevelView>, changes: seq<Level2Change>) {
    && (t.change.sequence == 0 || (t.change.sequence <= |changes| && t.change == changes[t.change.sequence - 1]))
    && (t.snap.Some? ==> t.snap.value.sequence < |views| && t.snap.value.view == views[t.snap.value.sequence])
  }

  function LevelAt(v: LevelView, c: Level2Change): Option<int> {
    var levels := match c.side case Buy => v.bids case Sell => v.asks case OtherSide => map[];
    if c.price in levels then Some(levels[c.price]) else None
  }

  /** A snapshot that answers a request shows every price at which a change waits as the book did
      at `lastSeq`, after those changes. */
  ghost predicate Guarded(s: State, t: Turn, views: seq<LevelView>) {
    t.change.sequence == 0 && t.snap.Some? && s.lastSeq <= t.snap.value.sequence && s.lastSeq < |views| ==>
      forall i :: 0 <= i < |s.changes| ==> LevelAt(t.snap.value.view, s.changes[i]) == LevelAt(views[s.lastSeq], s.changes[i])
  }

  /** Turns that feed a client the history `views` and `changes`, requests guarded. */
  ghost predicate Feeds(turns: seq<Turn>, views: seq<LevelView>, changes: seq<Level2Change>) {
    forall i :: 0 <= i < |turns| ==>
      Genuine(turns[i], views, changes) && Guarded(AdvanceAll(NewFeed, turns[..i]).state, turns[i], views)
  }

  lemma {:induction false} FeedsBefore(turns: seq<Turn>, views: seq<LevelView>, changes: seq<Level2Change>)
    requires turns != [] && Feeds(turns, views, changes)
    ensures var n := |turns| - 1;
            && Feeds(turns[..n], views, changes) && Genuine(turns[n], views, changes)
            && Guarded(AdvanceAll(NewFeed, turns[..n]).state, turns[n], views)
            && AdvanceAll(NewFeed, turns) == Advance(AdvanceAll(NewFeed, turns[..n]), turns[n])
  {
    hide Genuine, Guarded, Advance;
    var n := |turns| - 1;
    assert forall i :: 0 <= i < n ==> turns[..n][..i] == turns[..i];
  }

  /** The client shows the book at exactly one sequence number; and unless a snapshot is due, what
      it shows together with the changes waiting is the book at `lastSeq`. */
  ghost predicate Exact(f: Feed, views: seq<LevelView>) {
    && f.state.lastSeq < |views| && f.view.Some? == f.shown.Some?
    && (f.shown.Some? ==> f.shown.value <= f.state.lastSeq && f.view.value == views[f.shown.value])
    && (f.state.resendSnapshot ==> f.state.changes == [])
    && (!f.state.resendSnapshot ==>
          f.shown.Some? && ApplyChanges(f.view.value, f.state.changes) == views[f.state.lastSeq])
  }

  // ---- changes applied to a view they were not made for ----

  predicate Touches(cs: seq<Level2Change>, c: Level2Change) {
    exists i :: 0 <= i < |cs| && cs[i].side == c.side && cs[i].price == c.price
  }

  /** Where changes touch a price its size is theirs, whatever they are applied to; elsewhere it
      stays. */
  lemma {:induction false} TouchedOrKept(v: LevelView, v': LevelView, cs: seq<Level2Change>, c: Level2Change)
    ensures Touches(cs, c) ==> LevelAt(ApplyChanges(v, cs), c) == LevelAt(ApplyChanges(v', cs), c)
    ensures !Touches(cs, c) ==> LevelAt(ApplyChanges(v, cs), c) == LevelAt(v, c)
    decreases |cs|
  {
    hide Touches, LevelAt, ApplyChange;
    TouchesLast(cs, c);
    if cs != [] {
      var n := |cs| - 1;
      TouchedOrKept(v, v', cs[..n], c);
      OneChange(ApplyChanges(v, cs[..n]), ApplyChanges(v', cs[..n]), cs[n], c);
      OneChange(ApplyChanges(v', cs[..n]), ApplyChanges(v, cs[..n]), cs[n], c);
    }
  }

  lemma {:induction false} TouchesLast(cs: seq<Level2Change>, c: Level2Change)
    ensures cs == [] ==> !Touches(cs, c)
    ensures cs != [] ==>
      var n := |cs| - 1;
      Touches(cs, c) <==> Touches(cs[..n], c) || (cs[n].side == c.side && cs[n].price == c.price)
  {
    if cs != [] {
      var n := |cs| - 1;
      assert forall i :: 0 <= i < n ==> cs[..n][i] == cs[i];
      if Touches(cs[..n], c) {
        var i :| 0 <= i < n && cs[..n][i].side == c.side && cs[..n][i].price == c.price;
        assert cs[i].side == c.side && cs[i].price == c.price;
      }
    }
  }

  lemma OneChange(v: LevelView, v': LevelView, last: Level2Change, c: Level2Change)
    ensures if last.side == c.side && last.price == c.price
            then LevelAt(ApplyChange(v, last), c) == LevelAt(ApplyChange(v', last), c)
            else LevelAt(ApplyChange(v, last), c) == LevelAt(v, c)
  {
  }

  lemma SameLevels(v: LevelView, v': LevelView)
    requires forall c :: LevelAt(v, c) == LevelAt(v', c)
    ensures v == v'
  {
    forall price
      ensures price in v.bids <==> price in v'.bids
      ensures price in v.bids ==> v.bids[price] == v'.bids[price]
      ensures price in v.asks <==> price in v'.asks
      ensures price in v.asks ==> v.asks[price] == v'.asks[price]
    {
      assert LevelAt(v, Level2Change(0, Buy, price, 0)) == LevelAt(v', Level2Change(0, Buy, price, 0));
      assert LevelAt(v, Level2Change(0, Sell, price, 0)) == LevelAt(v', Level2Change(0, Sell, price, 0));
    }
  }

  /** A view survives changes that led elsewhere exactly when it already shows their outcome. */
  lemma {:induction false} ViewSurvivesIff(v: LevelView, other: LevelView, cs: seq<Level2Change>)
    ensures ApplyChanges(other, cs) == other
            <==> forall i :: 0 <= i < |cs| ==> LevelAt(other, cs[i]) == LevelAt(ApplyChanges(v, cs), cs[i])
  {
    hide ApplyChanges, LevelAt;
    forall c
      ensures Touches(cs, c) ==> LevelAt(ApplyChanges(other, cs), c) == LevelAt(ApplyChanges(v, cs), c)
      ensures !Touches(cs, c) ==> LevelAt(ApplyChanges(other, cs), c) == LevelAt(other, c)
    {
      TouchedOrKept(other, v, cs, c);
    }
    forall i | 0 <= i < |cs|
      ensures LevelAt(ApplyChanges(other, cs), cs[i]) == LevelAt(ApplyChanges(v, cs), cs[i])
    {
      assert Touches(cs, cs[i]);
    }
    if forall i :: 0 <= i < |cs| ==> LevelAt(other, cs[i]) == LevelAt(ApplyChanges(v, cs), cs[i]) {
      forall c
        ensures LevelAt(ApplyChanges(other, cs), c) == LevelAt(other, c)
      {
        if Touches(cs, c) {
          var i :| 0 <= i < |cs| && cs[i].side == c.side && cs[i].price == c.price;
          SamePlace(other, cs[i], c);
          SamePlace(ApplyChanges(other, cs), cs[i], c);
        }
      }
      SameLevels(ApplyChanges(other, cs), other);
    }
  }

  lemma SamePlace(v: LevelView, c: Level2Change, c': Level2Change)
    requires c.side == c'.side && c.price == c'.price
    ensures LevelAt(v, c) == LevelAt(v, c')
  {
  }

  /** The changes a request finds waiting are sent after its snapshot. The client is on a true book
      at once, but what waits leads from there to the book at `lastSeq` iff the request is guarded:
      the snapshot shows what those changes say. */
  lemma {:induction false} RequestIsExactIff(f: Feed, t: Turn, views: seq<LevelView>, changes: seq<Level2Change>)
    requires IsHistory(views, changes) && Exact(f, views) && Genuine(t, views, changes)
    requires t.change.sequence == 0
    ensures Exact(Advance(f, t), views) <==> Guarded(f.state, t, views)
  {
    hide ApplyChanges, LevelAt, IsHistory;
    HistoryLength(views, changes);
    if t.snap.Some? && f.state.lastSeq <= t.snap.value.sequence && !f.state.resendSnapshot {
      ViewSurvivesIff(f.view.value, t.snap.value.view, f.state.changes);
    } else if f.state.changes == [] && t.snap.Some? {
      NothingToApply(t.snap.value.view);
    }
  }

  lemma HistoryLength(views: seq<LevelView>, changes: seq<Level2Change>)
    requires IsHistory(views, changes)
    ensures |views| == |changes| + 1
  {
  }

  lemma NothingToApply(v: LevelView)
    ensures ApplyChanges(v, []) == v
  {
  }

  /** A request that finds no change waiting is guarded, and so is one whose snapshot is at
      `lastSeq`, whatever waits. */
  lemma GuardedIfCurrent(s: State, t: Turn, views: seq<LevelView>, changes: seq<Level2Change>)
    requires IsHistory(views, changes) && Genuine(t, views, changes)
    requires s.changes == [] || (t.snap.Some? ==> t.snap.value.sequence <= s.lastSeq)
    ensures Guarded(s, t, views)
  {
  }

  lemma {:induction false} AdvanceIsExact(f: Feed, t: Turn, views: seq<LevelView>, changes: seq<Level2Change>)
    requires IsHistory(views, changes) && Exact(f, views) && Genuine(t, views, changes)
    requires Guarded(f.state, t, views)
    ensures Exact(Advance(f, t), views)
    ensures f.shown.Some? ==> Advance(f, t).shown.Some? && f.shown.value <= Advance(f, t).shown.value
  {
    hide ApplyChanges, LevelAt, IsHistory, Guarded;
    HistoryLength(views, changes);
    if t.change.sequence == 0 {
      RequestIsExactIff(f, t, views, changes);
    } else if f.state.resendSnapshot {
      if t.snap.Some? {
        NothingToApply(t.snap.value.view);
      }
    } else if t.change.sequence == f.state.lastSeq + 1 {
      OneMoreChange(f, t.change, views, changes);
      NothingToApply(ApplyChanges(f.view.value, f.state.changes + [t.change]));
    }
  }

  lemma OneMoreChange(f: Feed, c: Level2Change, views: seq<LevelView>, changes: seq<Level2Change>)
    requires IsHistory(views, changes) && f.view.Some? && f.state.lastSeq < |changes| && c == changes[f.state.lastSeq]
    requires ApplyChanges(f.view.value, f.state.changes) == views[f.state.lastSeq]
    ensures ApplyChanges(f.view.value, f.state.changes + [c]) == views[f.state.lastSeq + 1]
  {
    assert (f.state.changes + [c])[..|f.state.changes|] == f.state.changes;
  }

  /** For any history of the book, any losses, repeats and reorderings of its changes, any
      snapshots of it published early or late: while requests are guarded, the client always shows
      the whole book at one exact sequence number. */
  lemma {:induction false} ClientNeverShowsAMixture(turns: seq<Turn>, views: seq<LevelView>, changes: seq<Level2Change>)
    requires IsHistory(views, changes) && Feeds(turns, views, changes)
    ensures Exact(AdvanceAll(NewFeed, turns), views)
    decreases |turns|
  {
    hide Exact, Feeds, Genuine, Guarded, Advance, IsHistory;
    if turns == [] {
      NewFeedIsExact(views, changes);
    } else {
      var n := |turns| - 1;
      FeedsBefore(turns, views, changes);
      ClientNeverShowsAMixture(turns[..n], views, changes);
      AdvanceIsExact(AdvanceAll(NewFeed, turns[..n]), turns[n], views, changes);
    }
  }

  lemma NewFeedIsExact(views: seq<LevelView>, changes: seq<Level2Change>)
    requires IsHistory(views, changes)
    ensures Exact(NewFeed, views)
  {
  }

  predicate ShownIsPast(f: Feed) {
    f.shown.Some? ==> f.shown.value <= f.state.lastSeq
  }

  /** Whatever turns come, what the client shows never goes back in time. */
  lemma {:induction false} ClientNeverGoesBack(turns: seq<Turn>, k: nat)
    requires k <= |turns|
    ensures var before, after := AdvanceAll(NewFeed, turns[..k]).shown, AdvanceAll(NewFeed, turns).shown;
            before.Some? ==> after.Some? && before.value <= after.value
    ensures ShownIsPast(AdvanceAll(NewFeed, turns))
    decreases |turns|
  {
    hide Advance;
    if turns == [] {
    } else if k == |turns| {
      assert turns[..k] == turns;
      ClientNeverGoesBack(turns[..k - 1], k - 1);
      OneTurnOn(AdvanceAll(NewFeed, turns[..k - 1]), turns[k - 1]);
    } else {
      var n := |turns| - 1;
      assert turns[..n][..k] == turns[..k];
      ClientNeverGoesBack(turns[..n], k);
      OneTurnOn(AdvanceAll(NewFeed, turns[..n]), turns[n]);
    }
  }

  lemma {:induction false} OneTurnOn(f: Feed, t: Turn)
    requires ShownIsPast(f)
    ensures ShownIsPast(Advance(f, t))
    ensures f.shown.Some? ==> Advance(f, t).shown.Some? && f.shown.value <= Advance(f, t).shown.value
  {
  }

  // ---- whatever the requests ----

  /** What the client shows is the book at one sequence number. */
  ghost predicate Shows(f: Feed, views: seq<LevelView>) {
    f.view.Some? == f.shown.Some? && (f.shown.Some? ==> f.shown.value < |views| && f.view.value == views[f.shown.value])
  }

  /** The changes waiting that are newer than what the client shows; any before them were waiting
      when it was sent a snapshot. */
  function Newer(f: Feed): int {
    if f.shown.Some? then f.state.lastSeq - f.shown.value else 0
  }

  function Stale(f: Feed): seq<Level2Change> {
    var k := |f.state.changes| - Newer(f);
    if 0 <= k <= |f.state.changes| then f.state.changes[..k] else []
  }

  /** The client shows a book of the history, and what waits is stale changes and then, without a
      gap, those since. */
  ghost predicate Tracks(f: Feed, views: seq<LevelView>, changes: seq<Level2Change>) {
    && Shows(f, views) && f.state.lastSeq <= |changes| && ShownIsPast(f)
    && (!f.state.resendSnapshot ==>
          && f.shown.Some? && Newer(f) <= |f.state.changes|
          && f.state.changes[|f.state.changes| - Newer(f)..] == changes[f.shown.value..f.state.lastSeq])
  }

  /** The turn sends the client the changes waiting. */
  predicate Flushes(f: Feed, t: Turn) {
    && !f.state.resendSnapshot && t.change.sequence == f.state.lastSeq + 1
    && !(t.more && |f.state.changes| + 1 < UPDATE_BATCH)
  }

  /** Every stale change is made good by a newer one at its price, or its size is the one the book
      has there. */
  ghost predicate MadeGood(v: LevelView, stale: seq<Level2Change>, newer: seq<Level2Change>, end: LevelView) {
    forall i :: 0 <= i < |stale| && !Touches(newer, stale[i]) ==>
      LevelAt(ApplyChanges(v, stale), stale[i]) == LevelAt(end, stale[i])
  }

  /** So is every stale change among those the turn would send. */
  ghost predicate Clean(f: Feed, views: seq<LevelView>, changes: seq<Level2Change>)
    requires f.shown.Some? && f.view.Some?
  {
    var m, j := f.shown.value, f.state.lastSeq + 1;
    m <= j <= |changes| && j < |views| ==> MadeGood(f.view.value, Stale(f), changes[m..j], views[j])
  }

  /** A view sent stale changes and then those of the history is the book again iff every stale
      change is made good, or says what the book says. */
  lemma {:induction false} FlushIsExactIff(views: seq<LevelView>, changes: seq<Level2Change>, m: nat, j: nat,
                                           stale: seq<Level2Change>)
    requires IsHistory(views, changes) && m <= j <= |changes|
    ensures j < |views| == |changes| + 1
    ensures ApplyChanges(views[m], stale + changes[m..j]) == views[j] <==> MadeGood(views[m], stale, changes[m..j], views[j])
  {
    hide ApplyChanges, LevelAt, Touches, IsHistory, MadeGood;
    HistoryLength(views, changes);
    var newer := changes[m..j];
    ChangesAppend(views[m], stale, newer);
    DeltasRebuild(views, changes, m, j);
    MadeGoodIff(views[m], stale, newer);
  }

  lemma {:induction false} MadeGoodIff(v: LevelView, stale: seq<Level2Change>, newer: seq<Level2Change>)
    ensures ApplyChanges(ApplyChanges(v, stale), newer) == ApplyChanges(v, newer)
            <==> MadeGood(v, stale, newer, ApplyChanges(v, newer))
  {
    hide ApplyChanges, LevelAt, Touches;
    var mixed, end := ApplyChanges(v, stale), ApplyChanges(v, newer);
    forall i | 0 <= i < |stale| && !Touches(newer, stale[i])
      ensures LevelAt(ApplyChanges(mixed, newer), stale[i]) == LevelAt(mixed, stale[i])
    {
      TouchedOrKept(mixed, v, newer, stale[i]);
    }
    if MadeGood(v, stale, newer, end) {
      forall c
        ensures LevelAt(ApplyChanges(mixed, newer), c) == LevelAt(end, c)
      {
        GoodThere(v, stale, newer, c);
      }
      SameLevels(ApplyChanges(mixed, newer), end);
    }
  }

  /** At one price. */
  lemma {:induction false} GoodThere(v: LevelView, stale: seq<Level2Change>, newer: seq<Level2Change>, c: Level2Change)
    requires MadeGood(v, stale, newer, ApplyChanges(v, newer))
    ensures LevelAt(ApplyChanges(ApplyChanges(v, stale), newer), c) == LevelAt(ApplyChanges(v, newer), c)
  {
    hide ApplyChanges, LevelAt, Touches;
    var mixed := ApplyChanges(v, stale);
    TouchedOrKept(mixed, v, newer, c);
    TouchedOrKept(v, mixed, newer, c);
    TouchedOrKept(v, v, stale, c);
    if Touches(stale, c) && !Touches(newer, c) {
      var i := TouchedAt(stale, c);
      TouchesAlike(newer, stale[i], c);
      SamePlace(mixed, stale[i], c);
      SamePlace(ApplyChanges(v, newer), stale[i], c);
    }
  }

  lemma TouchedAt(cs: seq<Level2Change>, c: Level2Change) returns (i: nat)
    requires Touches(cs, c)
    ensures i < |cs| && cs[i].side == c.side && cs[i].price == c.price
  {
    i :| 0 <= i < |cs| && cs[i].side == c.side && cs[i].price == c.price;
  }

  lemma TouchesAlike(cs: seq<Level2Change>, c: Level2Change, c': Level2Change)
    requires c.side == c'.side && c.price == c'.price
    ensures Touches(cs, c) <==> Touches(cs, c')
  {
  }

  lemma ChangesAppend(v: LevelView, a: seq<Level2Change>, b: seq<Level2Change>)
    ensures ApplyChanges(v, a + b) == ApplyChanges(ApplyChanges(v, a), b)
    decreases |b|
  {
    if b == [] {
      assert a + b == a;
    } else {
      assert (a + b)[..|a + b| - 1] == a + b[..|b| - 1];
      ChangesAppend(v, a, b[..|b| - 1]);
    }
  }

  /** What a flush sends: the stale changes, then the history's. */
  lemma {:induction false} WaitingSplits(f: Feed, t: Turn, views: seq<LevelView>, changes: seq<Level2Change>)
    requires Tracks(f, views, changes) && Genuine(t, views, changes) && !f.state.resendSnapshot
    requires t.change.sequence == f.state.lastSeq + 1
    ensures var m, j := f.shown.value, t.change.sequence;
            && m < j <= |changes| && f.state.changes + [t.change] == Stale(f) + changes[m..j]
            && Newer(f) + 1 <= |f.state.changes| + 1
            && (f.state.changes + [t.change])[|f.state.changes| - Newer(f)..] == changes[m..j]
  {
    hide Shows;
    var k := |f.state.changes| - Newer(f);
    var m, j := f.shown.value, t.change.sequence;
    assert changes[m..j] == changes[m..j - 1] + [t.change];
    assert f.state.changes == f.state.changes[..k] + f.state.changes[k..];
  }

  /** A snapshot, a change already seen, or a gap. */
  lemma {:induction false} OtherTurn(f: Feed, t: Turn, views: seq<LevelView>, changes: seq<Level2Change>)
    requires Tracks(f, views, changes) && Genuine(t, views, changes) && |views| == |changes| + 1
    requires f.state.resendSnapshot || t.change.sequence != f.state.lastSeq + 1
    ensures Shows(Advance(f, t), views) && Tracks(Advance(f, t), views, changes)
  {
    var f' := Advance(f, t);
    if f'.shown != f.shown || f'.view != f.view {
      assert f'.state.changes[|f'.state.changes|..] == [] && Newer(f') == 0;
    }
  }

  lemma {:induction false} WaitingTurn(f: Feed, t: Turn, views: seq<LevelView>, changes: seq<Level2Change>)
    requires Tracks(f, views, changes) && Genuine(t, views, changes) && !f.state.resendSnapshot
    requires t.change.sequence == f.state.lastSeq + 1 && !Flushes(f, t)
    ensures Shows(Advance(f, t), views) && Tracks(Advance(f, t), views, changes)
  {
    hide Stale;
    WaitingSplits(f, t, views, changes);
  }

  lemma {:induction false} FlushTurn(f: Feed, t: Turn, views: seq<LevelView>, changes: seq<Level2Change>)
    requires IsHistory(views, changes) && Tracks(f, views, changes) && Genuine(t, views, changes) && Flushes(f, t)
    ensures f.shown.Some? && f.view.Some?
    ensures Shows(Advance(f, t), views) <==> Clean(f, views, changes)
    ensures Shows(Advance(f, t), views) ==> Tracks(Advance(f, t), views, changes)
  {
    hide ApplyChanges, IsHistory, MadeGood, Stale;
    WaitingSplits(f, t, views, changes);
    FlushIsExactIff(views, changes, f.shown.value, t.change.sequence, Stale(f));
  }

  /** After any turn the client shows a true book, unless the turn sends it changes one of which is
      stale and neither made good nor true. */
  lemma {:induction false} AdvanceShowsIff(f: Feed, t: Turn, views: seq<LevelView>, changes: seq<Level2Change>)
    requires IsHistory(views, changes) && Tracks(f, views, changes) && Genuine(t, views, changes)
    ensures Shows(Advance(f, t), views) <==> CleanTurn(f, t, views, changes)
    ensures Shows(Advance(f, t), views) ==> Tracks(Advance(f, t), views, changes)
  {
    hide IsHistory, Tracks, Shows, Clean, Genuine, Advance;
    HistoryLength(views, changes);
    if Flushes(f, t) {
      FlushTurn(f, t, views, changes);
    } else if !f.state.resendSnapshot && t.change.sequence == f.state.lastSeq + 1 {
      WaitingTurn(f, t, views, changes);
    } else {
      OtherTurn(f, t, views, changes);
    }
  }

  ghost predicate CleanTurn(f: Feed, t: Turn, views: seq<LevelView>, changes: seq<Level2Change>) {
    Flushes(f, t) && f.shown.Some? && f.view.Some? ==> Clean(f, views, changes)
  }

  ghost predicate AllShow(turns: seq<Turn>, views: seq<LevelView>) {
    forall k :: 0 <= k <= |turns| ==> Shows(AdvanceAll(NewFeed, turns[..k]), views)
  }

  ghost predicate AllClean(turns: seq<Turn>, views: seq<LevelView>, changes: seq<Level2Change>) {
    forall k :: 0 <= k < |turns| ==> CleanTurn(AdvanceAll(NewFeed, turns[..k]), turns[k], views, changes)
  }

  ghost predicate AllGenuine(turns: seq<Turn>, views: seq<LevelView>, changes: seq<Level2Change>) {
    forall k :: 0 <= k < |turns| ==> Genuine(turns[k], views, changes)
  }

  /** Exactly when a client is shown nothing but true books, over any losses, repeats, reorderings
      and requests: when every time changes are sent, each stale one among them is made good by a
      newer one or says what the book says. */
  lemma {:induction false} ClientShowsTrueBooksIff(turns: seq<Turn>, views: seq<LevelView>, changes: seq<Level2Change>)
    requires IsHistory(views, changes) && AllGenuine(turns, views, changes)
    ensures AllShow(turns, views) <==> AllClean(turns, views, changes)
    ensures AllShow(turns, views) ==> Tracks(AdvanceAll(NewFeed, turns), views, changes)
    decreases |turns|
  {
    hide Shows, Tracks, Genuine, CleanTurn, Advance, IsHistory, AllShow, AllClean;
    ShowsSplits(turns, views);
    CleanSplits(turns, views, changes);
    if turns == [] {
      NewFeedTracks(views, changes);
    } else {
      var n := |turns| - 1;
      ClientShowsTrueBooksIff(turns[..n], views, changes);
      if AllShow(turns[..n], views) {
        AdvanceShowsIff(AdvanceAll(NewFeed, turns[..n]), turns[n], views, changes);
      }
    }
  }

  lemma {:induction false} ShowsSplits(turns: seq<Turn>, views: seq<LevelView>)
    ensures AllShow(turns, views)
            <==> Shows(AdvanceAll(NewFeed, turns), views) && (turns != [] ==> AllShow(turns[..|turns| - 1], views))
  {
    hide Shows, AdvanceAll;
    assert turns[..|turns|] == turns;
    if turns != [] {
      var before := turns[..|turns| - 1];
      forall k | 0 <= k < |turns|
        ensures Shows(AdvanceAll(NewFeed, before[..k]), views) <==> Shows(AdvanceAll(NewFeed, turns[..k]), views)
      {
        assert before[..k] == turns[..k];
      }
    }
  }

  lemma {:induction false} CleanSplits(turns: seq<Turn>, views: seq<LevelView>, changes: seq<Level2Change>)
    ensures turns == [] ==> AllClean(turns, views, changes)
    ensures turns != [] ==>
      var n := |turns| - 1;
      AllClean(turns, views, changes)
      <==> AllClean(turns[..n], views, changes) && CleanTurn(AdvanceAll(NewFeed, turns[..n]), turns[n], views, changes)
  {
    hide CleanTurn, AdvanceAll;
    if turns != [] {
      var n := |turns| - 1;
      assert forall k :: 0 <= k < n ==> turns[..n][..k] == turns[..k] && turns[..n][k] == turns[k];
    }
  }

  lemma NewFeedTracks(views: seq<LevelView>, changes: seq<Level2Change>)
    requires IsHistory(views, changes)
    ensures Tracks(NewFeed, views, changes) && Shows(NewFeed, views)
  {
  }

  /** Guarded requests are enough. */
  lemma {:induction false} GuardedIsClean(turns: seq<Turn>, views: seq<LevelView>, changes: seq<Level2Change>)
    requires IsHistory(views, changes) && Feeds(turns, views, changes)
    ensures AllGenuine(turns, views, changes) && AllClean(turns, views, changes)
  {
    hide IsHistory, Genuine, Guarded, AdvanceAll, AllClean;
    forall k | 0 <= k <= |turns|
      ensures Shows(AdvanceAll(NewFeed, turns[..k]), views)
    {
      assert forall i :: 0 <= i < k ==> turns[..k][..i] == turns[..i];
      ClientNeverShowsAMixture(turns[..k], views, changes);
    }
    ClientShowsTrueBooksIff(turns, views, changes);
  }

  // ---- a client catches up ----

  /** A change beyond the next one shows that others were lost: nothing is sent, what waits is
      dropped, a snapshot is due, and one is asked for unless more messages wait. */
  lemma LossCallsForASnapshot(s: State, t: Turn)
    requires !s.resendSnapshot && t.change.sequence > s.lastSeq + 1
    ensures var h := Handle(s, t.change, t.snap, t.more);
            && h.messages == [] && (h.request <==> !t.more)
            && h.state.resendSnapshot && h.state.changes == [] && h.state.lastSeq == t.change.sequence
  {
  }

  /** The turn finds a snapshot that is not older than what the client must reach. */
  predicate Answers(t: Turn, lastSeq: nat) {
    t.snap.Some? && t.snap.value.sequence >= lastSeq
  }

  /** A snapshot that is due or requested is sent by the turn that finds one. */
  lemma AnswerIsShown(f: Feed, t: Turn)
    requires (f.state.resendSnapshot || t.change.sequence == 0) && Answers(t, f.state.lastSeq)
    ensures var f' := Advance(f, t);
            && f'.view == Some(t.snap.value.view) && f'.shown == Some(t.snap.value.sequence)
            && f'.state == State(false, f.state.changes, t.snap.value.sequence)
            && !Handle(f.state, t.change, t.snap, t.more).request
  {
  }

  /** A change already seen is dropped, and a request that finds no such snapshot does nothing. */
  lemma StaleIsDropped(f: Feed, t: Turn)
    requires if f.state.resendSnapshot || t.change.sequence == 0 then !Answers(t, f.state.lastSeq)
             else t.change.sequence <= f.state.lastSeq
    ensures Advance(f, t) == f && !Handle(f.state, t.change, t.snap, t.more).request
  {
  }

  lemma {:induction false} WaitsUnchanged(f: Feed, turns: seq<Turn>)
    requires f.state.resendSnapshot && forall k :: 0 <= k < |turns| ==> !Answers(turns[k], f.state.lastSeq)
    ensures AdvanceAll(f, turns) == f
    decreases |turns|
  {
    if turns != [] {
      WaitsUnchanged(f, turns[..|turns| - 1]);
    }
  }

  /** After any loss the client is due a snapshot, stays so however many turns go by that find none,
      and shows the first one found that is not older than the change that revealed the loss. */
  lemma {:induction false} LossIsMadeGood(f: Feed, lost: Turn, turns: seq<Turn>, t: Turn)
    requires !f.state.resendSnapshot && lost.change.sequence > f.state.lastSeq + 1
    requires forall k :: 0 <= k < |turns| ==> !Answers(turns[k], lost.change.sequence)
    requires Answers(t, lost.change.sequence)
    ensures Advance(f, lost).state.resendSnapshot
    ensures var f' := Advance(AdvanceAll(Advance(f, lost), turns), t);
            && f'.view == Some(t.snap.value.view) && f'.shown == Some(t.snap.value.sequence)
            && f'.state == State(false, [], t.snap.value.sequence)
  {
    LossCallsForASnapshot(f.state, lost);
    WaitsUnchanged(Advance(f, lost), turns);
    AnswerIsShown(Advance(f, lost), t);
  }

  /** The next change is shown with all that waits once nothing more does, or ten have come; until
      then it waits. */
  lemma NextIsShown(f: Feed, t: Turn)
    requires !f.state.resendSnapshot && f.view.Some? && t.change.sequence == f.state.lastSeq + 1
    ensures var f', waiting := Advance(f, t), f.state.changes + [t.change];
            if !t.more || |waiting| >= 10 then
              && f'.shown == Some(t.change.sequence) && f'.state == State(false, [], t.change.sequence)
              && f'.view == Some(ApplyChanges(f.view.value, waiting))
            else f'.shown == f.shown && f'.view == f.view && f'.state == State(false, waiting, t.change.sequence)
  {
  }

  // ---- requests that are not guarded ----

  const EXAMPLE_CHANGES: seq<Level2Change> :=
    [Level2Change(1, Buy, 10, 5), Level2Change(2, Buy, 10, 7), Level2Change(3, Sell, 20, 1)]

  const EXAMPLE_VIEWS: seq<LevelView> :=
    [LevelView(map[], map[]), LevelView(map[10 := 5], map[]), LevelView(map[10 := 7], map[]),
     LevelView(map[10 := 7], map[20 := 1])]

  /** A subscription, a change that waits for more, a request, and one more change. */
  const EXAMPLE_TURNS: seq<Turn> :=
    [Turn(Level2Change(0, Buy, 0, 0), Some(ViewSnapshot(0, EXAMPLE_VIEWS[0])), true),
     Turn(EXAMPLE_CHANGES[0], None, true),
     Turn(Level2Change(0, Buy, 0, 0), Some(ViewSnapshot(2, EXAMPLE_VIEWS[2])), true),
     Turn(EXAMPLE_CHANGES[2], None, false)]

  lemma ExampleIsHistory()
    ensures IsHistory(EXAMPLE_VIEWS, EXAMPLE_CHANGES)
    ensures forall i :: 0 <= i < 4 ==> Genuine(EXAMPLE_TURNS[i], EXAMPLE_VIEWS, EXAMPLE_CHANGES)
  {
    assert map[10 := 5] == map[][10 := 5];
    assert map[10 := 7] == map[10 := 5][10 := 7];
    assert map[20 := 1] == map[][20 := 1];
  }

  /** The bid at 10 grows to 5 and then to 7. The request finds the 5 waiting; the client is sent
      the snapshot with the 7, then the waiting 5 with the next change, and shows a book that
      never was. */
  lemma {:induction false} RequestOverWaitingChangeMixes()
    ensures var f := Advance(Advance(NewFeed, EXAMPLE_TURNS[0]), EXAMPLE_TURNS[1]);
            var f := Advance(Advance(f, EXAMPLE_TURNS[2]), EXAMPLE_TURNS[3]);
            f.shown == Some(3) && f.view.Some? && f.view.value !in EXAMPLE_VIEWS
    ensures IsHistory(EXAMPLE_VIEWS, EXAMPLE_CHANGES)
    ensures forall i :: 0 <= i < |EXAMPLE_TURNS| ==> Genuine(EXAMPLE_TURNS[i], EXAMPLE_VIEWS, EXAMPLE_CHANGES)
  {
    ExampleIsHistory();
    var c1, c3 := EXAMPLE_CHANGES[0], EXAMPLE_CHANGES[2];
    var f1 := Advance(NewFeed, EXAMPLE_TURNS[0]);
    assert f1 == Feed(State(false, [], 0), Some(EXAMPLE_VIEWS[0]), Some(0));
    var f2 := Advance(f1, EXAMPLE_TURNS[1]);
    assert f2 == Feed(State(false, [c1], 1), Some(EXAMPLE_VIEWS[0]), Some(0));
    var f3 := Advance(f2, EXAMPLE_TURNS[2]);
    assert f3 == Feed(State(false, [c1], 2), Some(EXAMPLE_VIEWS[2]), Some(2));
    var f4 := Advance(f3, EXAMPLE_TURNS[3]);
    assert f4 == Feed(State(false, [], 3), Some(ApplyChanges(EXAMPLE_VIEWS[2], [c1] + [c3])), Some(3));
    var waiting := [c1] + [c3];
    assert waiting[..1] == [c1] && [c1][..0] == [];
    assert ApplyChanges(EXAMPLE_VIEWS[2], waiting) == ApplyChange(ApplyChange(EXAMPLE_VIEWS[2], c1), c3);
    assert f4.view.value.bids[10] == 5 && f4.view.value.asks[20] == 1;
    assert EXAMPLE_VIEWS[3].bids[10] == 7 && 20 !in EXAMPLE_VIEWS[2].asks;
    assert 20 !in EXAMPLE_VIEWS[1].asks && 20 !in EXAMPLE_VIEWS[0].asks;
  }

  // ---- the writer's loop ----

  class Level2ChangeWriter {
    var states: map<nat, State>

    constructor ()
      ensures states == map[]
    {
      states := map[];
    }

    ghost function StateOf(productId: nat): State
      reads this
    {
      if productId in states then states[productId] else NewState
    }

    /** One turn of the select loop for a change of `productId`. */
    method OnChange(productId: nat, c: Level2Change, snap: Option<ViewSnapshot>, waiting: nat)
      returns (messages: seq<Message>, request: bool)
      modifies this
      ensures Handled(StateOf(productId), messages, request) == Handle(old(StateOf(productId)), c, snap, waiting > 0)
      ensures forall other :: other != productId ==> StateOf(other) == old(StateOf(other))
    {
      messages, request := [], false;
      var state := if productId in states then states[productId] else NewState;
      states := states[productId := state];

      if state.resendSnapshot || c.sequence == 0 {
        if snap.None? {
          return;
        }
        // the published snapshot is too old: wait for a newer one
        if state.lastSeq > snap.value.sequence {
          return;
        }
        states := states[productId := state.(lastSeq := snap.value.sequence, resendSnapshot := false)];
        messages := [SnapshotMessage(snap.value.view)];
        return;
      }
      if c.sequence <= state.lastSeq {
        return;
      }
      // a change was lost: ask for a snapshot
      if c.sequence != state.lastSeq + 1 {
        states := states[productId := State(true, [], c.sequence)];
        request := waiting == 0;
        return;
      }
      var changes := state.changes + [c];
      state := state.(lastSeq := c.sequence, changes := changes);
      states := states[productId := state];
      if waiting > 0 && |changes| < UPDATE_BATCH {
        return;
      }
      messages := [UpdateMessage(changes)];
      states := states[productId := state.(changes := [])];
    }
  }
}
