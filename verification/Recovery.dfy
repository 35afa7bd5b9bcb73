/** What the engine's protocol keeps over whole runs with crashes, and what a reader of the stored
    log is delivered (matching/engine.go). */
module Recoveries {
  import opened Exchange
  import opened Matcher
  import opened Invariants
  import opened Snapshots
  import opened Runs
  import opened LogReader
  import opened Engines

  /** At every moment of every run, whatever its crashes: the book is the crash-free book after the
      orders taken so far; buffer, channel and unwritten logs are the crash-free log from the first
      one not flushed; a buffered log always has another coming; and every snapshot on its way is a
      true one, oldest first. */
  lemma {:induction false} PlayIsRunning(p: Product, orders: seq<Order>, events: seq<Event>)
    requires AllWellFormed(orders)
    ensures Running(p, orders, Play(p, orders, events))
    decreases |events|
  {
    hide Running, Next, Run;
    if events == [] {
      NothingListed(p, orders);
      StartIsRunning(p, orders, [], None, 0);
    } else {
      var n := |events| - 1;
      PlayIsRunning(p, orders, events[..n]);
      NextKeepsRunning(p, orders, Play(p, orders, events[..n]), events[n]);
    }
  }

  lemma NothingListed(p: Product, orders: seq<Order>)
    requires AllWellFormed(orders)
    ensures AllGenuine(p, orders, Listed(None), 0)
  {
  }

  /** Over a run whose crashes leave the stored log reaching the persisted snapshot, the stored log
      moreover has no gap and is continued by the buffer. */
  lemma {:induction false} PlayIsSane(p: Product, orders: seq<Order>, events: seq<Event>)
    requires AllWellFormed(orders) && CrashesCovered(p, orders, events)
    ensures Sane(p, orders, Play(p, orders, events))
    decreases |events|
  {
    if events == [] {
      PlayIsRunning(p, orders, []);
    } else {
      var n := |events| - 1;
      CoveredBefore(p, orders, events);
      PlayIsSane(p, orders, events[..n]);
      assert events[n].Crash? ==> Covered(Play(p, orders, events[..n]));
      NextKeepsSane(p, orders, Play(p, orders, events[..n]), events[n]);
    }
  }

  lemma {:induction false} CoveredBefore(p: Product, orders: seq<Order>, events: seq<Event>)
    requires CrashesCovered(p, orders, events) && events != []
    ensures CrashesCovered(p, orders, events[..|events| - 1])
  {
    var n := |events| - 1;
    forall i | 0 <= i < n && events[..n][i].Crash?
      ensures Covered(Play(p, orders, events[..n][..i]))
    {
      assert events[..n][..i] == events[..i] && events[i].Crash?;
    }
  }

  /** Whatever crashes the run goes through at such points, a reader of the stored log is delivered
      a prefix of the crash-free log, each log once, and never meets a gap; nothing the committer
      has flushed is missing, and once the engine has run dry the reader has the whole log. */
  lemma {:induction false} RecoveryIsExact(p: Product, orders: seq<Order>, events: seq<Event>)
    requires AllWellFormed(orders) && CrashesCovered(p, orders, events)
    ensures var full := Run(p, orders).logs;
            var e := Play(p, orders, events);
            var r := ReadAll(0, e.stored);
            && !r.fatal && r.lastSeq <= |full| && r.delivered == full[..r.lastSeq]
            && e.committer.Flushed() <= r.lastSeq
            && (e.Applied() == |orders| && e.logCh == [] && e.emitting == [] ==> r.delivered == full)
  {
    hide At, Continuous, Snapped, Piped, Play, Feeding;
    var full := Run(p, orders).logs;
    var e := Play(p, orders, events);
    PlayIsSane(p, orders, events);
    ReaderDeliversOnce(0, e.stored, full);
    assert full[0..MaxSeq(0, e.stored)] == full[..MaxSeq(0, e.stored)];
    if e.Applied() == |orders| && e.logCh == [] && e.emitting == [] {
      RunDry(p, orders, e);
      assert full[..|full|] == full;
    }
  }

  lemma {:induction false} RunDry(p: Product, orders: seq<Order>, e: Engine)
    requires AllWellFormed(orders) && Flowing(p, orders, e)
    requires e.Applied() == |orders| && e.logCh == [] && e.emitting == []
    ensures e.committer.Flushed() == |Run(p, orders).logs|
  {
    hide RunFrom, Invariant;
    LogUpTo(p, orders, |orders|);
    AtSplits(p, orders, |orders|, |orders|);
    assert orders[..|orders|] == orders;
    assert |e.committer.logs + e.logCh + e.emitting| == 0;
  }

  /** Whatever the crashes, the committer approves snapshots oldest first, none before it has seen
      the snapshot's last log. */
  lemma {:induction false} ApprovedInOrder(p: Product, orders: seq<Order>, events: seq<Event>, i: nat, j: nat)
    requires AllWellFormed(orders) && i < j < |Play(p, orders, events).approved|
    ensures var e := Play(p, orders, events);
            && e.approved[i].orderOffset <= e.approved[j].orderOffset
            && e.approved[i].book.logSeq <= e.approved[j].book.logSeq <= e.committer.lastSeq
  {
    hide Play, Feeding, Piped, SnapshotOf;
    var e := Play(p, orders, events);
    PlayIsRunning(p, orders, events);
    var chain := Chain(e.approved, e.committer, e.approveCh);
    assert chain[i] == e.approved[i] && chain[j] == e.approved[j];
    assert Genuine(p, orders, chain[i], e.Applied()) && Genuine(p, orders, chain[j], e.Applied());
    SnapshotCounts(chain[i].book, At(p, orders, chain[i].orderOffset + 1).book);
    SnapshotCounts(chain[j].book, At(p, orders, chain[j].orderOffset + 1).book);
    AtSplits(p, orders, chain[i].orderOffset + 1, chain[j].orderOffset + 1);
    AtSplits(p, orders, chain[j].orderOffset + 1, chain[j].orderOffset + 1);
  }

  // ---- when a crash is harmless ----

  /** Exactly when a crash does harm. The engine restarts from a snapshot at log k and goes on to
      store the logs from there to j. If the stored log had reached k the reader goes on without a
      hitch; if it had fallen short the logs in between are lost for good, and the reader stops at
      the gap unless it had nothing at all, in which case it silently misses the first k logs. */
  lemma {:induction false} CrashHarmsIff(stored: seq<Log>, full: seq<Log>, k: nat, j: nat)
    requires Numbered(full, 0) && Continuous(stored, full, 0) && k < j <= |full|
    ensures var r := ReadAll(0, stored + full[k..j]);
            && (!r.fatal && r.lastSeq <= |full| && r.delivered == full[..r.lastSeq] <==> k <= MaxSeq(0, stored))
            && (r.fatal <==> 0 < MaxSeq(0, stored) < k)
            && (MaxSeq(0, stored) == 0 < k ==> r.delivered == full[k..j])
  {
    hide Continuous, MaxSeq, ReadAll, Numbered, Judge;
    var m := MaxSeq(0, stored);
    ReaderDeliversOnce(0, stored, full);
    if k <= m {
      AppendStretch(0, stored, full, k, j);
      ReaderDeliversOnce(0, stored + full[k..j], full);
      var r := ReadAll(0, stored + full[k..j]);
      assert full[0..r.lastSeq] == full[..r.lastSeq];
    } else {
      ReadSplits(0, stored, full[k..j]);
      ReadPastGap(full, m, k, j);
      assert full[0..m] == full[..m];
      if m == 0 {
        assert [] + full[k..j] == full[k..j];
        StretchStarts(full, k, j);
      }
    }
  }

  lemma StretchStarts(full: seq<Log>, k: nat, j: nat)
    requires Numbered(full, 0) && k < j <= |full|
    ensures full[k..j][0].sequence == k + 1 && full[..j][0].sequence == 1
  {
  }

  lemma {:induction false} ReadPastGap(full: seq<Log>, m: nat, k: nat, j: nat)
    requires Numbered(full, 0) && m < k < j <= |full|
    ensures ReadAll(m, full[k..j]) == if m == 0 then Read(full[k..j], j, false) else Read([], m, true)
    decreases j
  {
    assert full[k..j][..j - k - 1] == full[k..j - 1];
    if k < j - 1 {
      ReadPastGap(full, m, k, j - 1);
      assert full[k..j] == full[k..j - 1] + [full[j - 1]];
    } else {
      assert full[k..j - 1] == [] && full[k..j] == [full[k]];
    }
  }

  /** The events from one crash to the next. */
  lemma {:induction false} LifeStoresOn(p: Product, orders: seq<Order>, before: seq<Event>, after: seq<Event>)
    requires AllWellFormed(orders) && Crash !in after
    ensures StoresOn(Run(p, orders).logs, Play(p, orders, before), Play(p, orders, before + after))
    decreases |after|
  {
    hide Running, Next, Run;
    var full := Run(p, orders).logs;
    var e := Play(p, orders, before);
    PlayIsRunning(p, orders, before);
    if after == [] {
      assert before + after == before;
      RunningIsInside(p, orders, e);
      assert e.stored + full[e.committer.Flushed()..e.committer.Flushed()] == e.stored;
    } else {
      var n := |after| - 1;
      LifeStoresOn(p, orders, before, after[..n]);
      assert (before + after)[..|before + after| - 1] == before + after[..n];
      var mid, e' := Play(p, orders, before + after[..n]), Play(p, orders, before + after);
      PlayIsRunning(p, orders, before + after[..n]);
      NextStoresOn(p, orders, mid, after[n]);
      StoredJoin(full, e, mid, e');
    }
  }

  lemma {:induction false} RunningIsInside(p: Product, orders: seq<Order>, e: Engine)
    requires AllWellFormed(orders) && Running(p, orders, e)
    ensures 0 <= e.committer.Flushed() <= |Run(p, orders).logs|
  {
    LogUpTo(p, orders, |orders|);
  }

  lemma StoredJoin(full: seq<Log>, e: Engine, mid: Engine, e': Engine)
    requires StoresOn(full, e, mid) && StoresOn(full, mid, e')
    ensures StoresOn(full, e, e')
  {
    var i, k, j := e.committer.Flushed(), mid.committer.Flushed(), e'.committer.Flushed();
    assert full[i..k] + full[k..j] == full[i..j];
    assert (e.stored + full[i..k]) + full[k..j] == e.stored + (full[i..k] + full[k..j]);
  }

  /** The verdict of a reader over a run with one more crash, once the new life has flushed a log: it
      goes on without a hitch iff the crash came when the stored log reached the persisted snapshot;
      it stops iff the stored log had fallen short but was not empty. */
  lemma {:induction false} CrashVerdictIff(p: Product, orders: seq<Order>, before: seq<Event>, after: seq<Event>)
    requires AllWellFormed(orders) && CrashesCovered(p, orders, before) && Crash !in after
    requires Play(p, orders, before + [Crash] + after).committer.Flushed() > ResumeSeq(Play(p, orders, before).persisted)
    ensures var full := Run(p, orders).logs;
            var e := Play(p, orders, before);
            var r := ReadAll(0, Play(p, orders, before + [Crash] + after).stored);
            && (!r.fatal && r.lastSeq <= |full| && r.delivered == full[..r.lastSeq] <==> Covered(e))
            && (r.fatal <==> 0 < MaxSeq(0, e.stored) < ResumeSeq(e.persisted))
  {
    hide Feeding, Piped, Buffered, At, Snapped, Next, Continuous, MaxSeq, Run, ReadAll;
    var full := Run(p, orders).logs;
    var e, start, e' := Play(p, orders, before), Play(p, orders, before + [Crash]), Play(p, orders, before + [Crash] + after);
    assert (before + [Crash])[..|before|] == before;
    CrashRestarts(p, orders, e);
    PlayIsSane(p, orders, before);
    SaneLog(p, orders, e);
    PersistedIsGenuine(p, orders, e);
    StartIsRunning(p, orders, e.stored, e.persisted, e.Applied());
    LifeStoresOn(p, orders, before + [Crash], after);
    CrashHarmsIff(e.stored, full, ResumeSeq(e.persisted), e'.committer.Flushed());
  }

  lemma {:induction false} SaneLog(p: Product, orders: seq<Order>, e: Engine)
    requires AllWellFormed(orders) && Sane(p, orders, e)
    ensures Continuous(e.stored, Run(p, orders).logs, 0) && Numbered(Run(p, orders).logs, 0)
  {
    LogUpTo(p, orders, |orders|);
  }

  /** A pending snapshot is approved only once all its logs are flushed, and over such runs a reader
      of the store is by then delivered all of them. */
  lemma {:induction false} PendingIsStored(p: Product, orders: seq<Order>, events: seq<Event>)
    requires AllWellFormed(orders)
    ensures var e := Play(p, orders, events);
            var e' := Play(p, orders, events + [CommitLog]);
            e'.approved != e.approved ==>
              && e'.approved == e.approved + Listed(e.committer.pending)
              && e.committer.pending.value.book.logSeq <= e'.committer.Flushed()
              && (CrashesCovered(p, orders, events) ==>
                    var r := ReadAll(0, e'.stored);
                    && e.committer.pending.value.book.logSeq <= r.lastSeq <= |Run(p, orders).logs|
                    && r.delivered == Run(p, orders).logs[..r.lastSeq])
  {
    hide Play, At, Snapped, Piped, Buffered, Run, ReadAll;
    var e := Play(p, orders, events);
    PlayIsRunning(p, orders, events);
    LogUpTo(p, orders, |orders|);
    OneCommit(p, orders, events);
    if e.logCh != [] {
      CommitKeeps(Run(p, orders).logs, e.committer, e.logCh, e.emitting, e.book.logSeq);
    }
    if CrashesCovered(p, orders, events) {
      RecoveryIsExact(p, orders, events + [CommitLog]);
    }
  }

  lemma {:induction false} OneCommit(p: Product, orders: seq<Order>, events: seq<Event>)
    ensures Play(p, orders, events + [CommitLog]) == Next(p, orders, Play(p, orders, events), CommitLog)
    ensures CrashesCovered(p, orders, events) ==> CrashesCovered(p, orders, events + [CommitLog])
  {
    hide Next, Covered;
    var more := events + [CommitLog];
    assert more[..|events|] == events;
    if CrashesCovered(p, orders, events) {
      forall i | 0 <= i < |more| && more[i].Crash?
        ensures Covered(Play(p, orders, more[..i]))
      {
        assert more[..i] == events[..i] && events[i].Crash?;
      }
    }
  }

  /** The immediate approval of this state, if it is one, has all its logs stored: it reaches no
      further than the last flushed log. */
  predicate ApprovalIsStored(e: Engine) {
    e.approveCh != [] && e.approveCh[0].book.logSeq <= e.committer.lastSeq ==>
      e.approveCh[0].book.logSeq <= e.committer.Flushed()
  }

  ghost predicate ApprovalsStored(p: Product, orders: seq<Order>, events: seq<Event>) {
    forall i :: 0 <= i < |events| && events[i].CommitApproval? ==> ApprovalIsStored(Play(p, orders, events[..i]))
  }

  /** Every approved snapshot, persisted or about to be, is within the stored log. */
  predicate AllCovered(stored: seq<Log>, snapshotCh: seq<EngineSnapshot>, persisted: Option<EngineSnapshot>) {
    && (forall i :: 0 <= i < |snapshotCh| ==> snapshotCh[i].book.logSeq <= MaxSeq(0, stored))
    && (persisted.Some? ==> persisted.value.book.logSeq <= MaxSeq(0, stored))
  }

  lemma StoringKeepsCovered(stored: seq<Log>, more: seq<Log>, snapshotCh: seq<EngineSnapshot>,
                            persisted: Option<EngineSnapshot>)
    requires AllCovered(stored, snapshotCh, persisted)
    ensures AllCovered(stored + more, snapshotCh, persisted)
  {
    MaxAppend(0, stored, more);
  }

  lemma {:induction false} NextKeepsCovered(p: Product, orders: seq<Order>, e: Engine, event: Event)
    requires AllWellFormed(orders) && Sane(p, orders, e) && AllCovered(e.stored, e.snapshotCh, e.persisted)
    requires event.CommitApproval? ==> ApprovalIsStored(e)
    ensures var e' := Next(p, orders, e, event); AllCovered(e'.stored, e'.snapshotCh, e'.persisted)
  {
    hide Flowing, Snapped, Sound, Step, Continuous, SnapshotOf, Restored, OnLog, OnApproveRequest, MaxSeq;
    if event.CommitLog? {
      CommitKeepsCovered(p, orders, e);
    } else if event.CommitApproval? {
      ApproveKeepsCovered(e);
    }
  }

  lemma {:induction false} CommitKeepsCovered(p: Product, orders: seq<Order>, e: Engine)
    requires AllWellFormed(orders) && Sane(p, orders, e) && AllCovered(e.stored, e.snapshotCh, e.persisted)
    ensures e.logCh != [] ==>
              var e' := AfterTurn(e.(logCh := e.logCh[1..]), OnLog(e.committer, e.logCh[0], |e.logCh| - 1));
              AllCovered(e'.stored, e'.snapshotCh, e'.persisted)
  {
    hide Feeding, At, Snapped, Continuous, MaxSeq, Run;
    if e.logCh != [] {
      var t := OnLog(e.committer, e.logCh[0], |e.logCh| - 1);
      StoringKeepsCovered(e.stored, t.stored, e.snapshotCh, e.persisted);
      LogUpTo(p, orders, |orders|);
      CommitKeeps(Run(p, orders).logs, e.committer, e.logCh, e.emitting, e.book.logSeq);
      StoringOnKeeps(Run(p, orders).logs, e, AfterTurn(e.(logCh := e.logCh[1..]), t));
    }
  }

  lemma ApproveKeepsCovered(e: Engine)
    requires AllCovered(e.stored, e.snapshotCh, e.persisted) && ApprovalIsStored(e)
    requires e.committer.Flushed() <= MaxSeq(0, e.stored)
    ensures e.approveCh != [] ==>
              var e' := AfterTurn(e.(approveCh := e.approveCh[1..]), OnApproveRequest(e.committer, e.approveCh[0]));
              AllCovered(e'.stored, e'.snapshotCh, e'.persisted)
  {
    hide MaxSeq;
    assert e.stored + [] == e.stored;
  }

  /** Were an immediate approval to wait until the buffer is stored, every crash would be
      harmless: the guard `seq - len(logs) >= LogSeq` in place of `seq >= LogSeq` is enough. */
  lemma {:induction false} StoredApprovalsMakeCrashesHarmless(p: Product, orders: seq<Order>, events: seq<Event>)
    requires AllWellFormed(orders) && ApprovalsStored(p, orders, events)
    ensures CrashesCovered(p, orders, events)
    ensures var e := Play(p, orders, events); AllCovered(e.stored, e.snapshotCh, e.persisted)
    decreases |events|
  {
    hide Next, Sane, AllCovered, ApprovalIsStored, MaxSeq;
    if events == [] {
      NothingToCover(p, orders);
    } else {
      var n := |events| - 1;
      var e := Play(p, orders, events[..n]);
      ApprovalsBefore(p, orders, events);
      StoredApprovalsMakeCrashesHarmless(p, orders, events[..n]);
      PlayIsSane(p, orders, events[..n]);
      NextKeepsCovered(p, orders, e, events[n]);
      PersistedIsCovered(e);
      forall i | 0 <= i < |events| && events[i].Crash?
        ensures Covered(Play(p, orders, events[..i]))
      {
        if i < n {
          assert events[..n][i].Crash? && events[..n][..i] == events[..i];
        }
      }
    }
  }

  lemma {:induction false} ApprovalsBefore(p: Product, orders: seq<Order>, events: seq<Event>)
    requires ApprovalsStored(p, orders, events) && events != []
    ensures ApprovalsStored(p, orders, events[..|events| - 1])
    ensures events[|events| - 1].CommitApproval? ==> ApprovalIsStored(Play(p, orders, events[..|events| - 1]))
  {
    hide Play;
    var n := |events| - 1;
    forall i | 0 <= i < n && events[..n][i].CommitApproval?
      ensures ApprovalIsStored(Play(p, orders, events[..n][..i]))
    {
      assert events[..n][..i] == events[..i] && events[i].CommitApproval?;
    }
  }

  lemma PersistedIsCovered(e: Engine)
    requires AllCovered(e.stored, e.snapshotCh, e.persisted)
    ensures Covered(e)
  {
  }

  lemma NothingToCover(p: Product, orders: seq<Order>)
    ensures var e := Play(p, orders, []); AllCovered(e.stored, e.snapshotCh, e.persisted)
  {
  }

  // ---- approvals come ----

  ghost predicate PendingAhead(c: Committer) {
    c.pending.Some? ==> c.Flushed() < c.pending.value.book.logSeq
  }

  lemma {:induction false} TurnKeepsAhead(c: Committer, log: Log, waiting: nat)
    requires PendingAhead(c) && log.sequence == c.lastSeq + 1
    ensures PendingAhead(OnLog(c, log, waiting).committer)
    ensures var t := OnLog(c, log, waiting);
            c.pending.Some? && t.committer.Flushed() >= c.pending.value.book.logSeq ==>
              t.approved == c.pending && t.committer.pending == None
  {
  }

  lemma ApprovalKeepsAhead(c: Committer, s: EngineSnapshot)
    ensures PendingAhead(OnApproveRequest(c, s).committer)
  {
  }

  /** A pending snapshot always waits for a log not flushed yet. */
  lemma {:induction false} PendingWaits(p: Product, orders: seq<Order>, events: seq<Event>)
    requires AllWellFormed(orders)
    ensures PendingAhead(Play(p, orders, events).committer)
    decreases |events|
  {
    hide Running, PendingAhead, OnLog, OnApproveRequest, Step, Sound, Restored, SnapshotOf;
    if events == [] {
      NothingPends(Start([], None).committer);
    } else {
      var n := |events| - 1;
      var e := Play(p, orders, events[..n]);
      PendingWaits(p, orders, events[..n]);
      NothingPends(Start(e.stored, e.persisted).committer);
      if events[n].CommitLog? && e.logCh != [] {
        NextLogInLine(p, orders, events[..n]);
        TurnKeepsAhead(e.committer, e.logCh[0], |e.logCh| - 1);
      } else if events[n].CommitApproval? && e.approveCh != [] {
        ApprovalKeepsAhead(e.committer, e.approveCh[0]);
      }
    }
  }

  lemma NothingPends(c: Committer)
    requires c.pending == None
    ensures PendingAhead(c)
  {
  }

  lemma {:induction false} NextLogInLine(p: Product, orders: seq<Order>, events: seq<Event>)
    requires AllWellFormed(orders) && Play(p, orders, events).logCh != []
    ensures var e := Play(p, orders, events); e.logCh[0].sequence == e.committer.lastSeq + 1
  {
    hide Play, At, Snapped, Piped, Buffered, Run;
    var e := Play(p, orders, events);
    PlayIsRunning(p, orders, events);
    LogUpTo(p, orders, |orders|);
    NextInLine(Run(p, orders).logs, e.committer, e.logCh, e.emitting, e.book.logSeq);
  }

  /** And the turn that flushes its last log approves it. */
  lemma {:induction false} FlushedIsApproved(p: Product, orders: seq<Order>, events: seq<Event>)
    requires AllWellFormed(orders) && Play(p, orders, events).committer.pending.Some?
    requires Play(p, orders, events + [CommitLog]).committer.Flushed()
             >= Play(p, orders, events).committer.pending.value.book.logSeq
    ensures var e := Play(p, orders, events);
            var e' := Play(p, orders, events + [CommitLog]);
            && e'.approved == e.approved + [e.committer.pending.value]
            && e'.snapshotCh == e.snapshotCh + [e.committer.pending.value] && e'.committer.pending == None
  {
    hide Play, OnLog, PendingAhead, Step, Sound;
    var e := Play(p, orders, events);
    OneCommit(p, orders, events);
    PendingWaits(p, orders, events);
    AheadMeans(e.committer);
    if e.logCh != [] {
      NextLogInLine(p, orders, events);
      TurnKeepsAhead(e.committer, e.logCh[0], |e.logCh| - 1);
    }
  }

  lemma AheadMeans(c: Committer)
    requires PendingAhead(c)
    ensures c.pending.Some? ==> c.Flushed() < c.pending.value.book.logSeq
  {
  }

  /** So no approval is left pending once the committer has seen every log written; and it never
      holds back a hundred logs. */
  lemma {:induction false} NothingPendingWhenDry(p: Product, orders: seq<Order>, events: seq<Event>)
    requires AllWellFormed(orders)
    ensures var e := Play(p, orders, events);
            && (e.logCh == [] && e.emitting == [] ==> e.committer.logs == [] && e.committer.pending == None)
            && |e.committer.logs| < 100
  {
    hide Play, SnapshotOf, Run, At;
    var e := Play(p, orders, events);
    PlayIsRunning(p, orders, events);
    PendingWaits(p, orders, events);
    if e.logCh == [] && e.emitting == [] && e.committer.pending.Some? {
      PendingIsWithin(p, orders, e);
    }
  }

  lemma {:induction false} PendingIsWithin(p: Product, orders: seq<Order>, e: Engine)
    requires AllWellFormed(orders) && Running(p, orders, e) && e.committer.pending.Some?
    ensures e.committer.pending.value.book.logSeq <= e.book.logSeq
  {
    hide SnapshotOf, Piped, Buffered;
    var s := e.committer.pending.value;
    var chain := Chain(e.approved, e.committer, e.approveCh);
    assert chain[|e.approved|] == s;
    assert Genuine(p, orders, chain[|e.approved|], e.Applied());
    SnapshotCounts(s.book, At(p, orders, s.orderOffset + 1).book);
    AtSplits(p, orders, s.orderOffset + 1, e.Applied());
    AtSplits(p, orders, e.Applied(), e.Applied());
  }

  /** A snapshot the committer is asked to approve is approved at once or made the pending one. */
  lemma {:induction false} RequestIsTaken(p: Product, orders: seq<Order>, events: seq<Event>)
    requires Play(p, orders, events).approveCh != []
    ensures var e := Play(p, orders, events);
            var e' := Play(p, orders, events + [CommitApproval]);
            var s := e.approveCh[0];
            if s.book.logSeq <= e.committer.lastSeq then e'.approved == e.approved + [s] && e'.snapshotCh == e.snapshotCh + [s]
            else e'.committer.pending == Some(s) && e'.approved == e.approved
  {
    assert (events + [CommitApproval])[..|events|] == events;
  }

  // ---- snapshots are taken ----

  function PersistedOffset(persisted: Option<EngineSnapshot>): nat {
    if persisted.Some? then persisted.value.orderOffset else 0
  }

  /** A request always names the offset of the snapshot persisted when it is made. */
  lemma {:induction false} RequestsNameThePersisted(p: Product, orders: seq<Order>, events: seq<Event>)
    ensures var e := Play(p, orders, events);
            && e.lastOffset == PersistedOffset(e.persisted)
            && Play(p, orders, events + [Request]) == e.(requestCh := e.requestCh + [PersistedOffset(e.persisted)])
    decreases |events|
  {
    hide OnLog, OnApproveRequest, Step, Sound, SnapshotOf, Restored;
    assert (events + [Request])[..|events|] == events;
    if events != [] {
      RequestsNameThePersisted(p, orders, events[..|events| - 1]);
    }
  }

  /** Between two orders a request is answered: with a snapshot of the book as it is, at its offset,
      if more than a thousand orders have gone by since the offset it names, and otherwise not. */
  lemma {:induction false} SnapshotIsTakenIff(p: Product, orders: seq<Order>, events: seq<Event>, listing: Snapshot)
    requires var e := Play(p, orders, events);
             e.emitting == [] && e.requestCh != [] && SnapshotOf(listing, e.book)
    ensures var e := Play(p, orders, events);
            var e' := Play(p, orders, events + [TakeRequest(listing)]);
            && e'.requestCh == e.requestCh[1..] && e'.book == e.book
            && e'.approveCh == e.approveCh + if e.orderOffset > e.requestCh[0] + 1000
                                             then [EngineSnapshot(listing, e.orderOffset)] else []
  {
    hide Play, SnapshotOf;
    var e := Play(p, orders, events);
    assert Play(p, orders, events + [TakeRequest(listing)]) == Next(p, orders, e, TakeRequest(listing)) by {
      OneEvent(p, orders, events, TakeRequest(listing));
    }
  }

  lemma OneEvent(p: Product, orders: seq<Order>, events: seq<Event>, event: Event)
    ensures Play(p, orders, events + [event]) == Next(p, orders, Play(p, orders, events), event)
  {
    assert (events + [event])[..|events|] == events;
  }
}
