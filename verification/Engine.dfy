/** The engine's concurrent loops as steps of one protocol over its channels and its durable
    stores, and what a restart recovers (matching/engine.go). */
module Engines {
  import opened Exchange
  import opened Matcher
  import opened Invariants
  import opened Snapshots
  import opened Runs
  import opened LogReader

  const LOG_BATCH: nat := 100
  const SNAPSHOT_DELTA: nat := 1000

  datatype EngineSnapshot = EngineSnapshot(book: Snapshot, orderOffset: nat)

  datatype OffsetOrder = OffsetOrder(offset: nat, order: Order)

  // ---- the committer ----

  datatype Committer = Committer(lastSeq: nat, pending: Option<EngineSnapshot>, logs: seq<Log>) {
    /** The last log handed to the store. */
    function Flushed(): int {
      lastSeq - |logs|
    }
  }

  /** One turn of the committer: its new state, the logs it stores, the snapshot it approves. */
  datatype Turn = Turn(committer: Committer, stored: seq<Log>, approved: Option<EngineSnapshot>)

  /** A log arrives while `waiting` others are still in the channel. */
  function OnLog(c: Committer, log: Log, waiting: nat): Turn {
    if log.sequence <= c.lastSeq then Turn(c, [], None)
    else
      var logs := c.logs + [log];
      if waiting > 0 && |logs| < LOG_BATCH then Turn(Committer(log.sequence, c.pending, logs), [], None)
      else if c.pending.Some? && log.sequence >= c.pending.value.book.logSeq then
        Turn(Committer(log.sequence, None, []), logs, c.pending)
      else Turn(Committer(log.sequence, c.pending, []), logs, None)
  }

  function OnApproveRequest(c: Committer, s: EngineSnapshot): Turn {
    if c.lastSeq >= s.book.logSeq then Turn(c.(pending := None), [], Some(s))
    else Turn(c.(pending := Some(s)), [], None)
  }

  // ---- the engine ----

  datatype Engine = Engine(
    stored: seq<Log>, persisted: Option<EngineSnapshot>,
    fetched: nat, orderCh: seq<OffsetOrder>,
    book: Book, emitting: seq<Log>, orderOffset: nat,
    logCh: seq<Log>, requestCh: seq<nat>, approveCh: seq<EngineSnapshot>, snapshotCh: seq<EngineSnapshot>,
    committer: Committer, lastOffset: nat,
    approved: seq<EngineSnapshot>) // everything the committer has approved since the start
  {
    /** The orders the applier has taken, counted from the head of the topic. */
    function Applied(): int {
      fetched - |orderCh|
    }
  }

  /** A new process: the persisted snapshot restored, the committer at the book's log sequence. */
  function Start(stored: seq<Log>, persisted: Option<EngineSnapshot>): Engine {
    var book := if persisted.Some? then Restored(persisted.value.book) else EmptyBook;
    var offset := if persisted.Some? then persisted.value.orderOffset else 0;
    Engine(stored, persisted, if offset > 0 then offset + 1 else offset, [], book, [], 0, [], [], [], [],
           Committer(book.logSeq, None, []), offset, [])
  }

  /** One turn of one loop; a turn that is not enabled leaves the engine as it is. The order topic
      is the list `orders`, an order's offset its index. The stored log and the persisted snapshot
      outlive a crash, everything else is lost. */
  datatype Event =
    | Fetch | Apply | Emit
    | CommitLog | CommitApproval
    | Request | TakeRequest(listing: Snapshot) | Persist(ok: bool)
    | Crash

  function AfterTurn(e: Engine, t: Turn): Engine {
    var e' := e.(committer := t.committer, stored := e.stored + t.stored);
    if t.approved.None? then e'
    else e'.(snapshotCh := e.snapshotCh + [t.approved.value], approved := e.approved + [t.approved.value])
  }

  ghost function Applying(p: Product, e: Engine): Engine
    requires e.orderCh != [] && Sound(e.book)
  {
    var next := e.orderCh[0];
    var out := Step(p, e.book, next.order);
    e.(orderCh := e.orderCh[1..], book := out.book, emitting := out.logs, orderOffset := next.offset)
  }

  ghost function TakingRequest(e: Engine, listing: Snapshot): Engine
    requires e.requestCh != []
  {
    if e.orderOffset - e.requestCh[0] <= SNAPSHOT_DELTA then e.(requestCh := e.requestCh[1..])
    else if SnapshotOf(listing, e.book) then
      e.(requestCh := e.requestCh[1..], approveCh := e.approveCh + [EngineSnapshot(listing, e.orderOffset)])
    else e
  }

  function Persisting(e: Engine, ok: bool): Engine
    requires e.snapshotCh != []
  {
    if ok then
      e.(snapshotCh := e.snapshotCh[1..], persisted := Some(e.snapshotCh[0]), lastOffset := e.snapshotCh[0].orderOffset)
    else e.(snapshotCh := e.snapshotCh[1..])
  }

  /** The applier takes an order only after it has written all logs of the one before, and a
      snapshot request only between two orders. */
  ghost function Next(p: Product, orders: seq<Order>, e: Engine, event: Event): Engine {
    match event
    case Fetch =>
      if e.fetched >= |orders| then e
      else e.(fetched := e.fetched + 1, orderCh := e.orderCh + [OffsetOrder(e.fetched, orders[e.fetched])])
    case Apply => if e.emitting != [] || e.orderCh == [] || !Sound(e.book) then e else Applying(p, e)
    case Emit => if e.emitting == [] then e else e.(logCh := e.logCh + [e.emitting[0]], emitting := e.emitting[1..])
    case CommitLog =>
      if e.logCh == [] then e
      else AfterTurn(e.(logCh := e.logCh[1..]), OnLog(e.committer, e.logCh[0], |e.logCh| - 1))
    case CommitApproval =>
      if e.approveCh == [] then e
      else AfterTurn(e.(approveCh := e.approveCh[1..]), OnApproveRequest(e.committer, e.approveCh[0]))
    case Request => e.(requestCh := e.requestCh + [e.lastOffset])
    case TakeRequest(listing) => if e.emitting != [] || e.requestCh == [] then e else TakingRequest(e, listing)
    case Persist(ok) => if e.snapshotCh == [] then e else Persisting(e, ok)
    case Crash => Start(e.stored, e.persisted)
  }

  /** The engine after a list of events, from its very first start. */
  ghost function Play(p: Product, orders: seq<Order>, events: seq<Event>): Engine
    decreases |events|
  {
    if events == [] then Start([], None)
    else Next(p, orders, Play(p, orders, events[..|events| - 1]), events[|events| - 1])
  }

  /** The stored log reaches the persisted snapshot. */
  predicate Covered(e: Engine) {
    e.persisted.Some? ==> e.persisted.value.book.logSeq <= MaxSeq(0, e.stored)
  }

  ghost predicate CrashesCovered(p: Product, orders: seq<Order>, events: seq<Event>) {
    forall i :: 0 <= i < |events| && events[i].Crash? ==> Covered(Play(p, orders, events[..i]))
  }

  // ---- the crash-free run, order by order ----

  ghost function At(p: Product, orders: seq<Order>, n: nat): (r: Outcome)
    requires AllWellFormed(orders) && n <= |orders|
  {
    Run(p, orders[..n])
  }

  lemma {:induction false} AtSplits(p: Product, orders: seq<Order>, n: nat, m: nat)
    requires AllWellFormed(orders) && n <= m <= |orders|
    ensures At(p, orders, n).logs <= At(p, orders, m).logs
    ensures At(p, orders, n).book.logSeq == |At(p, orders, n).logs| <= At(p, orders, m).book.logSeq
    ensures Numbered(At(p, orders, n).logs, 0)
  {
    hide Invariant, RunFrom;
    EmptyBookInvariant();
    RunSplits(p, EmptyBook, orders[..n], orders[n..m]);
    assert orders[..n] + orders[n..m] == orders[..m];
    RunIsGapFree(p, EmptyBook, orders[..n]);
    RunIsGapFree(p, EmptyBook, orders[..m]);
  }

  lemma {:induction false} AtNext(p: Product, orders: seq<Order>, n: nat)
    requires AllWellFormed(orders) && n < |orders|
    ensures Invariant(At(p, orders, n).book) && Sound(At(p, orders, n).book)
    ensures var out := Step(p, At(p, orders, n).book, orders[n]);
            At(p, orders, n + 1) == Outcome(out.book, At(p, orders, n).logs + out.logs)
  {
    hide Invariant, Step, Sound;
    EmptyBookInvariant();
    assert orders[..n + 1][..n] == orders[..n];
    InvariantIsSound(At(p, orders, n).book);
  }

  /** The whole log against the log up to order n. */
  lemma {:induction false} LogUpTo(p: Product, orders: seq<Order>, n: nat)
    requires AllWellFormed(orders) && n <= |orders|
    ensures Numbered(Run(p, orders).logs, 0)
    ensures At(p, orders, n).book.logSeq <= |Run(p, orders).logs|
    ensures At(p, orders, n).logs == Run(p, orders).logs[..At(p, orders, n).book.logSeq]
  {
    AtSplits(p, orders, n, |orders|);
    AtSplits(p, orders, |orders|, |orders|);
    assert orders[..|orders|] == orders;
  }

  // ---- the invariant ----

  /** The order channel holds the fetched orders that are not applied yet. */
  ghost predicate Feeding(orders: seq<Order>, fetched: nat, orderCh: seq<OffsetOrder>) {
    && |orderCh| <= fetched <= |orders|
    && forall i :: 0 <= i < |orderCh| ==>
         orderCh[i] == OffsetOrder(fetched - |orderCh| + i, orders[fetched - |orderCh| + i])
  }

  /** The buffer, the log channel and the logs being written are, in this order, the logs of the
      crash-free run from the first one not stored to the book's last. */
  ghost predicate Piped(full: seq<Log>, c: Committer, logCh: seq<Log>, emitting: seq<Log>, logSeq: nat) {
    && 0 <= c.Flushed() <= logSeq <= |full|
    && c.logs + logCh + emitting == full[c.Flushed()..logSeq]
  }

  /** A buffered log always has another one coming. */
  predicate Buffered(c: Committer, logCh: seq<Log>) {
    c.logs != [] ==> logCh != [] && |c.logs| < LOG_BATCH
  }

  /** A snapshot frozen after some order: the book as it was, and that order's offset. */
  ghost predicate Genuine(p: Product, orders: seq<Order>, s: EngineSnapshot, applied: int)
    requires AllWellFormed(orders)
  {
    0 < s.orderOffset < applied <= |orders| && SnapshotOf(s.book, At(p, orders, s.orderOffset + 1).book)
  }

  ghost predicate AllGenuine(p: Product, orders: seq<Order>, s: seq<EngineSnapshot>, applied: int)
    requires AllWellFormed(orders)
  {
    forall i :: 0 <= i < |s| ==> Genuine(p, orders, s[i], applied)
  }

  function Listed(s: Option<EngineSnapshot>): seq<EngineSnapshot> {
    if s.None? then [] else [s.value]
  }

  ghost predicate InOrder(s: seq<EngineSnapshot>) {
    forall i, j {:trigger s[i].orderOffset, s[j].orderOffset} :: 0 <= i < j < |s| ==>
      s[i].orderOffset <= s[j].orderOffset
  }

  /** Every snapshot on its way from the applier, oldest first. */
  function Chain(approved: seq<EngineSnapshot>, c: Committer, approveCh: seq<EngineSnapshot>): seq<EngineSnapshot> {
    approved + Listed(c.pending) + approveCh
  }

  ghost predicate Snapped(p: Product, orders: seq<Order>, e: Engine)
    requires AllWellFormed(orders)
  {
    && (e.orderOffset == 0 || e.orderOffset + 1 == e.Applied())
    && AllGenuine(p, orders, Chain(e.approved, e.committer, e.approveCh), e.Applied())
    && InOrder(Chain(e.approved, e.committer, e.approveCh))
    && (forall i :: 0 <= i < |e.approved| ==> e.approved[i].book.logSeq <= e.committer.lastSeq)
    && AllGenuine(p, orders, e.snapshotCh, e.Applied())
    && AllGenuine(p, orders, Listed(e.persisted), e.Applied())
  }

  ghost predicate Flowing(p: Product, orders: seq<Order>, e: Engine)
    requires AllWellFormed(orders)
  {
    && Feeding(orders, e.fetched, e.orderCh)
    && e.book == At(p, orders, e.Applied()).book
    && Piped(Run(p, orders).logs, e.committer, e.logCh, e.emitting, e.book.logSeq)
    && Buffered(e.committer, e.logCh)
  }

  /** The stored log repeats stretches of the crash-free log without a gap, and reaches at least
      to the first buffered log. */
  ghost predicate Kept(full: seq<Log>, stored: seq<Log>, c: Committer) {
    Continuous(stored, full, 0) && c.Flushed() <= MaxSeq(0, stored)
  }

  /** What holds whatever crashes there were. */
  ghost predicate Running(p: Product, orders: seq<Order>, e: Engine)
    requires AllWellFormed(orders)
  {
    Flowing(p, orders, e) && Snapped(p, orders, e)
  }

  ghost predicate Sane(p: Product, orders: seq<Order>, e: Engine)
    requires AllWellFormed(orders)
  {
    Running(p, orders, e) && Kept(Run(p, orders).logs, e.stored, e.committer)
  }

  // ---- each event keeps it ----

  lemma FetchKeeps(orders: seq<Order>, fetched: nat, orderCh: seq<OffsetOrder>)
    requires Feeding(orders, fetched, orderCh) && fetched < |orders|
    ensures Feeding(orders, fetched + 1, orderCh + [OffsetOrder(fetched, orders[fetched])])
  {
  }

  lemma EmitKeeps(full: seq<Log>, c: Committer, logCh: seq<Log>, emitting: seq<Log>, logSeq: nat)
    requires Piped(full, c, logCh, emitting, logSeq) && emitting != [] && Buffered(c, logCh)
    ensures Piped(full, c, logCh + [emitting[0]], emitting[1..], logSeq) && Buffered(c, logCh + [emitting[0]])
  {
    assert c.logs + (logCh + [emitting[0]]) + emitting[1..] == c.logs + logCh + emitting;
  }

  lemma ApplyKeepsPiped(full: seq<Log>, c: Committer, logCh: seq<Log>, logSeq: nat, logs: seq<Log>)
    requires Piped(full, c, logCh, [], logSeq) && logSeq + |logs| <= |full|
    requires logs == full[logSeq..logSeq + |logs|]
    ensures Piped(full, c, logCh, logs, logSeq + |logs|)
  {
    var from := c.Flushed();
    assert full[from..logSeq] + full[logSeq..logSeq + |logs|] == full[from..logSeq + |logs|];
  }

  lemma {:induction false} ApplyKeepsFlowing(p: Product, orders: seq<Order>, e: Engine)
    requires AllWellFormed(orders) && Flowing(p, orders, e) && e.emitting == [] && e.orderCh != []
    ensures Sound(e.book) && Flowing(p, orders, Applying(p, e))
    ensures Applying(p, e).orderOffset + 1 == Applying(p, e).Applied()
  {
    hide Sound, Invariant, Step, Piped, At, Buffered;
    var n := e.Applied();
    assert e.orderCh[0] == OffsetOrder(n, orders[n]);
    AtNext(p, orders, n);
    LogUpTo(p, orders, n);
    LogUpTo(p, orders, n + 1);
    AtSplits(p, orders, n, n + 1);
    AtSplits(p, orders, n + 1, n + 1);
    var out := Step(p, e.book, orders[n]);
    var full := Run(p, orders).logs;
    assert full[..out.book.logSeq] == full[..e.book.logSeq] + out.logs;
    assert out.logs == full[e.book.logSeq..e.book.logSeq + |out.logs|];
    ApplyKeepsPiped(full, e.committer, e.logCh, e.book.logSeq, out.logs);
  }

  /** A log leaves the channel: it is the next one, so it is buffered or the buffer is stored,
      never discarded, and what is stored is the stretch flushed. */
  lemma CommitKeeps(full: seq<Log>, c: Committer, logCh: seq<Log>, emitting: seq<Log>, logSeq: nat)
    requires Piped(full, c, logCh, emitting, logSeq) && Buffered(c, logCh) && logCh != [] && Numbered(full, 0)
    ensures var t := OnLog(c, logCh[0], |logCh| - 1);
            && Piped(full, t.committer, logCh[1..], emitting, logSeq) && Buffered(t.committer, logCh[1..])
            && c.Flushed() <= t.committer.Flushed() && t.stored == full[c.Flushed()..t.committer.Flushed()]
            && t.committer.lastSeq == c.lastSeq + 1
            && (t.approved.Some? ==> t.approved.value.book.logSeq <= t.committer.Flushed())
  {
    hide Numbered;
    NextInLine(full, c, logCh, emitting, logSeq);
    PipeMoves(full, c, logCh, emitting, logSeq);
    if |logCh| == 1 || |c.logs| + 1 >= LOG_BATCH {
      assert [] + logCh[1..] + emitting == logCh[1..] + emitting;
    }
  }

  lemma NextInLine(full: seq<Log>, c: Committer, logCh: seq<Log>, emitting: seq<Log>, logSeq: nat)
    requires Piped(full, c, logCh, emitting, logSeq) && logCh != [] && Numbered(full, 0)
    ensures logCh[0].sequence == c.lastSeq + 1
  {
    assert full[c.Flushed()..logSeq][|c.logs|] == (c.logs + logCh + emitting)[|c.logs|] == logCh[0];
  }

  /** The pipe with its next log moved into the buffer, and cut after it. */
  lemma PipeMoves(full: seq<Log>, c: Committer, logCh: seq<Log>, emitting: seq<Log>, logSeq: nat)
    requires Piped(full, c, logCh, emitting, logSeq) && logCh != []
    ensures var logs := c.logs + [logCh[0]];
            && c.lastSeq + 1 <= logSeq
            && logs + logCh[1..] + emitting == full[c.Flushed()..logSeq]
            && logs == full[c.Flushed()..c.lastSeq + 1]
            && logCh[1..] + emitting == full[c.lastSeq + 1..logSeq]
  {
    var logs, rest := c.logs + [logCh[0]], logCh[1..] + emitting;
    assert c.logs + logCh + emitting == logs + rest == logs + logCh[1..] + emitting;
    assert (logs + rest)[..|logs|] == logs && (logs + rest)[|logs|..] == rest;
    var pipe := full[c.Flushed()..logSeq];
    assert |pipe| == |logs| + |rest|;
    assert pipe[..|logs|] == full[c.Flushed()..c.lastSeq + 1] && pipe[|logs|..] == full[c.lastSeq + 1..logSeq];
  }

  lemma GenuineLater(p: Product, orders: seq<Order>, s: seq<EngineSnapshot>, applied: int, later: int)
    requires AllWellFormed(orders) && AllGenuine(p, orders, s, applied) && applied <= later <= |orders|
    ensures AllGenuine(p, orders, s, later)
  {
    hide SnapshotOf, At;
  }

  lemma {:induction false} GenuineParts(p: Product, orders: seq<Order>, s: seq<EngineSnapshot>, applied: int)
    requires AllWellFormed(orders) && AllGenuine(p, orders, s, applied) && s != []
    ensures AllGenuine(p, orders, s[1..], applied) && AllGenuine(p, orders, [s[0]], applied)
  {
    hide SnapshotOf, At;
  }

  lemma GenuineJoin(p: Product, orders: seq<Order>, s: seq<EngineSnapshot>, t: seq<EngineSnapshot>, applied: int)
    requires AllWellFormed(orders) && AllGenuine(p, orders, s, applied) && AllGenuine(p, orders, t, applied)
    ensures AllGenuine(p, orders, s + t, applied)
  {
    hide SnapshotOf, At;
  }

  /** The committer turns a pending or an arriving snapshot into an approved one, or drops one for
      a later one, and so keeps the chain in order. */
  lemma {:induction false} ShrunkChain(p: Product, orders: seq<Order>, s: seq<EngineSnapshot>, x: EngineSnapshot,
                                       t: seq<EngineSnapshot>, applied: int)
    requires AllWellFormed(orders) && AllGenuine(p, orders, s + [x] + t, applied) && InOrder(s + [x] + t)
    ensures AllGenuine(p, orders, s + t, applied) && InOrder(s + t)
  {
    hide SnapshotOf, At, Genuine;
    var all := s + [x] + t;
    forall i | 0 <= i < |s + t|
      ensures Genuine(p, orders, (s + t)[i], applied)
    {
      assert (s + t)[i] == all[if i < |s| then i else i + 1];
    }
    forall i, j | 0 <= i < j < |s + t|
      ensures (s + t)[i].orderOffset <= (s + t)[j].orderOffset
    {
      var i', j' := if i < |s| then i else i + 1, if j < |s| then j else j + 1;
      assert all[i'].orderOffset <= all[j'].orderOffset;
    }
  }

  lemma {:induction false} CommitKeepsSnapped(p: Product, orders: seq<Order>, e: Engine)
    requires AllWellFormed(orders) && Snapped(p, orders, e) && e.logCh != []
    requires e.logCh[0].sequence > e.committer.lastSeq
    ensures Snapped(p, orders, Next(p, orders, e, CommitLog))
  {
    hide AllGenuine, InOrder;
    var t := OnLog(e.committer, e.logCh[0], |e.logCh| - 1);
    if t.approved.Some? {
      var s := t.approved.value;
      assert (e.approved + [s]) + [] + e.approveCh == e.approved + [s] + e.approveCh;
      PartOfChain(p, orders, e.approved, s, e.approveCh, e.Applied());
      GenuineJoin(p, orders, e.snapshotCh, [s], e.Applied());
    }
  }

  lemma {:induction false} PartOfChain(p: Product, orders: seq<Order>, s: seq<EngineSnapshot>, x: EngineSnapshot,
                                       t: seq<EngineSnapshot>, applied: int)
    requires AllWellFormed(orders) && AllGenuine(p, orders, s + [x] + t, applied)
    ensures AllGenuine(p, orders, [x], applied)
  {
    hide SnapshotOf, At, Genuine;
    assert (s + [x] + t)[|s|] == x;
  }

  lemma {:induction false} ApproveKeepsSnapped(p: Product, orders: seq<Order>, e: Engine)
    requires AllWellFormed(orders) && Snapped(p, orders, e) && e.approveCh != []
    ensures Snapped(p, orders, Next(p, orders, e, CommitApproval))
  {
    hide AllGenuine, InOrder, Chain;
    var c, x, rest := e.committer, e.approveCh[0], e.approveCh[1..];
    WithoutPending(p, orders, e.approved, c, e.approveCh, e.Applied());
    assert Chain(e.approved, c.(pending := Some(x)), rest) == e.approved + [x] + rest by {
      ChainForms(e.approved, c, x, rest);
    }
    assert Chain(e.approved + [x], c.(pending := None), rest) == e.approved + [x] + rest by {
      ChainForms(e.approved, c, x, rest);
    }
    PartOfChain(p, orders, e.approved, x, rest, e.Applied());
    GenuineJoin(p, orders, e.snapshotCh, [x], e.Applied());
  }

  /** The chain once a pending snapshot is dropped. */
  lemma {:induction false} WithoutPending(p: Product, orders: seq<Order>, approved: seq<EngineSnapshot>, c: Committer,
                                          approveCh: seq<EngineSnapshot>,
                                          applied: int)
    requires AllWellFormed(orders) && approveCh != []
    requires AllGenuine(p, orders, Chain(approved, c, approveCh), applied) && InOrder(Chain(approved, c, approveCh))
    ensures AllGenuine(p, orders, approved + [approveCh[0]] + approveCh[1..], applied)
    ensures InOrder(approved + [approveCh[0]] + approveCh[1..])
  {
    hide AllGenuine, InOrder;
    assert approved + [approveCh[0]] + approveCh[1..] == approved + approveCh;
    if c.pending.Some? {
      ShrunkChain(p, orders, approved, c.pending.value, approveCh, applied);
    } else {
      assert approved + [] + approveCh == approved + approveCh;
    }
  }

  lemma ChainForms(approved: seq<EngineSnapshot>, c: Committer, x: EngineSnapshot, rest: seq<EngineSnapshot>)
    ensures Chain(approved, c.(pending := Some(x)), rest) == approved + [x] + rest
    ensures Chain(approved + [x], c.(pending := None), rest) == approved + [x] + rest
  {
    assert (approved + [x]) + [] + rest == approved + [x] + rest;
  }

  lemma {:induction false} LaterInOrder(p: Product, orders: seq<Order>, s: seq<EngineSnapshot>, x: EngineSnapshot, applied: int)
    requires AllWellFormed(orders) && AllGenuine(p, orders, s, applied) && InOrder(s) && x.orderOffset + 1 == applied
    ensures InOrder(s + [x])
  {
    hide SnapshotOf, At;
    forall i, j | 0 <= i < j < |s + [x]|
      ensures (s + [x])[i].orderOffset <= (s + [x])[j].orderOffset
    {
      assert Genuine(p, orders, s[i], applied);
    }
  }

  lemma {:induction false} TakeKeepsSnapped(p: Product, orders: seq<Order>, e: Engine, listing: Snapshot)
    requires AllWellFormed(orders) && Snapped(p, orders, e) && e.requestCh != []
    requires 0 <= e.Applied() <= |orders| && e.book == At(p, orders, e.Applied()).book
    ensures Snapped(p, orders, TakingRequest(e, listing))
  {
    hide InOrder, SnapshotOf, At;
    if e.orderOffset - e.requestCh[0] > SNAPSHOT_DELTA && SnapshotOf(listing, e.book) {
      var x := EngineSnapshot(listing, e.orderOffset);
      var chain := Chain(e.approved, e.committer, e.approveCh);
      assert Genuine(p, orders, x, e.Applied());
      GenuineJoin(p, orders, chain, [x], e.Applied());
      LaterInOrder(p, orders, chain, x, e.Applied());
      assert Chain(e.approved, e.committer, e.approveCh + [x]) == chain + [x];
    }
  }

  lemma ApplyKeepsSnapped(p: Product, orders: seq<Order>, e: Engine)
    requires AllWellFormed(orders) && Snapped(p, orders, e) && e.orderCh != [] && Sound(e.book)
    requires e.fetched <= |orders| && Applying(p, e).orderOffset + 1 == Applying(p, e).Applied()
    ensures Snapped(p, orders, Applying(p, e))
  {
    hide AllGenuine, InOrder, Sound, Step;
    var n := e.Applied();
    GenuineLater(p, orders, Chain(e.approved, e.committer, e.approveCh), n, n + 1);
    GenuineLater(p, orders, e.snapshotCh, n, n + 1);
    GenuineLater(p, orders, Listed(e.persisted), n, n + 1);
  }

  lemma {:induction false} PersistKeepsSnapped(p: Product, orders: seq<Order>, e: Engine, ok: bool)
    requires AllWellFormed(orders) && Snapped(p, orders, e) && e.snapshotCh != []
    ensures Snapped(p, orders, Persisting(e, ok))
  {
    hide AllGenuine, InOrder;
    GenuineParts(p, orders, e.snapshotCh, e.Applied());
  }

  // ---- a restart ----

  /** Restoring a persisted snapshot and resuming at the order after it puts the engine back at
      that point of the crash-free run. */
  lemma {:induction false} RestartResumes(p: Product, orders: seq<Order>, stored: seq<Log>,
                                          persisted: Option<EngineSnapshot>)
    requires AllWellFormed(orders)
    requires persisted.Some? ==> Genuine(p, orders, persisted.value, |orders|)
    ensures var e := Start(stored, persisted);
            && 0 <= e.Applied() <= |orders|
            && e.book == At(p, orders, e.Applied()).book
            && (persisted.Some? ==> e.Applied() == persisted.value.orderOffset + 1
                                    && e.book.logSeq == persisted.value.book.logSeq)
            && (persisted.None? ==> e.Applied() == 0)
  {
    hide Invariant, SnapshotOf, Filed, FileAll;
    if persisted.Some? {
      var s := persisted.value;
      var b := At(p, orders, s.orderOffset + 1).book;
      InvariantIsFiled(b);
      RestoreUndoesSnapshot(s.book, b);
      assert s.book.logSeq == b.logSeq by {
        SnapshotCounts(s.book, b);
      }
    }
  }

  lemma SnapshotCounts(s: Snapshot, b: Book)
    requires SnapshotOf(s, b)
    ensures s.logSeq == b.logSeq
  {
  }

  lemma {:induction false} StartIsRunning(p: Product, orders: seq<Order>, stored: seq<Log>,
                                          persisted: Option<EngineSnapshot>, applied: int)
    requires AllWellFormed(orders) && applied <= |orders|
    requires AllGenuine(p, orders, Listed(persisted), applied)
    ensures Running(p, orders, Start(stored, persisted))
    ensures Start(stored, persisted).committer.Flushed() == ResumeSeq(persisted)
  {
    hide Invariant, Restored, SnapshotOf, At;
    var e := Start(stored, persisted);
    assert persisted.Some? ==> Genuine(p, orders, Listed(persisted)[0], applied);
    RestartResumes(p, orders, stored, persisted);
    LogUpTo(p, orders, e.Applied());
    assert [] + [] + [] == Run(p, orders).logs[e.book.logSeq..e.book.logSeq];
    assert Chain([], e.committer, []) == [];
    StartCounts(stored, persisted);
  }

  /** The log sequence a restart goes on from. */
  function ResumeSeq(persisted: Option<EngineSnapshot>): nat {
    if persisted.Some? then persisted.value.book.logSeq else 0
  }

  lemma StartCounts(stored: seq<Log>, persisted: Option<EngineSnapshot>)
    ensures persisted.None? ==> Start(stored, persisted).book.logSeq == 0
  {
  }

  // ---- whole runs, crashes included ----

  lemma {:induction false} NextKeepsRunning(p: Product, orders: seq<Order>, e: Engine, event: Event)
    requires AllWellFormed(orders) && Running(p, orders, e)
    ensures Running(p, orders, Next(p, orders, e, event))
  {
    hide AllGenuine, InOrder, Piped, At, Sound, Step, OnLog, Chain, SnapshotOf, Restored;
    LogUpTo(p, orders, |orders|);
    match event
    case Fetch =>
      if e.fetched < |orders| {
        FetchKeeps(orders, e.fetched, e.orderCh);
      }
    case Apply =>
      if e.emitting == [] && e.orderCh != [] {
        ApplyKeepsFlowing(p, orders, e);
        ApplyKeepsSnapped(p, orders, e);
      }
    case Emit =>
      if e.emitting != [] {
        EmitKeeps(Run(p, orders).logs, e.committer, e.logCh, e.emitting, e.book.logSeq);
      }
    case CommitLog =>
      if e.logCh != [] {
        CommitKeeps(Run(p, orders).logs, e.committer, e.logCh, e.emitting, e.book.logSeq);
        NextInLine(Run(p, orders).logs, e.committer, e.logCh, e.emitting, e.book.logSeq);
        CommitKeepsSnapped(p, orders, e);
      }
    case CommitApproval =>
      if e.approveCh != [] {
        ApproveKeepsSnapped(p, orders, e);
        var c := e.committer;
        SamePipe(Run(p, orders).logs, c, OnApproveRequest(c, e.approveCh[0]).committer, e.logCh, e.emitting, e.book.logSeq);
      }
    case Request =>
    case TakeRequest(listing) =>
      if e.emitting == [] && e.requestCh != [] {
        TakeKeepsSnapped(p, orders, e, listing);
      }
    case Persist(ok) =>
      if e.snapshotCh != [] {
        PersistKeepsSnapped(p, orders, e, ok);
      }
    case Crash => StartIsRunning(p, orders, e.stored, e.persisted, e.Applied());
  }

  lemma SamePipe(full: seq<Log>, c: Committer, c': Committer, logCh: seq<Log>, emitting: seq<Log>, logSeq: nat)
    requires c'.lastSeq == c.lastSeq && c'.logs == c.logs
    requires Piped(full, c, logCh, emitting, logSeq) && Buffered(c, logCh)
    ensures Piped(full, c', logCh, emitting, logSeq) && Buffered(c', logCh)
  {
  }

  /** Whatever is stored between two crashes is the stretch of the crash-free log that is flushed. */
  ghost predicate StoresOn(full: seq<Log>, e: Engine, e': Engine) {
    && 0 <= e.committer.Flushed() <= e'.committer.Flushed() <= |full|
    && e'.stored == e.stored + full[e.committer.Flushed()..e'.committer.Flushed()]
  }

  lemma {:induction false} NextStoresOn(p: Product, orders: seq<Order>, e: Engine, event: Event)
    requires AllWellFormed(orders) && Running(p, orders, e) && event != Crash
    ensures StoresOn(Run(p, orders).logs, e, Next(p, orders, e, event))
  {
    hide Snapped, At, Feeding, Piped, Buffered, Sound, Step, OnLog, SnapshotOf, Run;
    var full := Run(p, orders).logs;
    LogUpTo(p, orders, |orders|);
    FlushedIsInside(full, e.committer, e.logCh, e.emitting, e.book.logSeq);
    assert e.stored + full[e.committer.Flushed()..e.committer.Flushed()] == e.stored;
    if event.CommitLog? && e.logCh != [] {
      CommitKeeps(full, e.committer, e.logCh, e.emitting, e.book.logSeq);
      var t := OnLog(e.committer, e.logCh[0], |e.logCh| - 1);
      FlushedIsInside(full, t.committer, e.logCh[1..], e.emitting, e.book.logSeq);
    } else if event.CommitApproval? {
      assert e.stored + [] == e.stored;
    }
  }

  lemma FlushedIsInside(full: seq<Log>, c: Committer, logCh: seq<Log>, emitting: seq<Log>, logSeq: nat)
    requires Piped(full, c, logCh, emitting, logSeq)
    ensures 0 <= c.Flushed() <= |full|
  {
  }

  lemma StoringOnKeeps(full: seq<Log>, e: Engine, e': Engine)
    requires Numbered(full, 0) && Kept(full, e.stored, e.committer) && StoresOn(full, e, e')
    ensures Kept(full, e'.stored, e'.committer)
  {
    hide Continuous, MaxSeq;
    AppendStretch(0, e.stored, full, e.committer.Flushed(), e'.committer.Flushed());
  }

  lemma {:induction false} NextKeepsSane(p: Product, orders: seq<Order>, e: Engine, event: Event)
    requires AllWellFormed(orders) && Sane(p, orders, e) && (event.Crash? ==> Covered(e))
    ensures Sane(p, orders, Next(p, orders, e, event))
  {
    hide Feeding, Piped, Buffered, At, Snapped, Continuous, Next, StoresOn, MaxSeq, Run;
    NextKeepsRunning(p, orders, e, event);
    LogUpTo(p, orders, |orders|);
    if event.Crash? {
      CrashRestarts(p, orders, e);
      PersistedIsGenuine(p, orders, e);
      StartIsRunning(p, orders, e.stored, e.persisted, e.Applied());
    } else {
      NextStoresOn(p, orders, e, event);
      StoringOnKeeps(Run(p, orders).logs, e, Next(p, orders, e, event));
    }
  }

  lemma CrashRestarts(p: Product, orders: seq<Order>, e: Engine)
    ensures Next(p, orders, e, Crash) == Start(e.stored, e.persisted)
  {
  }

  lemma PersistedIsGenuine(p: Product, orders: seq<Order>, e: Engine)
    requires AllWellFormed(orders) && Feeding(orders, e.fetched, e.orderCh) && Snapped(p, orders, e)
    ensures e.Applied() <= |orders| && AllGenuine(p, orders, Listed(e.persisted), e.Applied())
  {
  }
}
