/** The monitor's update of one subscription as a state machine. A step is what runs between
    two awaits; delivery, disabling and re-enrolment may come in between any two of them. */
module RecoveryRuns {
  import opened Answers
  import opened RecoveryTables
  import opened RecoveryRecord

  const LISTED := 20
  const PAGE := 2000

  /** The chain at one block: the account's module state and the whole schedule storage. */
  datatype Head = Head(number: int, hash: Hash, timestamp: int, installed: bool, delay: int, expiration: int,
                       active: OpId, storage: OpId -> Schedule)

  datatype Log = Log(scheduled: bool, op: OpId, executableAt: int, blockNumber: int, blockHash: Hash, txHash: Hash)

  datatype Phase = Begun | Polled | Observed | Checked | Reobserved

  /** The update in flight: its copy of the subscription row and its local variables. */
  datatype Job = Job(generation: nat, cursorHash: Option<Hash>, anchor: int, head: Head, cursor: int,
                     needs: bool, detected: bool, polled: seq<OpId>, retry: seq<OpId>, reconcileIds: seq<OpId>, phase: Phase)

  /** The tables, the update in flight, and the log ranges committed since the last rewind. */
  datatype World = World(sub: Sub, job: Option<Job>, ranges: seq<(int, int)>, origin: int)

  datatype Step =
    | Begin(head: Head)
    | Poll(listing: seq<OpId>, retry: seq<OpId>)
    | Observe(listing: seq<OpId>, now: int)
    | Check(blockHash: Hash)
    | ObserveAgain(listing: seq<OpId>, now: int)
    | Commit(listing: seq<OpId>, logs: seq<Log>, endHash: Hash, now: int)
    | Abort(degrade: bool)
    | DeliveryMark(i: nat, mark: Mark)
    | UserDisable(now: int)
    | UserEnrol(head: Head, now: int)

  // ---------------------------------------------------------------- reading the chain

  /** A snapshot holds the schedules asked for and always that of the active operation. */
  function SnapshotAt(head: Head, ids: seq<OpId>): Snapshot {
    Snapshot(head.number, head.hash, head.timestamp, head.installed, head.delay, head.expiration, head.active,
             map op | op in ids + [head.active] && op != ZERO_HASH :: head.storage(op))
  }

  /** The state of an operation at a block. */
  function StateAt(head: Head, op: OpId, row: Operation): OpState {
    StateFor(SnapshotAt(head, [op]), op, Some(row))
  }

  lemma SnapshotsAgree(head: Head, ids: seq<OpId>, op: OpId, row: Operation)
    requires op in ids || op == head.active
    ensures StateFor(SnapshotAt(head, ids), op, Some(row)) == StateAt(head, op, row)
  {
  }

  // ---------------------------------------------------------------- candidates

  function Dedup(ids: seq<OpId>): (r: seq<OpId>)
    ensures forall op :: op in r <==> op in ids
    ensures forall i, j :: 0 <= i < j < |r| ==> r[i] != r[j]
  {
    if ids == [] then []
    else
      var rest := Dedup(ids[..|ids| - 1]);
      if ids[|ids| - 1] in rest then rest else rest + [ids[|ids| - 1]]
  }

  function Candidates(listing: seq<OpId>, retry: seq<OpId>, reconcileIds: seq<OpId>, active: OpId): seq<OpId> {
    Dedup(listing + retry + reconcileIds + if active != ZERO_HASH then [active] else [])
  }

  /** The active operations among the twenty rows that the listing query returns, active
      rows first. */
  ghost predicate IsListing(s: Sub, ids: seq<OpId>) {
    && |ids| <= LISTED
    && (forall i, j :: 0 <= i < j < |ids| ==> ids[i] != ids[j])
    && (forall op :: op in ids ==> op in s.ops && Active(s.ops[op].state))
    && (|ids| < LISTED ==> forall op :: op in s.ops && Active(s.ops[op].state) ==> op in ids)
  }

  ghost predicate Stored(s: Sub, ids: seq<OpId>) { forall op :: op in ids ==> op in s.ops }

  // ---------------------------------------------------------------- transactions

  predicate Same(s: Sub, job: Job) { s.enabled && s.generation == job.generation }

  predicate AnyTerminal(s: Sub, ids: seq<OpId>) {
    exists i :: 0 <= i < |ids| && ids[i] in s.ops && !Active(s.ops[ids[i]].state)
  }

  /** One committed observation; the flag tells whether history must be reconciled. */
  function Persist(s: Sub, job: Job, snap: Snapshot, ids: seq<OpId>, now: int): (Sub, bool) {
    if !Same(s, job) then (s, job.needs)
    else
      var s0 := if job.detected then Queue(s, ReorgKey(job.head.hash), ReorgAlert, None, now) else s;
      var s1 := RecordAll(s0, snap, ids, now);
      if AnyTerminal(s1, ids) && job.cursor < job.head.number then (MarkReconcile(s1, job.generation), true) else (s1, job.needs)
  }

  /** A replayed log enriches the row; the state still comes from the snapshot. */
  function ApplyLog(s: Sub, snap: Snapshot, e: Log, covers: bool, now: int): Sub {
    if !e.scheduled || !Known(snap, e.op) then s
    else
      var prior := Lookup(s.ops, e.op);
      var state := StateFor(snap, e.op, prior);
      var s1 := if !covers && !Active(state) then MarkReconcile(s, s.generation) else s;
      var s2 := PutOperation(s1, e.op, Operation(snap.schedules[e.op].scheduledAt, e.executableAt,
                                                 if prior.Some? then prior.value.expiresAt else 0,
                                                 state, Some(e.txHash), e.blockNumber, e.blockHash));
      if prior.None? && state != Orphaned then Queue(s2, Plain(e.op, KindOf(state)), KindOf(state), Some(e.op), now) else s2
  }

  function ApplyLogs(s: Sub, snap: Snapshot, logs: seq<Log>, covers: bool, now: int): Sub {
    if logs == [] then s else ApplyLog(ApplyLogs(s, snap, logs[..|logs| - 1], covers, now), snap, logs[|logs| - 1], covers, now)
  }

  function UpdateHealth(s: Sub, cursor: int, hash: Hash, covers: bool): Sub {
    s.(status := if covers then Healthy else CatchingUp, cursor := cursor, cursorHash := Some(hash),
       reconcile := if covers then false else s.reconcile)
  }

  function FirstIds(job: Job): seq<OpId> { job.polled + job.retry }

  function BaseIds(job: Job): seq<OpId> { FirstIds(job) + job.reconcileIds }

  /** The last snapshot of an update is read again when a log or a reconciled row is missing from it. */
  function FinalIds(job: Job, logs: seq<Log>): seq<OpId> {
    var have := SnapshotAt(job.head, BaseIds(job)).schedules;
    if (forall e :: e in logs ==> e.op in have) && (forall op :: op in job.reconcileIds ==> op in have)
    then BaseIds(job)
    else BaseIds(job) + seq(|logs|, i requires 0 <= i < |logs| => logs[i].op)
  }

  function PageEnd(job: Job): int { Min(job.head.number, job.cursor + PAGE) }

  function Committed(s: Sub, job: Job, listing: seq<OpId>, logs: seq<Log>, endHash: Hash, now: int): Sub {
    var snap := SnapshotAt(job.head, FinalIds(job, logs));
    var covers := PageEnd(job) == job.head.number;
    var s1 := RecordAll(s, snap, FinalCandidates(job, listing), now);
    UpdateHealth(ApplyLogs(s1, snap, logs, covers, now), PageEnd(job), endHash, covers)
  }

  function Enrolled(s: Sub, head: Head, now: int): Sub {
    var s1 := Queue(Reenrol(s, head.number), EnabledKey(now), Enabled, None, now);
    var ids := Candidates([], [], [], head.active);
    var s2 := RecordAll(s1, SnapshotAt(head, []), ids, now);
    if AnyTerminal(s2, ids) then MarkReconcile(s2, s2.generation) else s2
  }

  // ---------------------------------------------------------------- steps

  function AfterCheck(job: Job, s: Sub, blockHash: Hash): Job {
    if job.cursorHash.Some? && (job.head.number < job.cursor || Some(blockHash) != job.cursorHash)
    then job.(detected := true, needs := true, cursor := Min(job.anchor - 1, job.head.number - 1), phase := Checked)
    else job.(phase := Checked)
  }

  ghost predicate ReconcileList(s: Sub, job: Job, ids: seq<OpId>) {
    if job.needs then forall op :: op in ids <==> op in s.ops else ids == []
  }

  ghost predicate Next(w: World, w': World, step: Step) {
    match step
    case Begin(head) =>
      w.job.None? && w.sub.enabled
      && w' == w.(job := Some(Job(w.sub.generation, w.sub.cursorHash, w.sub.anchor, head, w.sub.cursor,
                                  w.sub.reconcile, false, [], [], [], Begun)))
    case Poll(listing, retry) =>
      w.job.Some? && w.job.value.phase == Begun && IsListing(w.sub, listing) && Stored(w.sub, retry)
      && w' == w.(job := Some(w.job.value.(polled := listing, retry := retry, phase := Polled)))
    case Observe(listing, now) =>
      w.job.Some? && w.job.value.phase == Polled && IsListing(w.sub, listing)
      && var job := w.job.value;
      && var snap := SnapshotAt(job.head, FirstIds(job));
      && var (s, needs) := Persist(w.sub, job, snap, Candidates(listing, job.retry, [], snap.active), now);
      w' == w.(sub := s, job := Some(job.(needs := needs, phase := Observed)))
    case Check(blockHash) =>
      w.job.Some? && w.job.value.phase == Observed
      && var job := AfterCheck(w.job.value, w.sub, blockHash);
      && var s := if job.detected then MarkReconcile(w.sub, job.generation) else w.sub;
      if job.detected && !Same(w.sub, job) then w' == w.(job := None)
      else w'.job.Some? && ReconcileList(s, job, w'.job.value.reconcileIds)
           && w' == w.(sub := s, job := Some(job.(reconcileIds := w'.job.value.reconcileIds)))
    case ObserveAgain(listing, now) =>
      w.job.Some? && w.job.value.phase == Checked && IsListing(w.sub, listing)
      && var job := w.job.value;
      if job.reconcileIds == [] && !job.detected then w' == w.(job := Some(job.(phase := Reobserved)))
      else
        var snap := SnapshotAt(job.head, BaseIds(job));
        var (s, needs) := Persist(w.sub, job, snap, Candidates(listing, job.retry, job.reconcileIds, snap.active), now);
        w' == w.(sub := s, job := Some(job.(needs := needs, phase := Reobserved)))
    case Commit(listing, logs, endHash, now) =>
      w.job.Some? && w.job.value.phase == Reobserved && IsListing(w.sub, listing)
      && var job := w.job.value;
      if !Same(w.sub, job) then w' == w.(job := None)
      else w' == World(Committed(w.sub, job, listing, logs, endHash, now), None,
                       (if job.detected then [] else w.ranges) + [(job.cursor + 1, PageEnd(job))],
                       if job.detected then job.cursor + 1 else w.origin)
    case Abort(degrade) =>
      w.job.Some?
      && w' == w.(job := None, sub := if degrade && Same(w.sub, w.job.value) then w.sub.(status := Degraded) else w.sub)
    case DeliveryMark(i, mark) => w' == w.(sub := Deliver(w.sub, i, mark))
    case UserDisable(now) =>
      w.sub.enabled && w' == w.(sub := Queue(Disable(w.sub), DisabledKey(now), Disabled, None, now))
    case UserEnrol(head, now) =>
      !w.sub.enabled
      && w' == World(Enrolled(w.sub, head, now), w.job, [], head.number)
  }

  // ---------------------------------------------------------------- invariant

  /** Only one operation per subscription is ever stored as active, so the listing's limit
      never hides one. */
  ghost predicate OneActive(s: Sub) {
    forall a, b :: a in s.ops && b in s.ops && Active(s.ops[a].state) && Active(s.ops[b].state) ==> a == b
  }

  ghost predicate OnlyActive(s: Sub, op: OpId) {
    forall a :: a in s.ops && Active(s.ops[a].state) ==> a == op
  }

  /** Every operation stored as pending or ready has a scheduled notice of this enrolment
      that is waiting or delivered. */
  ghost predicate AllAnnounced(s: Sub) {
    forall op :: op in s.ops && Active(s.ops[op].state) ==> Live(s, op, Scheduled)
  }

  /** The committed ranges follow each other without a gap, from the origin to the cursor. */
  ghost predicate Contiguous(ranges: seq<(int, int)>, origin: int, cursor: int) {
    if ranges == [] then cursor == origin - 1
    else
      && ranges[0].0 == origin && ranges[|ranges| - 1].1 == cursor
      && forall i :: 0 < i < |ranges| ==> ranges[i].0 == ranges[i - 1].1 + 1
  }

  ghost predicate JobFits(s: Sub, job: Job) {
    && job.generation <= s.generation
    && (!job.needs ==> job.reconcileIds == [])
    && (job.detected ==> job.phase in {Checked, Reobserved})
    && (Same(s, job) ==>
          && job.anchor == s.anchor
          && (if job.detected then job.needs && job.phase in {Checked, Reobserved} && job.cursor < s.anchor
              else job.cursor == s.cursor)
          && (s.reconcile ==> job.needs)
          && (job.phase in {Checked, Reobserved} && job.needs ==>
                forall op :: op in s.ops ==> op in job.reconcileIds || op == job.head.active))
  }

  ghost predicate Inv(w: World) {
    && Wf(w.sub) && OneActive(w.sub) && ZERO_HASH !in w.sub.ops
    && Contiguous(w.ranges, w.origin, w.sub.cursor) && w.origin <= w.sub.anchor
    && (w.job.Some? ==> JobFits(w.sub, w.job.value))
  }

  // ---------------------------------------------------------------- one observation

  lemma ListingIsComplete(s: Sub, ids: seq<OpId>)
    requires OneActive(s) && IsListing(s, ids)
    ensures forall op :: op in s.ops && Active(s.ops[op].state) ==> op in ids
  {
    if |ids| == LISTED {
      assert ids[0] in s.ops && ids[1] in s.ops;
      assert ids[0] in ids && ids[1] in ids && ids[0] != ids[1];
    }
  }

  /** A recording adds no operation but the current one. */
  lemma {:induction false} NewIsCurrent(s: Sub, snap: Snapshot, ids: seq<OpId>, now: int)
    requires Wf(s) && s.enabled
    ensures forall op :: op in RecordAll(s, snap, ids, now).ops && op !in s.ops ==> Current(snap, op)
  {
    if ids != [] {
      var init, last := ids[..|ids| - 1], ids[|ids| - 1];
      NewIsCurrent(s, snap, init, now);
      RecordAllEffect(s, snap, init, now);
      RecordOneEffect(RecordAll(s, snap, init, now), snap, last, now);
    }
  }

  /** Every stored state is what the snapshot says. */
  ghost predicate Agreeing(s: Sub, snap: Snapshot, ops: set<OpId>) {
    forall op :: op in s.ops && op in ops ==> s.ops[op].state == StateFor(snap, op, Some(s.ops[op]))
  }

  /** What an observation commits. */
  ghost predicate Good(s: Sub, snap: Snapshot) {
    && Wf(s) && OnlyActive(s, snap.active) && AllAnnounced(s) && ZERO_HASH !in s.ops
    && (Current(snap, snap.active) && Known(snap, snap.active) ==>
          snap.active in s.ops && s.ops[snap.active].state == StateFor(snap, snap.active, Some(s.ops[snap.active])))
  }

  /** After a recording that covered every active row, an active row is the snapshot's
      active operation and is announced. */
  lemma ActiveAfterRecording(s: Sub, s': Sub, snap: Snapshot, ids: seq<OpId>, op: OpId)
    requires Recorded(s, s', snap, ids) && op in s'.ops && Active(s'.ops[op].state)
    requires forall o :: o in s.ops && Active(s.ops[o].state) ==> o in ids
    ensures op == snap.active && Live(s', op, Scheduled)
  {
    assert op in ids;
    assert Settled(s', snap, op);
  }

  lemma ListedAgree(s: Sub, s': Sub, snap: Snapshot, ids: seq<OpId>)
    requires Recorded(s, s', snap, ids)
    ensures Agreeing(s', snap, set op | op in ids)
  {
    forall op | op in s'.ops && op in ids
      ensures s'.ops[op].state == StateFor(snap, op, Some(s'.ops[op]))
    {
      assert Settled(s', snap, op);
    }
  }

  lemma ObservationEffect(s: Sub, snap: Snapshot, ids: seq<OpId>, now: int)
    requires Wf(s) && s.enabled && ZERO_HASH !in s.ops && ZERO_HASH !in snap.schedules
    requires forall op :: op in s.ops && Active(s.ops[op].state) ==> op in ids
    requires snap.active != ZERO_HASH ==> snap.active in ids
    ensures var s' := RecordAll(s, snap, ids, now);
            && Good(s', snap) && s' == s.(ops := s'.ops, outbox := s'.outbox)
            && (forall op :: op in s.ops ==> op in s'.ops) && (forall op :: op in s'.ops && op !in s.ops ==> op == snap.active)
            && Agreeing(s', snap, set op | op in ids)
  {
    var s' := RecordAll(s, snap, ids, now);
    RecordAllEffect(s, snap, ids, now);
    NewIsCurrent(s, snap, ids, now);
    ListedAgree(s, s', snap, ids);
    forall op | op in s'.ops && Active(s'.ops[op].state)
      ensures op == snap.active && Live(s', op, Scheduled)
    {
      ActiveAfterRecording(s, s', snap, ids, op);
    }
    assert snap.active in ids ==> Settled(s', snap, snap.active);
  }

  lemma ReorgNoticeEffect(s: Sub, hash: Hash, now: int)
    requires Wf(s)
    ensures var s' := Queue(s, ReorgKey(hash), ReorgAlert, None, now); Wf(s') && s' == s.(outbox := s'.outbox)
  {
  }

  lemma PersistEffect(s: Sub, job: Job, snap: Snapshot, listing: seq<OpId>, retry: seq<OpId>, ids: seq<OpId>, now: int)
    requires Wf(s) && OneActive(s) && ZERO_HASH !in s.ops && ZERO_HASH !in snap.schedules
    requires IsListing(s, listing) && Same(s, job)
    ensures var (s', needs) := Persist(s, job, snap, Candidates(listing, retry, ids, snap.active), now);
            && Good(s', snap) && s' == s.(ops := s'.ops, outbox := s'.outbox, reconcile := s'.reconcile)
            && (forall op :: op in s'.ops && op !in s.ops ==> op == snap.active)
            && (s.reconcile ==> s'.reconcile) && (s'.reconcile ==> needs || s.reconcile) && (job.needs ==> needs)
  {
    ListingIsComplete(s, listing);
    ReorgNoticeEffect(s, job.head.hash, now);
    var s0 := if job.detected then Queue(s, ReorgKey(job.head.hash), ReorgAlert, None, now) else s;
    var cands := Candidates(listing, retry, ids, snap.active);
    ObservationEffect(s0, snap, cands, now);
    var s1 := RecordAll(s0, snap, cands, now);
    MarkKeepsGood(s1, snap, job.generation);
  }

  lemma MarkKeepsGood(s: Sub, snap: Snapshot, generation: nat)
    requires Good(s, snap)
    ensures Good(MarkReconcile(s, generation), snap)
  {
    assert forall op :: Live(MarkReconcile(s, generation), op, Scheduled) == Live(s, op, Scheduled);
  }

  // ---------------------------------------------------------------- the log replay

  function LogRow(s: Sub, snap: Snapshot, e: Log): Operation
    requires Known(snap, e.op)
  {
    var prior := Lookup(s.ops, e.op);
    Operation(snap.schedules[e.op].scheduledAt, e.executableAt, if prior.Some? then prior.value.expiresAt else 0,
              StateFor(snap, e.op, prior), Some(e.txHash), e.blockNumber, e.blockHash)
  }

  /** The replayed row has the state that the snapshot gives it, so it is active only if it already was announced. */
  lemma LogRowEffect(s: Sub, snap: Snapshot, e: Log)
    requires Good(s, snap) && ZERO_HASH !in snap.schedules && Known(snap, e.op)
    ensures var s' := PutOperation(s, e.op, LogRow(s, snap, e));
            && Good(s', snap) && s'.ops == s.ops[e.op := LogRow(s, snap, e)]
            && (Agreeing(s, snap, s.ops.Keys) ==> Agreeing(s', snap, s'.ops.Keys))
            && (Active(LogRow(s, snap, e).state) ==> e.op in s.ops)
  {
    var s', row := PutOperation(s, e.op, LogRow(s, snap, e)), LogRow(s, snap, e);
    assert row.state == StateFor(snap, e.op, Some(row));
    assert Active(row.state) ==> e.op == snap.active && e.op in s.ops;
    assert forall op :: Live(s', op, Scheduled) == Live(s, op, Scheduled);
    assert Active(row.state) ==> Current(snap, e.op);
  }

  lemma LogNoticeEffect(s: Sub, snap: Snapshot, op: OpId, kind: Kind, now: int)
    requires Good(s, snap) && op in s.ops
    ensures var s' := Queue(s, Plain(op, kind), kind, Some(op), now);
            Good(s', snap) && s' == s.(outbox := s'.outbox)
  {
    QueueEffect(s, Plain(op, kind), kind, op, now);
    var s' := Queue(s, Plain(op, kind), kind, Some(op), now);
    forall o | o in s.ops && Active(s.ops[o].state)
      ensures Live(s', o, Scheduled)
    {
      LiveStays(s, s', op, o, Scheduled);
    }
  }

  lemma ApplyLogEffect(s: Sub, snap: Snapshot, e: Log, covers: bool, now: int)
    requires Good(s, snap) && s.enabled && ZERO_HASH !in snap.schedules
    ensures var s' := ApplyLog(s, snap, e, covers, now);
            && Good(s', snap) && s' == s.(ops := s'.ops, outbox := s'.outbox, reconcile := s'.reconcile)
            && (Agreeing(s, snap, s.ops.Keys) ==> Agreeing(s', snap, s'.ops.Keys))
            && (s.reconcile ==> s'.reconcile)
            && (forall op :: op in s.ops ==> op in s'.ops)
            && (forall op :: op in s'.ops && op !in s.ops ==> op == e.op && op in snap.schedules)
  {
    if e.scheduled && Known(snap, e.op) {
      var state := StateFor(snap, e.op, Lookup(s.ops, e.op));
      var s1 := if !covers && !Active(state) then MarkReconcile(s, s.generation) else s;
      MarkKeepsGood(s, snap, s.generation);
      LogRowEffect(s1, snap, e);
      LogNoticeEffect(PutOperation(s1, e.op, LogRow(s1, snap, e)), snap, e.op, KindOf(state), now);
    }
  }

  lemma {:induction false} ApplyLogsEffect(s: Sub, snap: Snapshot, logs: seq<Log>, covers: bool, now: int)
    requires Good(s, snap) && s.enabled && ZERO_HASH !in snap.schedules
    ensures var s' := ApplyLogs(s, snap, logs, covers, now);
            && Good(s', snap) && s' == s.(ops := s'.ops, outbox := s'.outbox, reconcile := s'.reconcile)
            && (Agreeing(s, snap, s.ops.Keys) ==> Agreeing(s', snap, s'.ops.Keys))
            && (s.reconcile ==> s'.reconcile)
            && (forall op :: op in s.ops ==> op in s'.ops)
            && (forall op :: op in s'.ops && op !in s.ops ==> op in snap.schedules)
  {
    if logs != [] {
      var init := logs[..|logs| - 1];
      ApplyLogsEffect(s, snap, init, covers, now);
      ApplyLogEffect(ApplyLogs(s, snap, init, covers, now), snap, logs[|logs| - 1], covers, now);
    }
  }

  // ---------------------------------------------------------------- the committing step

  /** The operations recorded by the final transaction. */
  function FinalCandidates(job: Job, listing: seq<OpId>): seq<OpId> {
    Candidates(listing, job.retry, job.reconcileIds, job.head.active)
  }

  lemma FinalRecording(s: Sub, job: Job, listing: seq<OpId>, logs: seq<Log>, now: int)
    requires Wf(s) && OneActive(s) && ZERO_HASH !in s.ops && IsListing(s, listing) && Same(s, job) && JobFits(s, job)
    requires job.phase == Reobserved
    ensures var snap := SnapshotAt(job.head, FinalIds(job, logs));
            var s' := RecordAll(s, snap, FinalCandidates(job, listing), now);
            && Good(s', snap) && s' == s.(ops := s'.ops, outbox := s'.outbox) && s.ops.Keys <= s'.ops.Keys
            && (job.needs ==> Agreeing(s', snap, s'.ops.Keys) && forall op :: op in s'.ops ==> op in job.reconcileIds || op == job.head.active)
  {
    ListingIsComplete(s, listing);
    ObservationEffect(s, SnapshotAt(job.head, FinalIds(job, logs)), FinalCandidates(job, listing), now);
  }

  /** The replay keeps what the recording made of the table. */
  lemma FinalReplay(s: Sub, job: Job, logs: seq<Log>, endHash: Hash, now: int)
    requires var snap := SnapshotAt(job.head, FinalIds(job, logs));
             && Good(s, snap) && s.enabled
             && (job.needs ==> Agreeing(s, snap, s.ops.Keys) && forall op :: op in s.ops ==> op in job.reconcileIds || op == job.head.active)
    ensures var snap, covers := SnapshotAt(job.head, FinalIds(job, logs)), PageEnd(job) == job.head.number;
            var s' := UpdateHealth(ApplyLogs(s, snap, logs, covers, now), PageEnd(job), endHash, covers);
            && Good(s', snap)
            && s' == s.(ops := s'.ops, outbox := s'.outbox, reconcile := s'.reconcile,
                        cursor := PageEnd(job), cursorHash := s'.cursorHash, status := s'.status)
            && s.ops.Keys <= s'.ops.Keys
            && (!covers && s.reconcile ==> s'.reconcile) && (covers ==> !s'.reconcile)
            && (job.needs ==> forall op :: op in s'.ops ==> s'.ops[op].state == StateAt(job.head, op, s'.ops[op]))
  {
    var ids, covers := FinalIds(job, logs), PageEnd(job) == job.head.number;
    var snap := SnapshotAt(job.head, ids);
    ApplyLogsEffect(s, snap, logs, covers, now);
    var s2 := ApplyLogs(s, snap, logs, covers, now);
    HealthKeepsGood(s2, snap, PageEnd(job), endHash, covers);
    if job.needs { StatesAreTheHeads(s2, job, ids); }
  }

  /** The final transaction: everything active is announced, nothing stored is dropped; and
      when it reaches the head with the whole table to reconcile, every stored state is the
      head's. */
  lemma CommittedEffect(s: Sub, job: Job, listing: seq<OpId>, logs: seq<Log>, endHash: Hash, now: int)
    requires Wf(s) && OneActive(s) && ZERO_HASH !in s.ops && IsListing(s, listing) && Same(s, job) && JobFits(s, job)
    requires job.phase == Reobserved
    ensures var s' := Committed(s, job, listing, logs, endHash, now);
            && Good(s', SnapshotAt(job.head, FinalIds(job, logs)))
            && s' == s.(ops := s'.ops, outbox := s'.outbox, reconcile := s'.reconcile,
                        cursor := PageEnd(job), cursorHash := s'.cursorHash, status := s'.status)
            && s.ops.Keys <= s'.ops.Keys
            && (PageEnd(job) != job.head.number && s.reconcile ==> s'.reconcile)
            && (PageEnd(job) == job.head.number ==> !s'.reconcile)
            && (job.needs ==> forall op :: op in s'.ops ==> s'.ops[op].state == StateAt(job.head, op, s'.ops[op]))
  {
    FinalRecording(s, job, listing, logs, now);
    FinalReplay(RecordAll(s, SnapshotAt(job.head, FinalIds(job, logs)), FinalCandidates(job, listing), now), job, logs, endHash, now);
  }

  lemma HealthKeepsGood(s: Sub, snap: Snapshot, cursor: int, hash: Hash, covers: bool)
    requires Good(s, snap)
    ensures Good(UpdateHealth(s, cursor, hash, covers), snap)
  {
    assert forall op :: Live(UpdateHealth(s, cursor, hash, covers), op, Scheduled) == Live(s, op, Scheduled);
  }

  lemma StatesAreTheHeads(s: Sub, job: Job, ids: seq<OpId>)
    requires Agreeing(s, SnapshotAt(job.head, ids), s.ops.Keys)
    requires forall op :: op in s.ops ==> op in ids || op == job.head.active
    ensures forall op :: op in s.ops ==> s.ops[op].state == StateAt(job.head, op, s.ops[op])
  {
    forall op | op in s.ops
      ensures s.ops[op].state == StateAt(job.head, op, s.ops[op])
    {
      SnapshotsAgree(job.head, ids, op, s.ops[op]);
    }
  }

  // ---------------------------------------------------------------- every step keeps the invariant

  lemma ContiguousAppend(ranges: seq<(int, int)>, origin: int, cursor: int, end: int)
    requires Contiguous(ranges, origin, cursor)
    ensures Contiguous(ranges + [(cursor + 1, end)], origin, end)
  {
  }

  lemma BeginKeeps(w: World, w': World, step: Step)
    requires Inv(w) && Next(w, w', step) && (step.Begin? || step.Poll? || step.Check? || step.Abort?)
    ensures Inv(w')
  {
  }

  lemma ObserveKeeps(w: World, w': World, step: Step)
    requires Inv(w) && Next(w, w', step) && step.Observe?
    ensures Inv(w')
    ensures (w'.sub.reconcile <== w.sub.reconcile)
    ensures Same(w.sub, w.job.value) ==> AllAnnounced(w'.sub)
  {
    var job := w.job.value;
    if Same(w.sub, job) {
      PersistEffect(w.sub, job, SnapshotAt(job.head, FirstIds(job)), step.listing, job.retry, [], step.now);
    }
  }

  lemma ObserveAgainKeeps(w: World, w': World, step: Step)
    requires Inv(w) && Next(w, w', step) && step.ObserveAgain?
    ensures Inv(w')
    ensures (w'.sub.reconcile <== w.sub.reconcile)
    ensures Same(w.sub, w.job.value) && (w.job.value.reconcileIds != [] || w.job.value.detected) ==> AllAnnounced(w'.sub)
  {
    var job := w.job.value;
    if Same(w.sub, job) {
      PersistEffect(w.sub, job, SnapshotAt(job.head, BaseIds(job)), step.listing, job.retry, job.reconcileIds, step.now);
    }
  }

  lemma CommitKeeps(w: World, w': World, step: Step)
    requires Inv(w) && Next(w, w', step) && step.Commit?
    ensures Inv(w')
    ensures Same(w.sub, w.job.value) ==> AllAnnounced(w'.sub)
  {
    var job := w.job.value;
    if Same(w.sub, job) {
      CommittedEffect(w.sub, job, step.listing, step.logs, step.endHash, step.now);
      ContiguousAppend(if job.detected then [] else w.ranges, if job.detected then job.cursor + 1 else w.origin, job.cursor, PageEnd(job));
    }
  }

  /** Delivery changes neither keys nor rows, and stamps a sending time exactly on what it sends. */
  lemma DeliverKeepsWf(s: Sub, i: nat, mark: Mark)
    requires Wf(s)
    ensures var s' := Deliver(s, i, mark); Wf(s') && s' == s.(outbox := s'.outbox)
  {
    if i < |s.outbox| {
      assert KeyFits(s.outbox[i], i);
      assert KeyFits(Marked(s.outbox[i], mark), i);
      forall k | 0 <= k < |s.outbox|
        ensures KeyFits(Deliver(s, i, mark).outbox[k], k)
      {
        assert KeyFits(s.outbox[k], k);
      }
    }
  }

  lemma DeliveryKeeps(w: World, w': World, step: Step)
    requires Inv(w) && Next(w, w', step) && step.DeliveryMark?
    ensures Inv(w')
  {
    DeliverKeepsWf(w.sub, step.i, step.mark);
  }

  lemma SupersedeKeepsWf(s: Sub)
    requires Wf(s)
    ensures Wf(s.(outbox := SupersedeAll(s.outbox)))
  {
    forall i | 0 <= i < |s.outbox|
      ensures KeyFits(SupersedeAll(s.outbox)[i], i)
    {
      assert KeyFits(s.outbox[i], i);
    }
  }

  lemma AdministrativeNotice(s: Sub, key: Key, kind: Kind, now: int)
    requires Wf(s) && !key.Plain? && !key.Transition?
    ensures var s' := Queue(s, key, kind, None, now); Wf(s') && s' == s.(outbox := s'.outbox)
  {
  }

  lemma DisableKeeps(w: World, w': World, step: Step)
    requires Inv(w) && Next(w, w', step) && step.UserDisable?
    ensures Inv(w')
  {
    SupersedeKeepsWf(w.sub);
    assert Wf(Disable(w.sub));
    AdministrativeNotice(Disable(w.sub), DisabledKey(step.now), Disabled, step.now);
  }

  lemma FreshEnrolment(s: Sub, head: Head, now: int)
    requires Wf(s)
    ensures var s' := Queue(Reenrol(s, head.number), EnabledKey(now), Enabled, None, now);
            Wf(s') && s' == Reenrol(s, head.number).(outbox := s'.outbox)
  {
    SupersedeKeepsWf(s);
    assert Wf(Reenrol(s, head.number));
    AdministrativeNotice(Reenrol(s, head.number), EnabledKey(now), Enabled, now);
  }

  lemma EnrolledEffect(s: Sub, head: Head, now: int)
    requires Wf(s)
    ensures var s' := Enrolled(s, head, now);
            && Good(s', SnapshotAt(head, []))
            && s' == Reenrol(s, head.number).(ops := s'.ops, outbox := s'.outbox, reconcile := s'.reconcile)
            && forall op :: op in s'.ops ==> op == head.active
  {
    FreshEnrolment(s, head, now);
    var s1 := Queue(Reenrol(s, head.number), EnabledKey(now), Enabled, None, now);
    var snap, ids := SnapshotAt(head, []), Candidates([], [], [], head.active);
    ObservationEffect(s1, snap, ids, now);
    MarkKeepsGood(RecordAll(s1, snap, ids, now), snap, s1.generation);
  }

  lemma EnrolKeeps(w: World, w': World, step: Step)
    requires Inv(w) && Next(w, w', step) && step.UserEnrol?
    ensures Inv(w') && AllAnnounced(w'.sub)
    ensures w'.sub.generation == w.sub.generation + 1 && forall op :: op in w'.sub.ops ==> op == step.head.active
  {
    EnrolledEffect(w.sub, step.head, step.now);
  }

  lemma StepKeepsInv(w: World, w': World, step: Step)
    requires Inv(w) && Next(w, w', step)
    ensures Inv(w')
  {
    match step
    case Begin(_) => BeginKeeps(w, w', step);
    case Poll(_, _) => BeginKeeps(w, w', step);
    case Check(_) => BeginKeeps(w, w', step);
    case Abort(_) => BeginKeeps(w, w', step);
    case Observe(_, _) => ObserveKeeps(w, w', step);
    case ObserveAgain(_, _) => ObserveAgainKeeps(w, w', step);
    case Commit(_, _, _, _) => CommitKeeps(w, w', step);
    case DeliveryMark(_, _) => DeliveryKeeps(w, w', step);
    case UserDisable(_) => DisableKeeps(w, w', step);
    case UserEnrol(_, _) => EnrolKeeps(w, w', step);
  }

  // ---------------------------------------------------------------- main results

  /** The step that commits an observation for the enrolment it was made for. */
  predicate CommitsObservation(w: World, step: Step) {
    && w.job.Some? && Same(w.sub, w.job.value)
    && (step.Observe? || step.Commit? || (step.ObserveAgain? && (w.job.value.reconcileIds != [] || w.job.value.detected)))
  }

  /** After every committed observation each operation stored as pending or ready has a
      scheduled notice of this enrolment waiting or delivered, whatever delivery did before. */
  lemma ObservationIsAnnounced(w: World, w': World, step: Step)
    requires Inv(w) && Next(w, w', step) && (CommitsObservation(w, step) || step.UserEnrol?)
    ensures AllAnnounced(w'.sub) && OneActive(w'.sub)
  {
    StepKeepsInv(w, w', step);
    if step.Commit? { CommitKeeps(w, w', step); }
    else if step.UserEnrol? { EnrolKeeps(w, w', step); }
    else if step.Observe? { ObserveKeeps(w, w', step); }
    else { ObserveAgainKeeps(w, w', step); }
  }

  /** The history of a subscription is settled: either a transaction moves the cursor to the
      observed head, keeps every stored operation and leaves each in the state it has at that
      head; or a new enrolment starts, with nothing but the current operation. */
  ghost predicate Reconciles(w: World, w': World, step: Step) {
    || (&& step.Commit? && w.job.Some? && Same(w.sub, w.job.value)
        && w'.sub.generation == w.sub.generation && w'.sub.cursor == w.job.value.head.number
        && w.sub.ops.Keys <= w'.sub.ops.Keys
        && forall op :: op in w'.sub.ops ==> w'.sub.ops[op].state == StateAt(w.job.value.head, op, w'.sub.ops[op]))
    || (&& step.UserEnrol? && w'.sub.generation == w.sub.generation + 1
        && forall op :: op in w'.sub.ops ==> op == step.head.active)
  }

  /** The reconcile flag goes down only with such a step. */
  lemma ClearedOnlyWhenReconciled(w: World, w': World, step: Step)
    requires Inv(w) && Next(w, w', step) && w.sub.reconcile && !w'.sub.reconcile
    ensures Reconciles(w, w', step)
  {
    if step.Commit? {
      CommittedEffect(w.sub, w.job.value, step.listing, step.logs, step.endHash, step.now);
    } else if step.UserEnrol? {
      EnrolKeeps(w, w', step);
    } else if step.Observe? {
      ObserveKeeps(w, w', step);
    } else if step.ObserveAgain? {
      ObserveAgainKeeps(w, w', step);
    }
  }

  /** Right after a fork was detected, and after one more step of anything but the commit or
      a new enrolment, the flag is up and the job knows. */
  lemma ForkIsKnownAtOnce(w: World, w': World, w'': World, check: Step, step: Step)
    requires Inv(w) && Next(w, w', check) && check.Check? && w'.job.Some? && w'.job.value.detected
    requires Next(w', w'', step) && !step.Commit? && !step.UserEnrol?
    ensures w'.sub.reconcile && w''.sub.reconcile
    ensures w''.job.Some? && w''.sub.generation == w''.job.value.generation ==> w''.job.value.needs
  {
    StepKeepsInv(w, w', check);
    StepKeepsInv(w', w'', step);
    if step.ObserveAgain? { ObserveAgainKeeps(w', w'', step); }
  }

  /** Before the first enrolment: nothing stored, nothing in flight. */
  lemma NothingYet(block: int)
    ensures Inv(World(Sub(false, 0, block - 1, None, block, Off, false, map[], []), None, [], block))
  {
  }

  /** A run: from one world to another by a sequence of steps. */
  ghost predicate Reaches(w: World, steps: seq<Step>, w': World) {
    if steps == [] then w' == w
    else exists m {:trigger Next(m, w', steps[|steps| - 1])} :: Reaches(w, steps[..|steps| - 1], m) && Next(m, w', steps[|steps| - 1])
  }

  /** Over every run the tables stay well formed, at most one operation is active, and the
      log ranges since the last rewind cover everything from the anchor to the cursor. */
  lemma {:induction false} RunKeepsInv(w: World, steps: seq<Step>, w': World)
    requires Inv(w) && Reaches(w, steps, w')
    ensures Inv(w')
  {
    if steps != [] {
      var m :| Reaches(w, steps[..|steps| - 1], m) && Next(m, w', steps[|steps| - 1]);
      RunKeepsInv(w, steps[..|steps| - 1], m);
      StepKeepsInv(m, w', steps[|steps| - 1]);
    }
  }

  /** Step i of the run, from m to m', settled the history. */
  ghost predicate ReconciledAt(w: World, steps: seq<Step>, i: int, m: World, m': World) {
    0 <= i < |steps| && Reaches(w, steps[..i], m) && Next(m, m', steps[i]) && Reconciles(m, m', steps[i])
  }

  lemma ReconciledLast(w: World, steps: seq<Step>, m: World, w': World)
    requires steps != [] && Reaches(w, steps[..|steps| - 1], m) && Next(m, w', steps[|steps| - 1])
    requires Inv(m) && m.sub.reconcile && !w'.sub.reconcile
    ensures ReconciledAt(w, steps, |steps| - 1, m, w')
  {
    ClearedOnlyWhenReconciled(m, w', steps[|steps| - 1]);
  }

  lemma ReconciledEarlier(w: World, steps: seq<Step>, n: nat, i: int, m: World, m': World)
    requires n <= |steps| && ReconciledAt(w, steps[..n], i, m, m')
    ensures ReconciledAt(w, steps, i, m, m')
  {
    assert steps[..n][..i] == steps[..i] && steps[..n][i] == steps[i];
  }

  /** A raised flag stays raised, through paging, failures, rewinds, delivery and disabling,
      until a step of the run that settles the history. */
  lemma {:induction false} RaisedUntilReconciled(w: World, steps: seq<Step>, w': World)
    requires Inv(w) && w.sub.reconcile && Reaches(w, steps, w') && !w'.sub.reconcile
    ensures exists i, m, m' :: ReconciledAt(w, steps, i, m, m')
  {
    if steps != [] {
      var n := |steps| - 1;
      var m :| Reaches(w, steps[..n], m) && Next(m, w', steps[n]);
      RunKeepsInv(w, steps[..n], m);
      if m.sub.reconcile {
        ReconciledLast(w, steps, m, w');
      } else {
        RaisedUntilReconciled(w, steps[..n], m);
        var i, a, b :| ReconciledAt(w, steps[..n], i, a, b);
        ReconciledEarlier(w, steps, n, i, a, b);
      }
    }
  }

  /** A detected fork raises the flag before anything else can fail. From then on, whatever
      runs, either it is still raised, and every update of the same enrolment that is in
      flight knows of it, or the history has been settled in between. */
  lemma ForkIsRemembered(w: World, check: Step, forked: World, steps: seq<Step>, w': World)
    requires Inv(w) && Next(w, forked, check) && check.Check? && forked.job.Some? && forked.job.value.detected
    requires Reaches(forked, steps, w')
    ensures forked.sub.reconcile && Inv(forked)
    ensures w'.sub.reconcile || exists i, m, m' :: ReconciledAt(forked, steps, i, m, m')
    ensures w'.sub.reconcile && w'.job.Some? && Same(w'.sub, w'.job.value) ==> w'.job.value.needs
  {
    StepKeepsInv(w, forked, check);
    RunKeepsInv(forked, steps, w');
    if !w'.sub.reconcile { RaisedUntilReconciled(forked, steps, w'); }
  }

  /** Contiguous ranges leave no block out. */
  lemma {:induction false} ContiguousCovers(ranges: seq<(int, int)>, origin: int, cursor: int, block: int)
    requires Contiguous(ranges, origin, cursor) && origin <= block <= cursor
    ensures exists i :: 0 <= i < |ranges| && ranges[i].0 <= block <= ranges[i].1
    decreases |ranges|
  {
    var last := |ranges| - 1;
    if block < ranges[last].0 {
      ContiguousCovers(ranges[..last], origin, ranges[last].0 - 1, block);
      var i :| 0 <= i < last && ranges[..last][i].0 <= block <= ranges[..last][i].1;
      assert ranges[i].0 <= block <= ranges[i].1;
    }
  }

  // ---------------------------------------------------------------- the update, step by step

  /** A fork is detected exactly when there is a cursor block and the chain is shorter than it
      or shows another block there. Then the flag is raised, everything stored is to be read
      again, and the scan starts over before the anchor; otherwise nothing changes. */
  lemma ForkIsDetected(w: World, w': World, step: Step)
    requires Inv(w) && Next(w, w', step) && step.Check?
    ensures var job := w.job.value;
            var forked := job.cursorHash.Some? && (job.head.number < job.cursor || step.blockHash != job.cursorHash.value);
            && (forked && w.sub.enabled && w.sub.generation == job.generation ==>
                  && w'.job.Some? && w'.job.value.detected && w'.job.value.needs && w'.sub.reconcile
                  && w'.job.value.cursor == (if w.sub.anchor < job.head.number then w.sub.anchor else job.head.number) - 1
                  && (forall op :: op in w.sub.ops <==> op in w'.job.value.reconcileIds))
            && (forked && !(w.sub.enabled && w.sub.generation == job.generation) ==> w'.job.None? && w'.sub == w.sub)
            && (!forked ==> w'.sub == w.sub && w'.job.Some? && w'.job.value.cursor == job.cursor && w'.job.value.needs == job.needs)
  {
  }

  /** An update starts from the stored cursor and the stored flag. */
  lemma UpdateStartsFromRow(w: World, w': World, step: Step)
    requires Next(w, w', step) && step.Begin?
    ensures w'.sub == w.sub && w'.job.Some? && w'.job.value.cursor == w.sub.cursor && w'.job.value.cursorHash == w.sub.cursorHash
    ensures w'.job.value.needs == w.sub.reconcile && w'.job.value.generation == w.sub.generation && !w'.job.value.detected
  {
  }

  predicate Ended(state: OpState) { state != Pending && state != Ready }

  /** A result seen while the logs up to it are not read yet must be looked at again. */
  lemma EarlyResultRaisesFlag(w: World, w': World, step: Step, op: OpId)
    requires Inv(w) && Next(w, w', step) && step.Observe? && w.sub.enabled && w.sub.generation == w.job.value.generation
    requires w.job.value.cursor < w.job.value.head.number
    requires op in step.listing || op in w.job.value.retry || (op == w.job.value.head.active && op != ZERO_HASH)
    requires op in w'.sub.ops && Ended(w'.sub.ops[op].state)
    ensures w'.sub.reconcile && w'.job.Some? && w'.job.value.needs
  {
    var job := w.job.value;
    var snap := SnapshotAt(job.head, FirstIds(job));
    var ids := Candidates(step.listing, job.retry, [], snap.active);
    var s1 := RecordAll(w.sub, snap, ids, step.now);
    assert op in ids;
    var i :| 0 <= i < |ids| && ids[i] == op;
    assert AnyTerminal(s1, ids);
    ObserveStartsUndetected(w);
    RecordAllEffect(w.sub, snap, ids, step.now);
  }

  lemma ObserveStartsUndetected(w: World)
    requires Inv(w) && w.job.Some? && Same(w.sub, w.job.value) && w.job.value.phase == Polled
    ensures !w.job.value.detected
  {
  }

  /** With the logs read up to the observed head, what is seen there raises no flag. */
  lemma ResultAtHeadRaisesNothing(w: World, w': World, step: Step)
    requires Inv(w) && Next(w, w', step) && step.Observe? && w.job.value.head.number <= w.job.value.cursor
    ensures w'.sub.reconcile == w.sub.reconcile && w'.job.Some? && w'.job.value.needs == w.job.value.needs
  {
    var job := w.job.value;
    if Same(w.sub, job) {
      var snap := SnapshotAt(job.head, FirstIds(job));
      ObserveStartsUndetected(w);
      RecordAllEffect(w.sub, snap, Candidates(step.listing, job.retry, [], snap.active), step.now);
    }
  }

  /** Every recovery whose schedule is replayed is read before the commit, and stored with its
      transaction unless the chain does not know it any more. */
  lemma ReplayedIsStored(w: World, w': World, step: Step, k: nat)
    requires Inv(w) && Next(w, w', step) && step.Commit? && w.sub.enabled && w.sub.generation == w.job.value.generation
    requires k < |step.logs| && step.logs[k].scheduled && step.logs[k].op != ZERO_HASH
    requires w.job.value.head.storage(step.logs[k].op).scheduledAt != 0
    ensures var op := step.logs[k].op; op in w'.sub.ops && w'.sub.ops[op].txHash.Some?
  {
    var job := w.job.value;
    var snap := SnapshotAt(job.head, FinalIds(job, step.logs));
    var s1 := RecordAll(w.sub, snap, FinalCandidates(job, step.listing), step.now);
    assert step.logs[k] in step.logs;
    assert BaseIds(job) + seq(|step.logs|, i requires 0 <= i < |step.logs| => step.logs[i].op) == FinalIds(job, step.logs)
           ==> FinalIds(job, step.logs)[|BaseIds(job)| + k] == step.logs[k].op;
    assert Known(snap, step.logs[k].op);
    LoggedIsStored(s1, snap, step.logs, PageEnd(job) == job.head.number, step.now, k);
  }

  lemma {:induction false} LoggedIsStored(s: Sub, snap: Snapshot, logs: seq<Log>, covers: bool, now: int, k: nat)
    requires k < |logs| && logs[k].scheduled && Known(snap, logs[k].op)
    ensures var s' := ApplyLogs(s, snap, logs, covers, now); logs[k].op in s'.ops && s'.ops[logs[k].op].txHash.Some?
    decreases |logs|
  {
    if k < |logs| - 1 { LoggedIsStored(s, snap, logs[..|logs| - 1], covers, now, k); }
  }

  /** The committing step reads exactly the blocks after the cursor, at most two thousand, and
      moves the cursor to the last of them; healthy means that it is the head. */
  lemma CommitMovesCursor(w: World, w': World, step: Step)
    requires Inv(w) && Next(w, w', step) && step.Commit? && w.sub.enabled && w.sub.generation == w.job.value.generation
    ensures var job := w.job.value;
            var end := if job.head.number < job.cursor + 2000 then job.head.number else job.cursor + 2000;
            && w'.ranges != [] && w'.ranges[|w'.ranges| - 1] == (job.cursor + 1, end)
            && w'.sub.cursor == end && w'.sub.cursorHash == Some(step.endHash) && w'.job.None?
            && w'.sub.status == (if end == job.head.number then Healthy else CatchingUp)
            && (end == job.head.number ==> !w'.sub.reconcile)
  {
    CommittedEffect(w.sub, w.job.value, step.listing, step.logs, step.endHash, step.now);
    CommitSetsHealth(w.sub, w.job.value, step.listing, step.logs, step.endHash, step.now);
  }

  lemma CommitSetsHealth(s: Sub, job: Job, listing: seq<OpId>, logs: seq<Log>, endHash: Hash, now: int)
    ensures var s' := Committed(s, job, listing, logs, endHash, now);
            s'.cursorHash == Some(endHash) && s'.status == if PageEnd(job) == job.head.number then Healthy else CatchingUp
  {
  }

  /** Two notices of a detected fork: none is missed, and the same head is announced once. */
  lemma ForkIsAnnounced(w: World, w': World, step: Step)
    requires Inv(w) && Next(w, w', step) && step.ObserveAgain? && w.job.value.detected
    requires w.sub.enabled && w.sub.generation == w.job.value.generation
    ensures exists i :: 0 <= i < |w'.sub.outbox| && w'.sub.outbox[i].key == ReorgKey(w.job.value.head.hash)
                        && w'.sub.outbox[i].generation == w.sub.generation
  {
    var job := w.job.value;
    var snap := SnapshotAt(job.head, BaseIds(job));
    var cands := Candidates(step.listing, job.retry, job.reconcileIds, snap.active);
    QueuedKeyStays(w.sub, ReorgKey(job.head.hash), snap, cands, step.now);
    var s1 := RecordAll(Queue(w.sub, ReorgKey(job.head.hash), ReorgAlert, None, step.now), snap, cands, step.now);
    assert w'.sub.outbox == s1.outbox;
    var i :| 0 <= i < |s1.outbox| && s1.outbox[i].key == ReorgKey(job.head.hash) && s1.outbox[i].generation == s1.generation;
  }

  lemma QueuedKeyStays(s: Sub, key: Key, snap: Snapshot, ids: seq<OpId>, now: int)
    requires Wf(s) && s.enabled && key.ReorgKey?
    ensures var s' := RecordAll(Queue(s, key, ReorgAlert, None, now), snap, ids, now); KeyTaken(s', key) && s'.generation == s.generation
  {
    var s0 := Queue(s, key, ReorgAlert, None, now);
    ReorgNoticeEffect(s, key.hash, now);
    if !KeyTaken(s, key) { assert s0.outbox[|s.outbox|].key == key; }
    KeysStay(s0, snap, ids, now, key);
    RecordAllEffect(s0, snap, ids, now);
  }

  lemma {:induction false} KeysStay(s: Sub, snap: Snapshot, ids: seq<OpId>, now: int, key: Key)
    requires Wf(s) && s.enabled && KeyTaken(s, key)
    ensures KeyTaken(RecordAll(s, snap, ids, now), key)
  {
    if ids != [] {
      var s1 := RecordAll(s, snap, ids[..|ids| - 1], now);
      KeysStay(s, snap, ids[..|ids| - 1], now, key);
      RecordAllEffect(s, snap, ids[..|ids| - 1], now);
      RecordOneEffect(s1, snap, ids[|ids| - 1], now);
      var i :| 0 <= i < |s1.outbox| && s1.outbox[i].key == key && s1.outbox[i].generation == s1.generation;
      assert Kept(s1.outbox[i], RecordOne(s1, snap, ids[|ids| - 1], now).outbox[i], ids[|ids| - 1]);
    }
  }

  /** A replayed schedule log gives the row its transaction and its place, and says of the
      state nothing that the snapshot does not; a result replayed before the head is reached
      must be looked at again. */
  lemma LogEnriches(s: Sub, snap: Snapshot, e: Log, covers: bool, now: int)
    requires s.enabled
    ensures var s' := ApplyLog(s, snap, e, covers, now);
            if e.scheduled && e.op in snap.schedules && snap.schedules[e.op].scheduledAt != 0 then
              && e.op in s'.ops
              && var row := s'.ops[e.op];
              && row.txHash == Some(e.txHash) && row.blockNumber == e.blockNumber && row.blockHash == e.blockHash
              && row.executableAt == e.executableAt && row.scheduledAt == snap.schedules[e.op].scheduledAt
              && row.expiresAt == (if e.op in s.ops then s.ops[e.op].expiresAt else 0)
              && row.state == StateFor(snap, e.op, Lookup(s.ops, e.op))
              && (Ended(row.state) && !covers ==> s'.reconcile)
              && (e.op in s.ops ==> s'.outbox == s.outbox)
            else s' == s
  {
  }

  // ---------------------------------------------------------------- enrolling and disabling

  /** A new enrolment: the generation counts up, the scan starts at the enrolment block, and
      the confirmation is the only notice that is not about the current operation. */
  lemma EnrolmentStartsOver(w: World, w': World, step: Step)
    requires Inv(w) && Next(w, w', step) && step.UserEnrol?
    ensures w'.sub.enabled && w'.sub.generation == w.sub.generation + 1
    ensures w'.sub.cursor == step.head.number - 1 && w'.sub.anchor == step.head.number && w'.sub.cursorHash == None && w'.sub.status == CatchingUp
    ensures |w.sub.outbox| < |w'.sub.outbox|
    ensures forall i :: 0 <= i < |w.sub.outbox| ==> w'.sub.outbox[i].state != Waiting
    ensures w'.sub.outbox[|w.sub.outbox|].kind == Enabled && w'.sub.outbox[|w.sub.outbox|].state == Waiting
    ensures w'.sub.reconcile <==> exists op :: op in w'.sub.ops && Ended(w'.sub.ops[op].state)
  {
    EnrolledEffect(w.sub, step.head, step.now);
    EnrolledOutbox(w.sub, step.head, step.now);
    EnrolmentFlag(w.sub, step.head, step.now);
  }

  /** A result that is seen at enrolment must be looked at again. */
  lemma EnrolmentFlag(s: Sub, head: Head, now: int)
    requires Wf(s)
    ensures var s' := Enrolled(s, head, now); s'.reconcile <==> exists op :: op in s'.ops && Ended(s'.ops[op].state)
  {
    var s1 := Queue(Reenrol(s, head.number), EnabledKey(now), Enabled, None, now);
    var ids := Candidates([], [], [], head.active);
    var s2 := RecordAll(s1, SnapshotAt(head, []), ids, now);
    FreshEnrolment(s, head, now);
    EnrolledEffect(s, head, now);
    RecordAllEffect(s1, SnapshotAt(head, []), ids, now);
    if exists op :: op in s2.ops && Ended(s2.ops[op].state) {
      var op :| op in s2.ops && Ended(s2.ops[op].state);
      assert op == head.active && op in ids;
    }
  }

  lemma EnrolmentIsConfirmed(s: Sub, head: Head, now: int)
    requires Wf(s)
    ensures var s1 := Queue(Reenrol(s, head.number), EnabledKey(now), Enabled, None, now);
            s1.outbox == SupersedeAll(s.outbox) + [Notice(EnabledKey(now), s.generation + 1, Enabled, None, Waiting, 0, now, None)]
  {
    assert forall i :: 0 <= i < |s.outbox| ==> SupersedeAll(s.outbox)[i].generation == s.outbox[i].generation <= s.generation;
    assert !KeyTaken(Reenrol(s, head.number), EnabledKey(now));
  }

  lemma EnrolledOutbox(s: Sub, head: Head, now: int)
    requires Wf(s)
    ensures var s' := Enrolled(s, head, now);
            && |s.outbox| < |s'.outbox|
            && (forall i :: 0 <= i < |s.outbox| ==> s'.outbox[i] == SupersedeAll(s.outbox)[i])
            && s'.outbox[|s.outbox|] == Notice(EnabledKey(now), s.generation + 1, Enabled, None, Waiting, 0, now, None)
  {
    var s1 := Queue(Reenrol(s, head.number), EnabledKey(now), Enabled, None, now);
    EnrolmentIsConfirmed(s, head, now);
    FreshEnrolment(s, head, now);
    assert forall i :: 0 <= i < |s.outbox| ==> s1.outbox[i].generation == s.outbox[i].generation <= s.generation;
    OutboxStays(s1, SnapshotAt(head, []), Candidates([], [], [], head.active), now);
  }

  /** Recording leaves notices that are of no operation, or of an earlier enrolment, alone. */
  lemma {:induction false} OutboxStays(s: Sub, snap: Snapshot, ids: seq<OpId>, now: int)
    requires Wf(s) && s.enabled
    ensures var s' := RecordAll(s, snap, ids, now);
            |s.outbox| <= |s'.outbox|
            && forall i :: 0 <= i < |s.outbox| && (s.outbox[i].op == None || s.outbox[i].generation != s.generation) ==> s'.outbox[i] == s.outbox[i]
  {
    if ids != [] {
      var s1 := RecordAll(s, snap, ids[..|ids| - 1], now);
      OutboxStays(s, snap, ids[..|ids| - 1], now);
      RecordAllEffect(s, snap, ids[..|ids| - 1], now);
      RecordOneEffect(s1, snap, ids[|ids| - 1], now);
      var s2 := RecordOne(s1, snap, ids[|ids| - 1], now);
      forall i | 0 <= i < |s.outbox| && (s.outbox[i].op == None || s.outbox[i].generation != s.generation)
        ensures s2.outbox[i] == s.outbox[i]
      {
        assert Kept(s1.outbox[i], s2.outbox[i], ids[|ids| - 1]);
      }
    }
  }
}
