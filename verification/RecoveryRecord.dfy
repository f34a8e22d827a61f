/** Recording a chain observation: the classifier of one operation, the transition of its
    row and the notices that it queues. */
module RecoveryRecord {
  import opened Answers
  import opened RecoveryTables

  const DAY := 86400

  datatype Schedule = Schedule(scheduledAt: int, executed: bool, canceled: bool)

  /** The module state of one account at one block, for the operations asked about. */
  datatype Snapshot = Snapshot(number: int, hash: Hash, timestamp: int, installed: bool, delay: int, expiration: int,
                               active: OpId, schedules: map<OpId, Schedule>)

  predicate Known(snap: Snapshot, op: OpId) {
    op in snap.schedules && snap.schedules[op].scheduledAt != 0
  }

  function StateFor(snap: Snapshot, op: OpId, previous: Option<Operation>): OpState {
    if !Known(snap, op) then Orphaned
    else
      var schedule := snap.schedules[op];
      if schedule.executed then Executed
      else if schedule.canceled then Canceled
      else if !snap.installed || snap.active != op then
        if previous.Some? && 0 < previous.value.expiresAt <= snap.timestamp then Expired else Invalidated
      else if schedule.scheduledAt + snap.delay + snap.expiration <= snap.timestamp then Expired
      else if schedule.scheduledAt + snap.delay <= snap.timestamp then Ready
      else Pending
  }

  /** The account's active operation. Its schedule is part of every snapshot. */
  predicate Current(snap: Snapshot, op: OpId) {
    snap.installed && snap.active == op && op in snap.schedules
  }

  predicate Skipped(snap: Snapshot, op: OpId, prior: Option<Operation>) {
    prior.None? && (!Current(snap, op) || !Known(snap, op))
  }

  function RowFor(snap: Snapshot, op: OpId, prior: Option<Operation>): Operation
    requires !Skipped(snap, op, prior)
  {
    var scheduledAt := if Known(snap, op) then snap.schedules[op].scheduledAt else prior.value.scheduledAt;
    var current := Current(snap, op);
    var executableAt := if current then snap.schedules[op].scheduledAt + snap.delay else prior.value.executableAt;
    var expiresAt := if current then executableAt + snap.expiration else prior.value.expiresAt;
    Operation(scheduledAt, executableAt, expiresAt, StateFor(snap, op, prior),
              if prior.Some? then prior.value.txHash else None,
              if prior.Some? then prior.value.blockNumber else snap.number,
              if prior.Some? then prior.value.blockHash else snap.hash)
  }

  predicate ReminderDue(snap: Snapshot, row: Operation) {
    row.state == Pending && row.executableAt - Min(DAY, snap.delay / 2) <= snap.timestamp
  }

  /** Notices that keep a stored state announced. */
  function Repair(s: Sub, op: OpId, prior: Option<Operation>, state: OpState, now: int): Sub {
    var s1 := if prior.Some? && Active(prior.value.state) && Active(state) then QueueUnsent(s, op, Scheduled, now) else s;
    if prior.Some? && prior.value.state == state && !Active(state) then RearmTerminal(s1, op, now) else s1
  }

  /** Notices for what has changed. */
  function Announce(s: Sub, op: OpId, prior: Option<Operation>, row: Operation, now: int): Sub {
    var active := Active(row.state);
    var s1 := if prior.Some? && active && prior.value.executableAt != row.executableAt then QueueTransition(s, op, TimingChanged, now) else s;
    var kind := if active then Scheduled else Result(row.state);
    var s2 := if prior.None? && row.state != Orphaned then Queue(s1, Plain(op, kind), kind, Some(op), now) else s1;
    var s3 := if prior.Some? && !Active(prior.value.state) && active then QueueTransition(s2, op, Scheduled, now) else s2;
    if prior.Some? && prior.value.state != row.state && !active then QueueTransition(s3, op, Result(row.state), now) else s3
  }

  function Remind(s: Sub, snap: Snapshot, op: OpId, row: Operation, now: int): Sub {
    if ReminderDue(snap, row) && HasNotice(s, op, Scheduled, Sent) then QueueUnsent(s, op, Reminder, now) else s
  }

  function RecordOne(s: Sub, snap: Snapshot, op: OpId, now: int): Sub {
    var prior := Lookup(s.ops, op);
    if Skipped(snap, op, prior) then s
    else
      var row := RowFor(snap, op, prior);
      var s1 := Repair(PutOperation(s, op, row), op, prior, row.state, now);
      Remind(Announce(s1, op, prior, row, now), snap, op, row, now)
  }

  function RecordAll(s: Sub, snap: Snapshot, ids: seq<OpId>, now: int): Sub {
    if ids == [] then s else RecordOne(RecordAll(s, snap, ids[..|ids| - 1], now), snap, ids[|ids| - 1], now)
  }

  // ---------------------------------------------------------------- what one recording leaves behind

  /** The operation is announced as far as the snapshot and the delivered notices ask for;
      recording the same snapshot again has nothing to do. */
  ghost predicate Settled(s: Sub, snap: Snapshot, op: OpId) {
    var prior := Lookup(s.ops, op);
    || Skipped(snap, op, prior)
    || (&& prior.Some? && RowFor(snap, op, prior) == prior.value
        && (Active(prior.value.state) ==> Live(s, op, Scheduled))
        && (!Active(prior.value.state) ==> Unnotified(s, op) == -1)
        && (ReminderDue(snap, prior.value) && HasNotice(s, op, Scheduled, Sent) ==> Live(s, op, Reminder)))
  }

  lemma PutEffect(s: Sub, snap: Snapshot, op: OpId)
    requires Wf(s) && !Skipped(snap, op, Lookup(s.ops, op))
    ensures var row := RowFor(snap, op, Lookup(s.ops, op));
            var s' := PutOperation(s, op, row);
            Wf(s') && Touches(s, s', op) && s'.ops == s.ops[op := row]
  {
  }

  lemma RepairEffect(s: Sub, op: OpId, prior: Option<Operation>, now: int)
    requires Wf(s) && s.enabled && op in s.ops
    ensures var s' := Repair(s, op, prior, s.ops[op].state, now);
            && Wf(s') && Touches(s, s', op) && s'.ops == s.ops
            && (prior.Some? && Active(prior.value.state) && Active(s.ops[op].state) ==> Live(s', op, Scheduled))
            && (prior.Some? && prior.value.state == s.ops[op].state && !Active(s.ops[op].state) ==> Unnotified(s', op) == -1)
  {
    if Active(s.ops[op].state) {
      if prior.Some? && Active(prior.value.state) {
        QueueUnsentEffect(s, op, Scheduled, now);
      }
    } else if prior.Some? && prior.value.state == s.ops[op].state {
      RearmTerminalEffect(s, op, now);
    }
  }

  /** A waiting notice of the stored terminal state in last place leaves nothing to re-arm. */
  lemma WaitingLastMeansNotified(s: Sub, op: OpId)
    requires op in s.ops && s.outbox != []
    requires Matches(s.outbox[|s.outbox| - 1], s.generation, op, OfKind(Result(s.ops[op].state)))
    requires s.outbox[|s.outbox| - 1].state == Waiting
    ensures Unnotified(s, op) == -1
  {
  }

  lemma AnnounceEffect(s: Sub, op: OpId, prior: Option<Operation>, now: int)
    requires Wf(s) && s.enabled && op in s.ops
    requires prior.Some? && Active(prior.value.state) && Active(s.ops[op].state) ==> Live(s, op, Scheduled)
    requires prior.Some? && prior.value.state == s.ops[op].state && !Active(s.ops[op].state) ==> Unnotified(s, op) == -1
    requires prior.None? ==> s.ops[op].state != Orphaned && forall i :: 0 <= i < |s.outbox| ==> !Matches(s.outbox[i], s.generation, op, Any)
    ensures var s' := Announce(s, op, prior, s.ops[op], now);
            && Wf(s') && Touches(s, s', op) && s'.ops == s.ops
            && (Active(s.ops[op].state) ==> Live(s', op, Scheduled))
            && (!Active(s.ops[op].state) ==> Unnotified(s', op) == -1)
  {
    var row := s.ops[op];
    if prior.None? {
      var kind := if Active(row.state) then Scheduled else Result(row.state);
      QueueEffect(s, Plain(op, kind), kind, op, now);
      assert !KeyTaken(s, Plain(op, kind)) by {
        assert forall i :: 0 <= i < |s.outbox| ==> KeyFits(s.outbox[i], i);
      }
      if !Active(row.state) {
        WaitingLastMeansNotified(Queue(s, Plain(op, kind), kind, Some(op), now), op);
      }
    } else if Active(row.state) {
      AnnounceActive(s, op, prior.value, now);
    } else if prior.value.state != row.state {
      QueueTransitionEffect(s, op, Result(row.state), now);
      WaitingLastMeansNotified(QueueTransition(s, op, Result(row.state), now), op);
    }
  }

  lemma TimingIsAnnounced(s: Sub, op: OpId, prior: Operation, now: int)
    requires Wf(s) && s.enabled && op in s.ops
    requires Active(prior.state) ==> Live(s, op, Scheduled)
    ensures var s' := if prior.executableAt != s.ops[op].executableAt then QueueTransition(s, op, TimingChanged, now) else s;
            && Wf(s') && Touches(s, s', op) && s'.ops == s.ops
            && (Active(prior.state) ==> Live(s', op, Scheduled))
  {
    if prior.executableAt != s.ops[op].executableAt {
      var s' := QueueTransition(s, op, TimingChanged, now);
      QueueTransitionEffect(s, op, TimingChanged, now);
      if Active(prior.state) { LiveStays(s, s', op, op, Scheduled); }
    }
  }

  lemma AnnounceActive(s: Sub, op: OpId, prior: Operation, now: int)
    requires Wf(s) && s.enabled && op in s.ops && Active(s.ops[op].state)
    requires Active(prior.state) ==> Live(s, op, Scheduled)
    ensures var s' := Announce(s, op, Some(prior), s.ops[op], now);
            Wf(s') && Touches(s, s', op) && s'.ops == s.ops && Live(s', op, Scheduled)
  {
    var s1 := if prior.executableAt != s.ops[op].executableAt then QueueTransition(s, op, TimingChanged, now) else s;
    TimingIsAnnounced(s, op, prior, now);
    if !Active(prior.state) {
      ResumedIsLive(s1, op, now);
      TouchesTrans(s, s1, QueueTransition(s1, op, Scheduled, now), op);
    }
  }

  lemma ResumedIsLive(s: Sub, op: OpId, now: int)
    requires Wf(s) && s.enabled && op in s.ops
    ensures var s' := QueueTransition(s, op, Scheduled, now);
            Wf(s') && Touches(s, s', op) && Live(s', op, Scheduled)
  {
    QueueTransitionEffect(s, op, Scheduled, now);
  }

  lemma ReminderStep(s: Sub, op: OpId, now: int)
    requires Wf(s) && s.enabled && op in s.ops && Live(s, op, Scheduled)
    ensures var s' := QueueUnsent(s, op, Reminder, now);
            Wf(s') && Touches(s, s', op) && s'.ops == s.ops && Live(s', op, Scheduled) && Live(s', op, Reminder)
  {
    QueueUnsentEffect(s, op, Reminder, now);
    LiveStays(s, QueueUnsent(s, op, Reminder, now), op, op, Scheduled);
  }

  lemma RemindEffect(s: Sub, snap: Snapshot, op: OpId, now: int)
    requires Wf(s) && s.enabled && op in s.ops
    requires Active(s.ops[op].state) ==> Live(s, op, Scheduled)
    requires !Active(s.ops[op].state) ==> Unnotified(s, op) == -1
    ensures var s' := Remind(s, snap, op, s.ops[op], now);
            && Wf(s') && Touches(s, s', op) && s'.ops == s.ops
            && (Active(s.ops[op].state) ==> Live(s', op, Scheduled))
            && (!Active(s.ops[op].state) ==> Unnotified(s', op) == -1)
            && (ReminderDue(snap, s.ops[op]) && HasNotice(s', op, Scheduled, Sent) ==> Live(s', op, Reminder))
  {
    if ReminderDue(snap, s.ops[op]) && HasNotice(s, op, Scheduled, Sent) { ReminderStep(s, op, now); }
  }

  /** Recording settles the operation, and only touches its own row and notices. */
  lemma RecordOneEffect(s: Sub, snap: Snapshot, op: OpId, now: int)
    requires Wf(s) && s.enabled
    ensures var s' := RecordOne(s, snap, op, now);
            Wf(s') && Touches(s, s', op) && Settled(s', snap, op)
    ensures op in RecordOne(s, snap, op, now).ops ==> RecordOne(s, snap, op, now).ops[op] == RowFor(snap, op, Lookup(s.ops, op))
  {
    var prior := Lookup(s.ops, op);
    if !Skipped(snap, op, prior) {
      var row := RowFor(snap, op, prior);
      var s0 := PutOperation(s, op, row);
      PutEffect(s, snap, op);
      if prior.None? {
        assert forall i :: 0 <= i < |s0.outbox| ==> !Matches(s0.outbox[i], s0.generation, op, Any);
      }
      var s1 := Repair(s0, op, prior, row.state, now);
      RepairEffect(s0, op, prior, now);
      var s2 := Announce(s1, op, prior, row, now);
      AnnounceEffect(s1, op, prior, now);
      var s3 := Remind(s2, snap, op, row, now);
      RemindEffect(s2, snap, op, now);
      TouchesTrans(s, s0, s1, op);
      TouchesTrans(s, s1, s2, op);
      TouchesTrans(s, s2, s3, op);
      RowIsStable(snap, op, prior);
    }
  }

  /** Classifying a recorded row again gives the same row. */
  lemma RowIsStable(snap: Snapshot, op: OpId, prior: Option<Operation>)
    requires !Skipped(snap, op, prior)
    ensures RowFor(snap, op, Some(RowFor(snap, op, prior))) == RowFor(snap, op, prior)
  {
  }

  /** A settled operation is not changed by recording the same snapshot again. */
  lemma SettledIsFixed(s: Sub, snap: Snapshot, op: OpId, now: int)
    requires s.enabled && Settled(s, snap, op)
    ensures RecordOne(s, snap, op, now) == s
  {
    var prior := Lookup(s.ops, op);
    if !Skipped(snap, op, prior) {
      var row := RowFor(snap, op, prior);
      assert PutOperation(s, op, row) == s;
      assert Repair(s, op, prior, row.state, now) == s;
      assert Announce(s, op, prior, row, now) == s;
    }
  }

  lemma LastOfSame(a: seq<Notice>, b: seq<Notice>, generation: nat, op: OpId, f: Filter)
    requires |a| <= |b|
    requires forall i :: 0 <= i < |a| ==> Matches(a[i], generation, op, f) == Matches(b[i], generation, op, f)
    requires forall i :: |a| <= i < |b| ==> !Matches(b[i], generation, op, f)
    ensures LastOf(a, generation, op, f) == LastOf(b, generation, op, f)
  {
    var x, y := LastOf(a, generation, op, f), LastOf(b, generation, op, f);
    assert 0 <= y ==> y < |a| && Matches(a[y], generation, op, f);
    assert 0 <= x ==> Matches(b[x], generation, op, f);
  }

  lemma ForeignNotice(a: Sub, b: Sub, other: OpId, op: OpId, i: nat)
    requires Touches(a, b, other) && other != op
    ensures i < |a.outbox| ==> forall f :: Matches(a.outbox[i], a.generation, op, f) == Matches(b.outbox[i], a.generation, op, f)
    ensures i < |a.outbox| && a.outbox[i].op == Some(op) ==> b.outbox[i] == a.outbox[i]
    ensures |a.outbox| <= i < |b.outbox| ==> b.outbox[i].op != Some(op)
  {
    if i < |a.outbox| { assert Kept(a.outbox[i], b.outbox[i], other); }
  }

  lemma ForeignNotices(a: Sub, b: Sub, other: OpId, op: OpId)
    requires Touches(a, b, other) && other != op
    ensures |a.outbox| <= |b.outbox|
    ensures forall i, f :: 0 <= i < |a.outbox| ==> Matches(a.outbox[i], a.generation, op, f) == Matches(b.outbox[i], a.generation, op, f)
    ensures forall i, f :: |a.outbox| <= i < |b.outbox| ==> !Matches(b.outbox[i], a.generation, op, f)
    ensures forall i :: 0 <= i < |a.outbox| && a.outbox[i].op == Some(op) ==> b.outbox[i] == a.outbox[i]
  {
    forall i: nat
      ensures i < |a.outbox| ==> forall f :: Matches(a.outbox[i], a.generation, op, f) == Matches(b.outbox[i], a.generation, op, f)
      ensures i < |a.outbox| && a.outbox[i].op == Some(op) ==> b.outbox[i] == a.outbox[i]
      ensures |a.outbox| <= i < |b.outbox| ==> b.outbox[i].op != Some(op)
    {
      ForeignNotice(a, b, other, op, i);
    }
  }

  /** Recording another operation leaves this one's queries as they were. */
  lemma ForeignQueries(a: Sub, b: Sub, other: OpId, op: OpId, kind: Kind, state: NoticeState)
    requires Touches(a, b, other) && other != op
    ensures HasNotice(a, op, kind, state) == HasNotice(b, op, kind, state)
    ensures Unnotified(a, op) == Unnotified(b, op)
  {
    ForeignNotices(a, b, other, op);
    SameNotices(a, b, op, kind, state);
    if op in a.ops {
      LastOfSame(a.outbox, b.outbox, a.generation, op, OfKind(Result(a.ops[op].state)));
      LastOfSame(a.outbox, b.outbox, a.generation, op, AlreadySent);
    }
  }

  lemma SameNotices(a: Sub, b: Sub, op: OpId, kind: Kind, state: NoticeState)
    requires |a.outbox| <= |b.outbox| && a.generation == b.generation
    requires forall i :: |a.outbox| <= i < |b.outbox| ==> !Matches(b.outbox[i], a.generation, op, OfKind(kind))
    requires forall i :: 0 <= i < |a.outbox| ==> Matches(a.outbox[i], a.generation, op, OfKind(kind)) == Matches(b.outbox[i], a.generation, op, OfKind(kind))
    requires forall i :: 0 <= i < |a.outbox| && a.outbox[i].op == Some(op) ==> b.outbox[i] == a.outbox[i]
    ensures HasNotice(a, op, kind, state) == HasNotice(b, op, kind, state)
  {
    if HasNotice(a, op, kind, state) {
      var i :| 0 <= i < |a.outbox| && Matches(a.outbox[i], a.generation, op, OfKind(kind)) && a.outbox[i].state == state;
      assert Matches(b.outbox[i], b.generation, op, OfKind(kind));
    }
  }

  lemma SettledStays(a: Sub, b: Sub, snap: Snapshot, other: OpId, op: OpId)
    requires Touches(a, b, other) && other != op && Settled(a, snap, op)
    ensures Settled(b, snap, op)
  {
    ForeignQueries(a, b, other, op, Scheduled, Sent);
    ForeignQueries(a, b, other, op, Scheduled, Waiting);
    ForeignQueries(a, b, other, op, Reminder, Sent);
    ForeignQueries(a, b, other, op, Reminder, Waiting);
  }

  /** What recording a list of operations does: everything listed is settled, everything
      else keeps its row. */
  ghost predicate Recorded(s: Sub, s': Sub, snap: Snapshot, ids: seq<OpId>) {
    && s' == s.(ops := s'.ops, outbox := s'.outbox)
    && (forall op :: op in ids ==> Settled(s', snap, op))
    && (forall op :: op in s.ops ==> op in s'.ops)
    && (forall op :: op in s'.ops && op !in ids ==> op in s.ops && s'.ops[op] == s.ops[op])
  }

  lemma {:induction false} RecordAllEffect(s: Sub, snap: Snapshot, ids: seq<OpId>, now: int)
    requires Wf(s) && s.enabled
    ensures Wf(RecordAll(s, snap, ids, now)) && Recorded(s, RecordAll(s, snap, ids, now), snap, ids)
  {
    if ids != [] {
      var init, last := ids[..|ids| - 1], ids[|ids| - 1];
      RecordAllEffect(s, snap, init, now);
      var s1 := RecordAll(s, snap, init, now);
      RecordOneEffect(s1, snap, last, now);
      var s2 := RecordOne(s1, snap, last, now);
      forall op | op in ids
        ensures Settled(s2, snap, op)
      {
        if op != last { SettledStays(s1, s2, snap, last, op); }
      }
    }
  }

  /** Recording the same observation again adds no notice and changes none. */
  lemma {:induction false} RecordingAgainChangesNothing(s: Sub, snap: Snapshot, ids: seq<OpId>, again: seq<OpId>, now: int, later: int)
    requires Wf(s) && s.enabled && (forall op :: op in again ==> op in ids)
    ensures var s' := RecordAll(s, snap, ids, now);
            RecordAll(s', snap, again, later) == s'
  {
    var s' := RecordAll(s, snap, ids, now);
    RecordAllEffect(s, snap, ids, now);
    if again != [] {
      RecordingAgainChangesNothing(s, snap, ids, again[..|again| - 1], now, later);
      SettledIsFixed(s', snap, again[|again| - 1], later);
    }
  }

  lemma WaitingStays(a: Sub, b: Sub, touched: OpId, op: OpId, kind: Kind)
    requires Touches(a, b, touched) && HasNotice(a, op, kind, Waiting)
    ensures HasNotice(b, op, kind, Waiting)
  {
    var i :| 0 <= i < |a.outbox| && Matches(a.outbox[i], a.generation, op, OfKind(kind)) && a.outbox[i].state == Waiting;
    assert Kept(a.outbox[i], b.outbox[i], touched);
    assert Matches(b.outbox[i], b.generation, op, OfKind(kind));
  }

  /** The kind under which a state is announced. */
  function KindOf(state: OpState): Kind { if Active(state) then Scheduled else Result(state) }

  /** Every changed observation gets one fresh notice: a first sight, a new terminal result,
      a resumed operation, and a moved deadline. */
  lemma ChangeIsAnnounced(s: Sub, snap: Snapshot, op: OpId, now: int)
    requires Wf(s) && s.enabled && !Skipped(snap, op, Lookup(s.ops, op))
    ensures var prior, row, s' := Lookup(s.ops, op), RowFor(snap, op, Lookup(s.ops, op)), RecordOne(s, snap, op, now);
            && (prior.None? || (prior.value.state != row.state && !(Active(prior.value.state) && Active(row.state))) ==>
                  HasNotice(s', op, KindOf(row.state), Waiting))
            && (prior.Some? && Active(row.state) && prior.value.executableAt != row.executableAt ==>
                  HasNotice(s', op, TimingChanged, Waiting))
  {
    var prior, row := Lookup(s.ops, op), RowFor(snap, op, Lookup(s.ops, op));
    var s0 := PutOperation(s, op, row);
    PutEffect(s, snap, op);
    var s1 := Repair(s0, op, prior, row.state, now);
    RepairEffect(s0, op, prior, now);
    TouchesTrans(s, s0, s1, op);
    if prior.None? {
      assert forall i :: 0 <= i < |s0.outbox| ==> !Matches(s0.outbox[i], s0.generation, op, Any);
    }
    var s2 := Announce(s1, op, prior, row, now);
    AnnounceEffect(s1, op, prior, now);
    AnnouncementWaits(s1, op, prior, now);
    RemindTouches(s2, snap, op, now);
    var s3 := Remind(s2, snap, op, row, now);
    if HasNotice(s2, op, KindOf(row.state), Waiting) { WaitingStays(s2, s3, op, op, KindOf(row.state)); }
    if HasNotice(s2, op, TimingChanged, Waiting) { WaitingStays(s2, s3, op, op, TimingChanged); }
  }

  lemma RemindTouches(s: Sub, snap: Snapshot, op: OpId, now: int)
    requires Wf(s) && op in s.ops
    ensures Touches(s, Remind(s, snap, op, s.ops[op], now), op)
  {
    QueueUnsentEffect(s, op, Reminder, now);
  }

  lemma AnnouncementWaits(s: Sub, op: OpId, prior: Option<Operation>, now: int)
    requires Wf(s) && s.enabled && op in s.ops
    requires prior.None? ==> s.ops[op].state != Orphaned && forall i :: 0 <= i < |s.outbox| ==> !Matches(s.outbox[i], s.generation, op, Any)
    ensures var row, s' := s.ops[op], Announce(s, op, prior, s.ops[op], now);
            && (prior.None? || (prior.value.state != row.state && !(Active(prior.value.state) && Active(row.state))) ==>
                  HasNotice(s', op, KindOf(row.state), Waiting))
            && (prior.Some? && Active(row.state) && prior.value.executableAt != row.executableAt ==>
                  HasNotice(s', op, TimingChanged, Waiting))
  {
    var row := s.ops[op];
    if prior.None? {
      assert forall i :: 0 <= i < |s.outbox| ==> KeyFits(s.outbox[i], i);
      QueueEffect(s, Plain(op, KindOf(row.state)), KindOf(row.state), op, now);
    } else if Active(row.state) {
      var s1 := s;
      if prior.value.executableAt != row.executableAt {
        s1 := QueueTransition(s, op, TimingChanged, now);
        QueueTransitionEffect(s, op, TimingChanged, now);
      }
      if !Active(prior.value.state) {
        QueueTransitionEffect(s1, op, Scheduled, now);
        if prior.value.executableAt != row.executableAt {
          WaitingStays(s1, QueueTransition(s1, op, Scheduled, now), op, op, TimingChanged);
        }
      }
    } else if prior.value.state != row.state {
      QueueTransitionEffect(s, op, Result(row.state), now);
    }
  }
}
