/** What one recording makes of a chain schedule, said in terms of the schedule alone: the
    stored row, its notices, and how both move with block time. */
module RecoverySchedule {
  import opened Answers
  import opened RecoveryTables
  import opened RecoveryRecord

  /** Recording gives the operation a row: it had one, or it is the active one and scheduled. */
  predicate Recordable(s: Sub, snap: Snapshot, op: OpId) {
    op in s.ops || (snap.installed && snap.active == op && op in snap.schedules && snap.schedules[op].scheduledAt != 0)
  }

  /** The state that a recording stores is decided by the schedule: unknown operations are
      orphaned; execution counts before cancellation; the active operation is pending, ready
      or expired by the block time; a replaced one expired if its deadline had passed. */
  lemma StateFollowsSchedule(s: Sub, snap: Snapshot, op: OpId, now: int)
    requires Wf(s) && s.enabled && Recordable(s, snap, op)
    ensures op in RecordOne(s, snap, op, now).ops
    ensures RecordOne(s, snap, op, now).ops[op].state == Orphaned <==> op !in snap.schedules || snap.schedules[op].scheduledAt == 0
    ensures op in snap.schedules && snap.schedules[op].scheduledAt != 0 ==>
              var sched, state := snap.schedules[op], RecordOne(s, snap, op, now).ops[op].state;
              && (state == Executed <==> sched.executed)
              && (state == Canceled <==> sched.canceled && !sched.executed)
              && (!sched.executed && !sched.canceled ==>
                    if snap.installed && snap.active == op then
                      var executable := sched.scheduledAt + snap.delay;
                      var expires := executable + snap.expiration;
                      && (state == Expired <==> expires <= snap.timestamp)
                      && (state == Ready <==> executable <= snap.timestamp < expires)
                      && (state == Pending <==> snap.timestamp < executable && snap.timestamp < expires)
                    else
                      && (state == Expired <==> op in s.ops && 0 < s.ops[op].expiresAt <= snap.timestamp)
                      && (state == Invalidated <==> !(op in s.ops && 0 < s.ops[op].expiresAt <= snap.timestamp)))
  {
    RecordOneEffect(s, snap, op, now);
  }

  /** The deadlines of the active operation are computed anew; those of any other are the
      stored ones. Where and by which transaction it was scheduled is kept. */
  lemma RowFollowsSchedule(s: Sub, snap: Snapshot, op: OpId, now: int)
    requires Wf(s) && s.enabled && Recordable(s, snap, op)
    ensures op in RecordOne(s, snap, op, now).ops
    ensures var row := RecordOne(s, snap, op, now).ops[op];
            && (op in snap.schedules && snap.schedules[op].scheduledAt != 0 ==> row.scheduledAt == snap.schedules[op].scheduledAt)
            && (snap.installed && snap.active == op && op in snap.schedules ==>
                  row.executableAt == snap.schedules[op].scheduledAt + snap.delay && row.expiresAt == row.executableAt + snap.expiration)
            && (op in s.ops ==>
                  && row.txHash == s.ops[op].txHash && row.blockNumber == s.ops[op].blockNumber && row.blockHash == s.ops[op].blockHash
                  && (op !in snap.schedules || snap.schedules[op].scheduledAt == 0 ==> row.scheduledAt == s.ops[op].scheduledAt)
                  && (!(snap.installed && snap.active == op) ==> row.executableAt == s.ops[op].executableAt && row.expiresAt == s.ops[op].expiresAt))
            && (op !in s.ops ==> row.txHash == None && row.blockNumber == snap.number && row.blockHash == snap.hash)
  {
    RecordOneEffect(s, snap, op, now);
  }

  lemma NotRecordable(s: Sub, snap: Snapshot, op: OpId, now: int)
    requires !Recordable(s, snap, op)
    ensures RecordOne(s, snap, op, now) == s
  {
  }

  /** How far an operation has come. */
  function Stage(state: OpState): nat {
    match state case Pending => 0 case Ready => 1 case Expired => 2 case _ => 3
  }

  /** As block time passes, an active operation goes from pending over ready to expired and
      never back; execution and cancellation end it at any time. */
  lemma TimeOnlyMovesForward(s: Sub, s': Sub, snap: Snapshot, snap': Snapshot, op: OpId, now: int, later: int)
    requires Wf(s) && s.enabled && Recordable(s, snap, op) && Wf(s') && s'.enabled && Recordable(s', snap', op)
    requires snap.installed && snap.active == op && snap'.installed && snap'.active == op
    requires op in snap.schedules && op in snap'.schedules && snap.schedules[op].scheduledAt != 0
    requires snap'.schedules[op].scheduledAt == snap.schedules[op].scheduledAt
    requires snap.schedules[op].executed ==> snap'.schedules[op].executed
    requires snap.schedules[op].canceled ==> snap'.schedules[op].canceled
    requires snap'.delay == snap.delay && snap'.expiration == snap.expiration && 0 <= snap.expiration && snap.timestamp <= snap'.timestamp
    ensures op in RecordOne(s, snap, op, now).ops && op in RecordOne(s', snap', op, later).ops
    ensures Stage(RecordOne(s, snap, op, now).ops[op].state) <= Stage(RecordOne(s', snap', op, later).ops[op].state)
  {
    StateFollowsSchedule(s, snap, op, now);
    StateFollowsSchedule(s', snap', op, later);
  }

  // ---------------------------------------------------------------- what is announced

  /** The kind that the owner is told, from the schedule. */
  function Told(s: Sub, snap: Snapshot, op: OpId): Kind {
    if op !in snap.schedules || snap.schedules[op].scheduledAt == 0 then Result(Orphaned)
    else
      var sched := snap.schedules[op];
      if sched.executed then Result(Executed)
      else if sched.canceled then Result(Canceled)
      else if snap.installed && snap.active == op then
        if sched.scheduledAt + snap.delay + snap.expiration <= snap.timestamp then Result(Expired) else Scheduled
      else if op in s.ops && 0 < s.ops[op].expiresAt <= snap.timestamp then Result(Expired)
      else Result(Invalidated)
  }

  /** What the stored row has already been announced as. */
  function AlreadyTold(row: Operation): Kind {
    match row.state
    case Pending => Scheduled
    case Ready => Scheduled
    case other => Result(other)
  }

  lemma ToldIsStored(s: Sub, snap: Snapshot, op: OpId)
    requires Recordable(s, snap, op)
    ensures KindOf(RowFor(snap, op, Lookup(s.ops, op)).state) == Told(s, snap, op)
  {
  }

  /** A first sight and every change of what there is to tell leaves a waiting notice of just
      that kind; a moved deadline of an active operation one of its own. */
  lemma OwnerIsTold(s: Sub, snap: Snapshot, op: OpId, now: int)
    requires Wf(s) && s.enabled && Recordable(s, snap, op)
    ensures op !in s.ops || AlreadyTold(s.ops[op]) != Told(s, snap, op) ==> HasNotice(RecordOne(s, snap, op, now), op, Told(s, snap, op), Waiting)
    ensures op in s.ops && Told(s, snap, op) == Scheduled && s.ops[op].executableAt != snap.schedules[op].scheduledAt + snap.delay ==>
              HasNotice(RecordOne(s, snap, op, now), op, TimingChanged, Waiting)
  {
    ToldIsStored(s, snap, op);
    ChangeIsAnnounced(s, snap, op, now);
  }

  /** Still pending, and within a day of the deadline, or half the delay if that is shorter. */
  predicate DueForReminder(snap: Snapshot, op: OpId) {
    && op in snap.schedules
    && var executable := snap.schedules[op].scheduledAt + snap.delay;
    && snap.timestamp < executable
    && executable - (if snap.delay / 2 < 86400 then snap.delay / 2 else 86400) <= snap.timestamp
  }

  /** Added notices are of these kinds, and no notice of another kind is changed. */
  ghost predicate Tells(s: Sub, s': Sub, kinds: set<Kind>) {
    && s'.generation == s.generation && |s.outbox| <= |s'.outbox|
    && (forall i :: |s.outbox| <= i < |s'.outbox| ==> s'.outbox[i].kind in kinds && s'.outbox[i].state == Waiting)
    && (forall i :: 0 <= i < |s.outbox| ==> SameKind(s.outbox[i], s'.outbox[i]) && (s.outbox[i].kind in kinds || s'.outbox[i] == s.outbox[i]))
  }

  /** A notice keeps its kind and enrolment, stays waiting if it was, and is sent exactly if it was. */
  predicate SameKind(n: Notice, n': Notice) {
    && n'.kind == n.kind && n'.op == n.op && n'.generation == n.generation
    && (n.state == Waiting ==> n'.state == Waiting) && (n'.state == Sent <==> n.state == Sent)
  }

  lemma TellsTrans(a: Sub, b: Sub, c: Sub, j: set<Kind>, k: set<Kind>)
    requires Tells(a, b, j) && Tells(b, c, k)
    ensures Tells(a, c, j + k)
  {
    forall i | |a.outbox| <= i < |c.outbox|
      ensures c.outbox[i].kind in j + k && c.outbox[i].state == Waiting
    {
      if i < |b.outbox| { assert b.outbox[i].kind in j && SameKind(b.outbox[i], c.outbox[i]); }
    }
  }

  lemma QueueTells(s: Sub, key: Key, kind: Kind, op: Option<OpId>, now: int)
    ensures Tells(s, Queue(s, key, kind, op, now), {kind})
  {
  }

  lemma QueueUnsentTells(s: Sub, op: OpId, kind: Kind, now: int)
    ensures Tells(s, QueueUnsent(s, op, kind, now), {kind})
  {
    var q := Queue(s, Plain(op, kind), kind, Some(op), now);
    QueueTells(s, Plain(op, kind), kind, Some(op), now);
    assert Tells(q, RearmKey(q, Plain(op, kind), kind, now), {kind});
    TellsTrans(s, q, RearmKey(q, Plain(op, kind), kind, now), {kind}, {kind});
    assert {kind} + {kind} == {kind};
  }

  lemma TransitionTells(s: Sub, op: OpId, kind: Kind, now: int)
    ensures Tells(s, QueueTransition(s, op, kind, now), {kind})
  {
    QueueTells(s, Transition(op, LastOf(s.outbox, s.generation, op, Any) + 1, kind), kind, Some(op), now);
  }

  lemma RearmTells(s: Sub, op: OpId, now: int)
    requires op in s.ops
    ensures Tells(s, RearmTerminal(s, op, now), {Result(s.ops[op].state)})
  {
    var i := Unnotified(s, op);
    if 0 <= i { assert Matches(s.outbox[i], s.generation, op, OfKind(Result(s.ops[op].state))); }
  }

  lemma RepairTells(s: Sub, op: OpId, prior: Option<Operation>, now: int)
    requires op in s.ops
    ensures Tells(s, Repair(s, op, prior, s.ops[op].state, now), {KindOf(s.ops[op].state)})
  {
    QueueUnsentTells(s, op, Scheduled, now);
    RearmTells(s, op, now);
  }

  function ChangeKinds(row: Operation, prior: Option<Operation>): set<Kind> {
    {KindOf(row.state)} + if prior.Some? && Active(row.state) && prior.value.executableAt != row.executableAt then {TimingChanged} else {}
  }

  lemma AnnounceTells(s: Sub, op: OpId, prior: Option<Operation>, row: Operation, now: int)
    ensures Tells(s, Announce(s, op, prior, row, now), ChangeKinds(row, prior))
  {
    var kinds, kind := ChangeKinds(row, prior), KindOf(row.state);
    var moved := prior.Some? && Active(row.state) && prior.value.executableAt != row.executableAt;
    var s1 := if moved then QueueTransition(s, op, TimingChanged, now) else s;
    if moved { TransitionTells(s, op, TimingChanged, now); }
    assert Tells(s, s1, if moved then {TimingChanged} else {});
    if prior.None? && row.state != Orphaned { QueueTells(s1, Plain(op, kind), kind, Some(op), now); }
    TransitionTells(s1, op, kind, now);
    var s4 := Announce(s, op, prior, row, now);
    assert Tells(s1, s4, {kind});
    TellsTrans(s, s1, s4, if moved then {TimingChanged} else {}, {kind});
  }

  /** The kinds of notice that a recording may add or re-arm. */
  function Kinds(s: Sub, snap: Snapshot, op: OpId): set<Kind> {
    {Told(s, snap, op)}
    + (if op in s.ops && Told(s, snap, op) == Scheduled && s.ops[op].executableAt != snap.schedules[op].scheduledAt + snap.delay then {TimingChanged} else {})
    + (if Told(s, snap, op) == Scheduled && DueForReminder(snap, op) then {Reminder} else {})
  }

  /** Nothing else is told: every notice added or re-armed says what the schedule says, or that
      the deadline moved when it did, or reminds of it when that is due. */
  lemma NothingElseIsTold(s: Sub, snap: Snapshot, op: OpId, now: int)
    requires Recordable(s, snap, op)
    ensures Tells(s, RecordOne(s, snap, op, now), Kinds(s, snap, op))
  {
    var prior := Lookup(s.ops, op);
    var row := RowFor(snap, op, prior);
    ToldIsStored(s, snap, op);
    var s0 := PutOperation(s, op, row);
    var s1 := Repair(s0, op, prior, row.state, now);
    RepairTells(s0, op, prior, now);
    var s2 := Announce(s1, op, prior, row, now);
    AnnounceTells(s1, op, prior, row, now);
    QueueUnsentTells(s2, op, Reminder, now);
    var s3 := Remind(s2, snap, op, row, now);
    var reminders: set<Kind> := if ReminderDue(snap, row) then {Reminder} else {};
    assert Tells(s2, s3, reminders);
    TellsTrans(s0, s1, s2, {KindOf(row.state)}, ChangeKinds(row, prior));
    TellsTrans(s0, s2, s3, {KindOf(row.state)} + ChangeKinds(row, prior), reminders);
    KindsCover(s, snap, op);
    assert Tells(s0, s3, Kinds(s, snap, op));
  }

  lemma KindsCover(s: Sub, snap: Snapshot, op: OpId)
    requires Recordable(s, snap, op)
    ensures var row := RowFor(snap, op, Lookup(s.ops, op));
            {KindOf(row.state)} + ChangeKinds(row, Lookup(s.ops, op)) + (if ReminderDue(snap, row) then {Reminder} else {}) <= Kinds(s, snap, op)
  {
    ToldIsStored(s, snap, op);
  }

  lemma TellsBeforeReminding(s: Sub, snap: Snapshot, op: OpId, now: int)
    requires Recordable(s, snap, op)
    ensures var prior, row := Lookup(s.ops, op), RowFor(snap, op, Lookup(s.ops, op));
            Tells(s, Announce(Repair(PutOperation(s, op, row), op, prior, row.state, now), op, prior, row, now),
                  {KindOf(row.state)} + ChangeKinds(row, prior))
  {
    var prior, row := Lookup(s.ops, op), RowFor(snap, op, Lookup(s.ops, op));
    var s0 := PutOperation(s, op, row);
    var s1 := Repair(s0, op, prior, row.state, now);
    RepairTells(s0, op, prior, now);
    AnnounceTells(s1, op, prior, row, now);
    TellsTrans(s0, s1, Announce(s1, op, prior, row, now), {KindOf(row.state)}, ChangeKinds(row, prior));
  }

  lemma NoticeWasThere(s: Sub, s': Sub, kinds: set<Kind>, op: OpId, kind: Kind, state: NoticeState)
    requires Tells(s, s', kinds) && HasNotice(s', op, kind, state) && (state == Sent || kind !in kinds)
    ensures HasNotice(s, op, kind, state)
  {
    var i :| 0 <= i < |s'.outbox| && Matches(s'.outbox[i], s'.generation, op, OfKind(kind)) && s'.outbox[i].state == state;
    assert i < |s.outbox| && SameKind(s.outbox[i], s'.outbox[i]);
    assert Matches(s.outbox[i], s.generation, op, OfKind(kind));
  }

  /** The table just before the reminder is considered. */
  function BeforeReminding(s: Sub, snap: Snapshot, op: OpId, now: int): Sub
    requires Recordable(s, snap, op)
  {
    var prior, row := Lookup(s.ops, op), RowFor(snap, op, Lookup(s.ops, op));
    Announce(Repair(PutOperation(s, op, row), op, prior, row.state, now), op, prior, row, now)
  }

  lemma DueExactly(s: Sub, snap: Snapshot, op: OpId)
    requires Recordable(s, snap, op)
    ensures ReminderDue(snap, RowFor(snap, op, Lookup(s.ops, op))) <==> Told(s, snap, op) == Scheduled && DueForReminder(snap, op)
  {
  }

  lemma RecordedBeforeReminding(s: Sub, snap: Snapshot, op: OpId, now: int)
    requires Recordable(s, snap, op)
    requires !(ReminderDue(snap, RowFor(snap, op, Lookup(s.ops, op))) && HasNotice(BeforeReminding(s, snap, op, now), op, Scheduled, Sent))
    ensures RecordOne(s, snap, op, now) == BeforeReminding(s, snap, op, now)
  {
  }

  /** Not told before, or not due: then no reminder is added or re-armed. */
  lemma NoReminder(s: Sub, snap: Snapshot, op: OpId, now: int)
    requires Recordable(s, snap, op) && !(Told(s, snap, op) == Scheduled && DueForReminder(snap, op) && HasNotice(s, op, Scheduled, Sent))
    ensures Live(RecordOne(s, snap, op, now), op, Reminder) ==> Live(s, op, Reminder)
  {
    var row := RowFor(snap, op, Lookup(s.ops, op));
    var s0, s2 := PutOperation(s, op, row), BeforeReminding(s, snap, op, now);
    var kinds := {KindOf(row.state)} + ChangeKinds(row, Lookup(s.ops, op));
    TellsBeforeReminding(s, snap, op, now);
    DueExactly(s, snap, op);
    if ReminderDue(snap, row) && HasNotice(s2, op, Scheduled, Sent) { NoticeWasThere(s0, s2, kinds, op, Scheduled, Sent); }
    RecordedBeforeReminding(s, snap, op, now);
    if HasNotice(s2, op, Reminder, Waiting) { NoticeWasThere(s0, s2, kinds, op, Reminder, Waiting); }
    if HasNotice(s2, op, Reminder, Sent) { NoticeWasThere(s0, s2, kinds, op, Reminder, Sent); }
  }

  lemma SentIsKept(s: Sub, s': Sub, op: OpId)
    requires Touches(s, s', op) && HasNotice(s, op, Scheduled, Sent)
    ensures HasNotice(s', op, Scheduled, Sent)
  {
    var i :| 0 <= i < |s.outbox| && Matches(s.outbox[i], s.generation, op, OfKind(Scheduled)) && s.outbox[i].state == Sent;
    assert Kept(s.outbox[i], s'.outbox[i], op);
    assert Matches(s'.outbox[i], s'.generation, op, OfKind(Scheduled));
  }

  lemma ReminderFollows(s: Sub, snap: Snapshot, op: OpId, now: int)
    requires Wf(s) && s.enabled && Recordable(s, snap, op)
    requires Told(s, snap, op) == Scheduled && DueForReminder(snap, op) && HasNotice(s, op, Scheduled, Sent)
    ensures Live(RecordOne(s, snap, op, now), op, Reminder)
  {
    RecordOneEffect(s, snap, op, now);
    ToldIsStored(s, snap, op);
    SentIsKept(s, RecordOne(s, snap, op, now), op);
  }

  /** The reminder is live after a recording exactly if it was before, or it is due and the
      owner had been told of the operation. */
  lemma ReminderExactly(s: Sub, snap: Snapshot, op: OpId, now: int)
    requires Wf(s) && s.enabled && Recordable(s, snap, op)
    ensures Live(RecordOne(s, snap, op, now), op, Reminder) <==>
              Live(s, op, Reminder)
              || (Told(s, snap, op) == Scheduled && DueForReminder(snap, op) && HasNotice(s, op, Scheduled, Sent))
  {
    if Live(s, op, Reminder) {
      RecordOneEffect(s, snap, op, now);
      LiveStays(s, RecordOne(s, snap, op, now), op, op, Reminder);
    } else if Told(s, snap, op) == Scheduled && DueForReminder(snap, op) && HasNotice(s, op, Scheduled, Sent) {
      ReminderFollows(s, snap, op, now);
    } else {
      NoReminder(s, snap, op, now);
    }
  }
}
