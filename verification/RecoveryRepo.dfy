/** The repository's tables as they are updated in place, and the monitor's loop over the
    candidates of one observation. */
module RecoveryRepo {
  import opened Answers
  import opened RecoveryTables
  import opened RecoveryRecord
  import opened RecoveryRuns

  class Repository {
    var enabled: bool
    var generation: nat
    var cursor: int
    var cursorHash: Option<Hash>
    var anchor: int
    var status: Health
    var reconcile: bool
    var ops: map<OpId, Operation>
    var outbox: seq<Notice>

    function View(): Sub
      reads this
    {
      Sub(enabled, generation, cursor, cursorHash, anchor, status, reconcile, ops, outbox)
    }

    /** A first enrolment at a block. */
    constructor (block: int)
      ensures View() == Sub(true, 0, block - 1, None, block, CatchingUp, false, map[], [])
      ensures Wf(View()) && OneActive(View())
    {
      enabled, generation, cursor, cursorHash, anchor := true, 0, block - 1, None, block;
      status, reconcile, ops, outbox := CatchingUp, false, map[], [];
    }

    // -------------------------------------------------------------- queries

    method Last(op: OpId, f: Filter) returns (r: int)
      ensures r == LastOf(outbox, generation, op, f)
    {
      r := |outbox| - 1;
      while 0 <= r && !Matches(outbox[r], generation, op, f)
        invariant -1 <= r < |outbox|
        invariant forall i :: r < i < |outbox| ==> !Matches(outbox[i], generation, op, f)
      {
        r := r - 1;
      }
    }

    method Has(op: OpId, kind: Kind, state: NoticeState) returns (found: bool)
      ensures found == HasNotice(View(), op, kind, state)
    {
      found := false;
      var i := 0;
      while i < |outbox| && !found
        invariant 0 <= i <= |outbox|
        invariant !found ==> forall j :: 0 <= j < i ==> !(Matches(outbox[j], generation, op, OfKind(kind)) && outbox[j].state == state)
        invariant found ==> HasNotice(View(), op, kind, state)
      {
        found := Matches(outbox[i], generation, op, OfKind(kind)) && outbox[i].state == state;
        i := i + 1;
      }
    }

    // -------------------------------------------------------------- the outbox

    method QueueNotice(key: Key, kind: Kind, op: Option<OpId>, now: int)
      modifies this
      ensures View() == Queue(old(View()), key, kind, op, now)
      ensures if exists i :: 0 <= i < |old(outbox)| && old(outbox)[i].key == key && old(outbox)[i].generation == generation
              then outbox == old(outbox)
              else outbox == old(outbox) + [Notice(key, generation, kind, op, Waiting, 0, now, None)]
    {
      var i := 0;
      while i < |outbox|
        invariant 0 <= i <= |outbox|
        invariant forall j :: 0 <= j < i ==> !(outbox[j].key == key && outbox[j].generation == generation)
        invariant View() == old(View())
      {
        if outbox[i].key == key && outbox[i].generation == generation { return; }
        i := i + 1;
      }
      outbox := outbox + [Notice(key, generation, kind, op, Waiting, 0, now, None)];
    }

    method QueueTransitionNotice(op: OpId, kind: Kind, now: int)
      modifies this
      ensures View() == QueueTransition(old(View()), op, kind, now)
    {
      if enabled {
        var predecessor := Last(op, Any);
        QueueNotice(Transition(op, predecessor + 1, kind), kind, Some(op), now);
      }
    }

    method RearmByKey(key: Key, kind: Kind, now: int)
      modifies this
      ensures View() == RearmKey(old(View()), key, kind, now)
    {
      var i := 0;
      ghost var was := View();
      while i < |outbox|
        invariant 0 <= i <= |outbox| == |was.outbox|
        invariant View() == was.(outbox := outbox)
        invariant forall j :: 0 <= j < i ==> outbox[j] == RearmKey(was, key, kind, now).outbox[j]
        invariant forall j :: i <= j < |outbox| ==> outbox[j] == was.outbox[j]
      {
        if outbox[i].key == key && outbox[i].generation == generation && outbox[i].kind == kind {
          outbox := outbox[i := Rearmed(outbox[i], now)];
        }
        i := i + 1;
      }
      assert outbox == RearmKey(was, key, kind, now).outbox;
    }

    /** A notice of this kind on its way to the owner, or already there. */
    predicate Counts(n: Notice, generation: nat, op: OpId, kind: Kind) {
      n.generation == generation && n.op == Some(op) && n.kind == kind && n.state != Superseded
    }

    method QueueUnsentActiveNotice(op: OpId, kind: Kind, now: int)
      modifies this
      ensures View() == QueueUnsent(old(View()), op, kind, now)
      ensures !enabled || (exists i :: 0 <= i < |old(outbox)| && Counts(old(outbox)[i], generation, op, kind)) ==> outbox == old(outbox)
    {
      var sent := Has(op, kind, Sent);
      if !enabled || sent { return; }
      var waiting := Has(op, kind, Waiting);
      if waiting { return; }
      QueueNotice(Plain(op, kind), kind, Some(op), now);
      RearmByKey(Plain(op, kind), kind, now);
    }

    function Later(a: int, b: int): int { if a < b then b else a }

    /** The result that the operation is stored with was never delivered: its newest notice was
        taken back, and nothing about the operation was delivered since. */
    predicate Forgotten(notices: seq<Notice>, i: int, op: OpId)
      requires 0 <= i < |notices|
      reads this
    {
      && enabled && op in ops && ops[op].state != Pending && ops[op].state != Ready
      && notices[i].generation == generation && notices[i].op == Some(op) && notices[i].kind == Result(ops[op].state)
      && notices[i].state == Superseded && notices[i].sentAt == None
      && (forall j :: i < j < |notices| && notices[j].generation == generation && notices[j].op == Some(op) ==> notices[j].kind != notices[i].kind)
      && (forall j :: i <= j < |notices| && notices[j].generation == generation && notices[j].op == Some(op) ==> notices[j].state != Sent)
    }

    method RearmTerminalNotice(op: OpId, now: int)
      modifies this
      ensures View() == RearmTerminal(old(View()), op, now)
      ensures |outbox| == |old(outbox)|
      ensures forall i :: 0 <= i < |outbox| ==>
                outbox[i] == if Forgotten(old(outbox), i, op) then old(outbox)[i].(state := Waiting, nextAttempt := Later(old(outbox)[i].nextAttempt, now))
                             else old(outbox)[i]
    {
      if op !in ops || !enabled || Active(ops[op].state) { return; }
      var newest := Last(op, OfKind(Result(ops[op].state)));
      var sent := Last(op, AlreadySent);
      if 0 <= newest && outbox[newest].state == Superseded && outbox[newest].sentAt == None && sent < newest {
        outbox := outbox[newest := Rearmed(outbox[newest], now)];
      }
    }

    /** Sent, superseded, retried with backoff, or deferred. */
    method MarkNotice(i: nat, mark: Mark)
      requires i < |outbox|
      modifies this
      ensures View() == Deliver(old(View()), i, mark)
      ensures var n := old(outbox)[i];
              match mark
              case MarkSent(at) => outbox == old(outbox)[i := if n.state == Waiting then n.(state := Sent, sentAt := Some(at)) else n]
              case MarkSuperseded => outbox == old(outbox)[i := if n.state == Waiting then n.(state := Superseded) else n]
              case MarkRetried(at) => outbox == old(outbox)[i := n.(attempts := n.attempts + 1, nextAttempt := at)]
              case MarkDeferred(at) => outbox == old(outbox)[i := if n.state == Waiting then n.(nextAttempt := at) else n]
      ensures Wf(old(View())) ==> Wf(View())
      ensures mark.MarkSuperseded? ==> forall op, kind :: HasNotice(old(View()), op, kind, Sent) ==> HasNotice(View(), op, kind, Sent)
    {
      ghost var was := View();
      var n := outbox[i];
      match mark {
        case MarkSent(at) => if n.state == Waiting { outbox := outbox[i := n.(state := Sent, sentAt := Some(at))]; }
        case MarkSuperseded => if n.state == Waiting { outbox := outbox[i := n.(state := Superseded)]; }
        case MarkRetried(at) => outbox := outbox[i := n.(attempts := n.attempts + 1, nextAttempt := at)];
        case MarkDeferred(at) => if n.state == Waiting { outbox := outbox[i := n.(nextAttempt := at)]; }
      }
      assert outbox == Deliver(was, i, mark).outbox;
      if Wf(was) { DeliverKeepsWf(was, i, mark); }
      forall op, kind | mark.MarkSuperseded? && HasNotice(was, op, kind, Sent)
        ensures HasNotice(View(), op, kind, Sent)
      {
        var k :| 0 <= k < |was.outbox| && Matches(was.outbox[k], was.generation, op, OfKind(kind)) && was.outbox[k].state == Sent;
        assert outbox[k] == was.outbox[k];
      }
    }

    // -------------------------------------------------------------- the other tables

    method Put(op: OpId, row: Operation)
      modifies this
      ensures View() == PutOperation(old(View()), op, row)
      ensures ops.Keys == old(ops).Keys + {op} && forall o :: o in old(ops) && o != op ==> ops[o] == old(ops)[o]
      ensures ops[op] == row.(txHash := if row.txHash.None? && op in old(ops) then old(ops)[op].txHash else row.txHash)
    {
      var kept := row.txHash;
      if kept == None && op in ops { kept := ops[op].txHash; }
      ops := ops[op := row.(txHash := kept)];
    }

    method MarkReconcileNeeded(expected: nat) returns (changed: bool)
      modifies this
      ensures View() == MarkReconcile(old(View()), expected)
      ensures changed <==> old(enabled) && old(generation) == expected
      ensures reconcile == (old(reconcile) || changed)
    {
      changed := enabled && generation == expected;
      if changed { reconcile := true; }
    }

    method SetHealth(end: int, hash: Hash, reconciled: bool)
      modifies this
      ensures View() == UpdateHealth(old(View()), end, hash, reconciled)
      ensures cursor == end && cursorHash == Some(hash) && status == (if reconciled then Healthy else CatchingUp)
      ensures reconcile == (old(reconcile) && !reconciled)
    {
      status := if reconciled then Healthy else CatchingUp;
      cursor, cursorHash := end, Some(hash);
      if reconciled { reconcile := false; }
    }

    method SupersedeWaiting()
      modifies this
      ensures View() == old(View()).(outbox := SupersedeAll(old(outbox)))
    {
      var i := 0;
      ghost var was := View();
      while i < |outbox|
        invariant 0 <= i <= |outbox| == |was.outbox|
        invariant View() == was.(outbox := outbox)
        invariant forall j :: 0 <= j < i ==> outbox[j] == SupersedeAll(was.outbox)[j]
        invariant forall j :: i <= j < |outbox| ==> outbox[j] == was.outbox[j]
      {
        if outbox[i].state == Waiting { outbox := outbox[i := outbox[i].(state := Superseded)]; }
        i := i + 1;
      }
      assert outbox == SupersedeAll(was.outbox);
    }

    method DisableRow()
      modifies this
      ensures View() == Disable(old(View()))
      ensures !enabled && status == Off && generation == old(generation) && ops == old(ops) && reconcile == old(reconcile)
      ensures forall i :: 0 <= i < |outbox| ==> outbox[i].state != Waiting
    {
      enabled, status := false, Off;
      SupersedeWaiting();
    }

    /** Enrolling again starts a generation whose outbox and operations are untouched. */
    method Subscribe(block: int) returns (ok: bool)
      modifies this
      ensures ok <==> !old(enabled)
      ensures View() == if ok then Reenrol(old(View()), block) else old(View())
      ensures ok ==> enabled && generation == old(generation) + 1 && cursor == block - 1 && anchor == block && cursorHash == None
      ensures ok ==> status == CatchingUp && !reconcile && ops == map[] && |outbox| == |old(outbox)|
      ensures ok ==> forall i :: 0 <= i < |outbox| ==>
                outbox[i] == if old(outbox)[i].state == Waiting then old(outbox)[i].(state := Superseded) else old(outbox)[i]
    {
      ok := !enabled;
      if ok {
        enabled, generation, cursor, anchor, cursorHash := true, generation + 1, block - 1, block, None;
        status, reconcile := CatchingUp, false;
        SupersedeWaiting();
        ops := map[];
      }
    }
  }

  /** A new enrolment has no notices yet, so nothing of the old one can count as announced. */
  lemma ReenrolmentStartsEmpty(s: Sub, block: int, op: OpId, kind: Kind, state: NoticeState)
    requires Wf(s)
    ensures Wf(Reenrol(s, block)) && !HasNotice(Reenrol(s, block), op, kind, state)
  {
    SupersedeKeepsWf(s);
    assert forall i :: 0 <= i < |s.outbox| ==> Reenrol(s, block).outbox[i].generation == s.outbox[i].generation <= s.generation;
  }

  // ---------------------------------------------------------------- recording

  /** One candidate of an observation, branch by branch; the flag tells whether it was seen
      in a terminal state. */
  method RecordOperation(repo: Repository, snap: Snapshot, op: OpId, now: int) returns (terminal: bool)
    modifies repo
    ensures repo.View() == RecordOne(old(repo.View()), snap, op, now)
    ensures terminal <==> !Skipped(snap, op, Lookup(old(repo.ops), op)) && !Active(StateFor(snap, op, Lookup(old(repo.ops), op)))
  {
    var prior := Lookup(repo.ops, op);
    var state := StateFor(snap, op, prior);
    if Skipped(snap, op, prior) { return false; }
    terminal := !Active(state);
    var row := RowFor(snap, op, prior);
    repo.Put(op, row);
    if prior.Some? && Active(prior.value.state) && Active(state) {
      repo.QueueUnsentActiveNotice(op, Scheduled, now);
    }
    if prior.Some? && prior.value.state == state && !Active(state) {
      repo.RearmTerminalNotice(op, now);
    }
    if prior.Some? && Active(state) && prior.value.executableAt != row.executableAt {
      repo.QueueTransitionNotice(op, TimingChanged, now);
    }
    if prior.None? && state != Orphaned {
      var kind := if Active(state) then Scheduled else Result(state);
      repo.QueueNotice(Plain(op, kind), kind, Some(op), now);
    }
    if prior.Some? && !Active(prior.value.state) && Active(state) {
      repo.QueueTransitionNotice(op, Scheduled, now);
    }
    if prior.Some? && prior.value.state != state && !Active(state) {
      repo.QueueTransitionNotice(op, Result(state), now);
    }
    if ReminderDue(snap, row) {
      var sent := repo.Has(op, Scheduled, Sent);
      if sent { repo.QueueUnsentActiveNotice(op, Reminder, now); }
    }
  }

  /** The loop over the candidates. */
  method RecordSnapshot(repo: Repository, snap: Snapshot, listing: seq<OpId>, retry: seq<OpId>, reconcileIds: seq<OpId>, now: int)
    returns (terminal: bool)
    requires Wf(repo.View()) && repo.enabled
    modifies repo
    ensures var ids := Candidates(listing, retry, reconcileIds, snap.active);
            && repo.View() == RecordAll(old(repo.View()), snap, ids, now)
            && terminal == AnyTerminal(repo.View(), ids)
            && Recorded(old(repo.View()), repo.View(), snap, ids)
  {
    var ids := Candidates(listing, retry, reconcileIds, snap.active);
    var i := 0;
    terminal := false;
    ghost var was := repo.View();
    while i < |ids|
      invariant 0 <= i <= |ids| && Wf(repo.View()) && repo.enabled
      invariant repo.View() == RecordAll(was, snap, ids[..i], now)
      invariant terminal == AnyTerminal(repo.View(), ids[..i])
    {
      RecordNext(repo.View(), snap, ids, i, now);
      assert ids[..i + 1][..i] == ids[..i];
      var t := RecordOperation(repo, snap, ids[i], now);
      terminal := terminal || t;
      i := i + 1;
    }
    assert ids[..i] == ids;
    RecordAllEffect(was, snap, ids, now);
  }

  lemma RecordNext(s: Sub, snap: Snapshot, ids: seq<OpId>, i: nat, now: int)
    requires Wf(s) && s.enabled && i < |ids| && forall j :: 0 <= j < i ==> ids[j] != ids[i]
    ensures var s' := RecordOne(s, snap, ids[i], now);
            && Wf(s') && s'.enabled
            && (AnyTerminal(s', ids[..i + 1]) <==>
                  AnyTerminal(s, ids[..i])
                  || (!Skipped(snap, ids[i], Lookup(s.ops, ids[i])) && !Active(StateFor(snap, ids[i], Lookup(s.ops, ids[i])))))
  {
    RecordOneEffect(s, snap, ids[i], now);
    TerminalSoFar(s, RecordOne(s, snap, ids[i], now), snap, ids, i);
  }

  lemma TerminalSoFar(s: Sub, s': Sub, snap: Snapshot, ids: seq<OpId>, i: nat)
    requires i < |ids| && Touches(s, s', ids[i]) && Settled(s', snap, ids[i]) && forall j :: 0 <= j < i ==> ids[j] != ids[i]
    requires Skipped(snap, ids[i], Lookup(s.ops, ids[i])) ==> s' == s
    requires !Skipped(snap, ids[i], Lookup(s.ops, ids[i])) ==> ids[i] in s'.ops && s'.ops[ids[i]] == RowFor(snap, ids[i], Lookup(s.ops, ids[i]))
    ensures AnyTerminal(s', ids[..i + 1]) <==>
              AnyTerminal(s, ids[..i])
              || (!Skipped(snap, ids[i], Lookup(s.ops, ids[i])) && !Active(StateFor(snap, ids[i], Lookup(s.ops, ids[i]))))
  {
    assert forall j :: 0 <= j < i ==> ids[..i + 1][j] == ids[..i][j];
    assert ids[..i + 1][i] == ids[i];
    if AnyTerminal(s, ids[..i]) {
      var j :| 0 <= j < i && ids[..i][j] in s.ops && !Active(s.ops[ids[..i][j]].state);
      assert s'.ops[ids[..i + 1][j]] == s.ops[ids[j]];
    }
  }
}
