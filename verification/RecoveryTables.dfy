/** One recovery subscription with its operation and outbox tables, and the statements of
    the repository that change them. A notice's position in the outbox stands for its row
    id (ids only grow); the unique event key is the pair of key and generation. */
module RecoveryTables {
  import opened Answers

  type OpId = nat
  type Hash = nat
  const ZERO_HASH: OpId := 0

  datatype OpState = Pending | Ready | Executed | Canceled | Expired | Invalidated | Orphaned

  predicate Active(s: OpState) { s == Pending || s == Ready }

  datatype Kind = Scheduled | TimingChanged | Reminder | ReorgAlert | Enabled | Disabled | Result(state: OpState)

  datatype Key =
    | Plain(op: OpId, kind: Kind)
    | Transition(op: OpId, predecessor: nat, kind: Kind)
    | ReorgKey(hash: Hash)
    | EnabledKey(at: int)
    | DisabledKey(at: int)

  datatype NoticeState = Waiting | Sent | Superseded

  datatype Notice = Notice(key: Key, generation: nat, kind: Kind, op: Option<OpId>,
                           state: NoticeState, attempts: nat, nextAttempt: int, sentAt: Option<int>)

  datatype Operation = Operation(scheduledAt: int, executableAt: int, expiresAt: int, state: OpState,
                                 txHash: Option<Hash>, blockNumber: int, blockHash: Hash)

  datatype Health = CatchingUp | Healthy | Degraded | Off

  datatype Sub = Sub(enabled: bool, generation: nat, cursor: int, cursorHash: Option<Hash>, anchor: int,
                     status: Health, reconcile: bool, ops: map<OpId, Operation>, outbox: seq<Notice>)

  function Lookup<T>(m: map<OpId, T>, k: OpId): Option<T> { if k in m then Some(m[k]) else None }

  function Max(a: int, b: int): int { if a < b then b else a }

  function Min(a: int, b: int): int { if a < b then a else b }

  // ---------------------------------------------------------------- queries

  /** The rows a query of one operation in one generation selects. */
  datatype Filter = OfKind(kind: Kind) | AlreadySent | Any

  predicate Matches(n: Notice, generation: nat, op: OpId, f: Filter) {
    && n.generation == generation && n.op == Some(op)
    && match f
       case OfKind(kind) => n.kind == kind
       case AlreadySent => n.state == Sent
       case Any => true
  }

  /** The greatest matching position, or -1. */
  function LastOf(outbox: seq<Notice>, generation: nat, op: OpId, f: Filter): (r: int)
    ensures -1 <= r < |outbox|
    ensures 0 <= r ==> Matches(outbox[r], generation, op, f)
    ensures forall i :: r < i < |outbox| ==> !Matches(outbox[i], generation, op, f)
  {
    if outbox == [] then -1
    else if Matches(outbox[|outbox| - 1], generation, op, f) then |outbox| - 1
    else LastOf(outbox[..|outbox| - 1], generation, op, f)
  }

  predicate HasNotice(s: Sub, op: OpId, kind: Kind, state: NoticeState) {
    exists i :: 0 <= i < |s.outbox| && Matches(s.outbox[i], s.generation, op, OfKind(kind)) && s.outbox[i].state == state
  }

  /** A notice of this kind is on its way or delivered. */
  predicate Live(s: Sub, op: OpId, kind: Kind) {
    HasNotice(s, op, kind, Waiting) || HasNotice(s, op, kind, Sent)
  }

  /** The unsent terminal notice that may be revisited: the newest of its kind, superseded,
      and newer than everything already delivered for the operation. */
  function Unnotified(s: Sub, op: OpId): (r: int)
    ensures -1 <= r < |s.outbox|
  {
    if op !in s.ops || !s.enabled || Active(s.ops[op].state) then -1
    else
      var newest := LastOf(s.outbox, s.generation, op, OfKind(Result(s.ops[op].state)));
      if 0 <= newest && s.outbox[newest].state == Superseded && s.outbox[newest].sentAt == None
         && LastOf(s.outbox, s.generation, op, AlreadySent) < newest
      then newest else -1
  }

  // ---------------------------------------------------------------- statements

  predicate KeyTaken(s: Sub, key: Key) {
    exists i :: 0 <= i < |s.outbox| && s.outbox[i].key == key && s.outbox[i].generation == s.generation
  }

  /** INSERT OR IGNORE under the unique event key. */
  function Queue(s: Sub, key: Key, kind: Kind, op: Option<OpId>, now: int): Sub {
    if KeyTaken(s, key) then s
    else s.(outbox := s.outbox + [Notice(key, s.generation, kind, op, Waiting, 0, now, None)])
  }

  function QueueTransition(s: Sub, op: OpId, kind: Kind, now: int): Sub {
    if !s.enabled then s
    else Queue(s, Transition(op, LastOf(s.outbox, s.generation, op, Any) + 1, kind), kind, Some(op), now)
  }

  function Rearmed(n: Notice, now: int): Notice {
    if n.state == Superseded && n.sentAt == None
    then n.(state := Waiting, nextAttempt := Max(n.nextAttempt, now)) else n
  }

  function RearmKey(s: Sub, key: Key, kind: Kind, now: int): Sub {
    s.(outbox := seq(|s.outbox|, i requires 0 <= i < |s.outbox| =>
         var n := s.outbox[i];
         if n.key == key && n.generation == s.generation && n.kind == kind then Rearmed(n, now) else n))
  }

  function QueueUnsent(s: Sub, op: OpId, kind: Kind, now: int): Sub {
    if !s.enabled || Live(s, op, kind) then s
    else RearmKey(Queue(s, Plain(op, kind), kind, Some(op), now), Plain(op, kind), kind, now)
  }

  function RearmTerminal(s: Sub, op: OpId, now: int): Sub {
    var i := Unnotified(s, op);
    if i < 0 then s else s.(outbox := s.outbox[i := Rearmed(s.outbox[i], now)])
  }

  /** A later row keeps a transaction hash that the new one does not carry. */
  function PutOperation(s: Sub, op: OpId, row: Operation): Sub {
    var kept := if row.txHash == None && op in s.ops then s.ops[op].txHash else row.txHash;
    s.(ops := s.ops[op := row.(txHash := kept)])
  }

  function MarkReconcile(s: Sub, generation: nat): Sub {
    if s.enabled && s.generation == generation then s.(reconcile := true) else s
  }

  function SupersedeAll(outbox: seq<Notice>): seq<Notice> {
    seq(|outbox|, i requires 0 <= i < |outbox| =>
      if outbox[i].state == Waiting then outbox[i].(state := Superseded) else outbox[i])
  }

  function Disable(s: Sub): Sub {
    s.(enabled := false, status := Off, outbox := SupersedeAll(s.outbox))
  }

  /** A new enrolment generation: nothing of the previous one is carried over. */
  function Reenrol(s: Sub, block: int): Sub {
    Sub(true, s.generation + 1, block - 1, None, block, CatchingUp, false, map[], SupersedeAll(s.outbox))
  }

  datatype Mark = MarkSent(at: int) | MarkSuperseded | MarkRetried(at: int) | MarkDeferred(at: int)

  /** What delivery writes on one notice; only a waiting notice changes state. */
  function Marked(n: Notice, m: Mark): Notice {
    match m
    case MarkSent(at) => if n.state == Waiting then n.(state := Sent, sentAt := Some(at)) else n
    case MarkSuperseded => if n.state == Waiting then n.(state := Superseded) else n
    case MarkRetried(at) => n.(attempts := n.attempts + 1, nextAttempt := at)
    case MarkDeferred(at) => if n.state == Waiting then n.(nextAttempt := at) else n
  }

  function Deliver(s: Sub, i: nat, m: Mark): Sub {
    if i < |s.outbox| then s.(outbox := s.outbox[i := Marked(s.outbox[i], m)]) else s
  }

  // ---------------------------------------------------------------- table invariant

  predicate KeyFits(n: Notice, position: nat) {
    && (n.key.Plain? ==> n.kind == n.key.kind && n.op == Some(n.key.op))
    && (n.key.Transition? ==> n.kind == n.key.kind && n.op == Some(n.key.op) && n.key.predecessor <= position)
    && (n.op.Some? ==> n.key.Plain? || n.key.Transition?)
    && (n.state == Sent <==> n.sentAt.Some?)
  }

  ghost predicate Wf(s: Sub) {
    && (forall i :: 0 <= i < |s.outbox| ==> KeyFits(s.outbox[i], i) && s.outbox[i].generation <= s.generation)
    && (forall i, j :: 0 <= i < j < |s.outbox| ==> s.outbox[i].key != s.outbox[j].key || s.outbox[i].generation != s.outbox[j].generation)
    && (forall i :: 0 <= i < |s.outbox| && s.outbox[i].generation == s.generation && s.outbox[i].op.Some? ==>
          s.outbox[i].op.value in s.ops)
  }

  /** What recording one operation may do to the tables: touch that operation's row, append
      notices of that operation, and re-arm superseded ones of it. Nothing else. */
  ghost predicate Touches(s: Sub, s': Sub, op: OpId) {
    && s' == s.(ops := s'.ops, outbox := s'.outbox)
    && s.ops.Keys <= s'.ops.Keys <= s.ops.Keys + {op}
    && (forall o :: o in s.ops && o != op ==> s'.ops[o] == s.ops[o])
    && |s.outbox| <= |s'.outbox|
    && (forall i :: 0 <= i < |s.outbox| ==> Kept(s.outbox[i], s'.outbox[i], op) && (s.outbox[i].generation != s.generation ==> s'.outbox[i] == s.outbox[i]))
    && (forall i :: |s.outbox| <= i < |s'.outbox| ==> s'.outbox[i].op == Some(op) && s'.outbox[i].generation == s.generation)
  }

  predicate Kept(n: Notice, n': Notice, op: OpId) {
    n' == n || (n.op == Some(op) && n.state == Superseded && n' == n.(state := Waiting, nextAttempt := n'.nextAttempt))
  }

  lemma TouchesTrans(a: Sub, b: Sub, c: Sub, op: OpId)
    requires Touches(a, b, op) && Touches(b, c, op)
    ensures Touches(a, c, op)
  {
    forall i | 0 <= i < |a.outbox|
      ensures Kept(a.outbox[i], c.outbox[i], op)
    {
      assert Kept(a.outbox[i], b.outbox[i], op) && Kept(b.outbox[i], c.outbox[i], op);
    }
    forall i | |a.outbox| <= i < |c.outbox|
      ensures c.outbox[i].op == Some(op) && c.outbox[i].generation == a.generation
    {
      if i < |b.outbox| { assert Kept(b.outbox[i], c.outbox[i], op); }
    }
  }

  /** Recording never takes a live notice back. */
  lemma LiveStays(a: Sub, b: Sub, touched: OpId, op: OpId, kind: Kind)
    requires Touches(a, b, touched) && Live(a, op, kind)
    ensures Live(b, op, kind)
  {
    var i :| 0 <= i < |a.outbox| && Matches(a.outbox[i], a.generation, op, OfKind(kind)) && a.outbox[i].state != Superseded;
    assert Kept(a.outbox[i], b.outbox[i], touched);
    assert Matches(b.outbox[i], b.generation, op, OfKind(kind));
  }

  lemma QueueEffect(s: Sub, key: Key, kind: Kind, op: OpId, now: int)
    requires Wf(s) && op in s.ops
    requires key == Plain(op, kind) || key == Transition(op, LastOf(s.outbox, s.generation, op, Any) + 1, kind)
    ensures var s' := Queue(s, key, kind, Some(op), now);
            && Wf(s') && Touches(s, s', op)
            && (!KeyTaken(s, key) ==> |s'.outbox| == |s.outbox| + 1 && HasNotice(s', op, kind, Waiting)
                                      && s'.outbox[|s.outbox|].state == Waiting && Matches(s'.outbox[|s.outbox|], s.generation, op, OfKind(kind)))
  {
    var s' := Queue(s, key, kind, Some(op), now);
    if !KeyTaken(s, key) {
      assert Matches(s'.outbox[|s.outbox|], s'.generation, op, OfKind(kind));
    }
  }

  /** The predecessor advances with every notice of the operation, so a transition key is never taken. */
  lemma TransitionKeyIsFresh(s: Sub, op: OpId, kind: Kind)
    requires Wf(s)
    ensures !KeyTaken(s, Transition(op, LastOf(s.outbox, s.generation, op, Any) + 1, kind))
  {
    var last := LastOf(s.outbox, s.generation, op, Any);
    forall i | 0 <= i < |s.outbox| && s.outbox[i].generation == s.generation
      ensures s.outbox[i].key != Transition(op, last + 1, kind)
    {
      assert KeyFits(s.outbox[i], i);
      if s.outbox[i].key.Transition? && s.outbox[i].key.op == op {
        assert Matches(s.outbox[i], s.generation, op, Any);
      }
    }
  }

  lemma QueueTransitionEffect(s: Sub, op: OpId, kind: Kind, now: int)
    requires Wf(s) && op in s.ops
    ensures var s' := QueueTransition(s, op, kind, now);
            && Wf(s') && Touches(s, s', op)
            && (s.enabled ==> |s'.outbox| == |s.outbox| + 1 && HasNotice(s', op, kind, Waiting)
                              && s'.outbox[|s.outbox|].state == Waiting && Matches(s'.outbox[|s.outbox|], s.generation, op, OfKind(kind)))
  {
    if s.enabled {
      var key := Transition(op, LastOf(s.outbox, s.generation, op, Any) + 1, kind);
      TransitionKeyIsFresh(s, op, kind);
      QueueEffect(s, key, kind, op, now);
      assert QueueTransition(s, op, kind, now) == Queue(s, key, kind, Some(op), now);
    }
  }

  lemma RearmKeyEffect(s: Sub, op: OpId, kind: Kind, now: int)
    requires Wf(s) && KeyTaken(s, Plain(op, kind))
    ensures var s' := RearmKey(s, Plain(op, kind), kind, now);
            Wf(s') && Touches(s, s', op) && Live(s', op, kind)
  {
    var s' := RearmKey(s, Plain(op, kind), kind, now);
    assert forall i :: 0 <= i < |s.outbox| ==> KeyFits(s.outbox[i], i);
    RearmKeepsWf(s, s');
    var i :| 0 <= i < |s.outbox| && s.outbox[i].key == Plain(op, kind) && s.outbox[i].generation == s.generation;
    assert Matches(s'.outbox[i], s'.generation, op, OfKind(kind));
    assert s'.outbox[i].state != Superseded;
  }

  /** However the earlier notice of this kind fared, one is now waiting or delivered. */
  lemma QueueUnsentEffect(s: Sub, op: OpId, kind: Kind, now: int)
    requires Wf(s) && op in s.ops
    ensures var s' := QueueUnsent(s, op, kind, now);
            Wf(s') && Touches(s, s', op) && (s.enabled ==> Live(s', op, kind))
  {
    if s.enabled && !Live(s, op, kind) {
      var q := Queue(s, Plain(op, kind), kind, Some(op), now);
      QueueEffect(s, Plain(op, kind), kind, op, now);
      assert KeyTaken(q, Plain(op, kind)) by {
        if !KeyTaken(s, Plain(op, kind)) {
          assert q.outbox[|s.outbox|].key == Plain(op, kind);
        }
      }
      RearmKeyEffect(q, op, kind, now);
      TouchesTrans(s, q, QueueUnsent(s, op, kind, now), op);
    }
  }

  lemma RearmKeepsWf(s: Sub, s': Sub)
    requires Wf(s) && s' == s.(outbox := s'.outbox) && |s'.outbox| == |s.outbox|
    requires forall i :: 0 <= i < |s.outbox| ==>
               s'.outbox[i] == s.outbox[i] || (s.outbox[i].state == Superseded && s'.outbox[i] == s.outbox[i].(state := Waiting, nextAttempt := s'.outbox[i].nextAttempt))
    ensures Wf(s')
  {
    forall i | 0 <= i < |s'.outbox|
      ensures KeyFits(s'.outbox[i], i) && s'.outbox[i].generation <= s'.generation
    {
      assert KeyFits(s.outbox[i], i);
    }
  }

  lemma RearmTerminalEffect(s: Sub, op: OpId, now: int)
    requires Wf(s)
    ensures var s' := RearmTerminal(s, op, now);
            Wf(s') && Touches(s, s', op) && Unnotified(s', op) == -1
  {
    var i := Unnotified(s, op);
    if 0 <= i {
      var s' := RearmTerminal(s, op, now);
      RearmKeepsWf(s, s');
      var kind := Result(s.ops[op].state);
      var newest := LastOf(s'.outbox, s'.generation, op, OfKind(kind));
      assert Matches(s'.outbox[i], s'.generation, op, OfKind(kind));
      assert forall j :: i < j < |s.outbox| ==> s'.outbox[j] == s.outbox[j];
      assert newest == i;
    }
  }
}
