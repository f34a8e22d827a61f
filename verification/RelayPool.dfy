/** The relay of one batch: workers take entries in order from a shared counter, one deadline
    ends every wait, and answers may arrive in any order, before or after it. */
module RelayPool {
  import opened Answers
  import R = VoteReceipts

  /** What the decision pass says of an entry; a failed read of the receipt rejects it.
      A relayed entry remembers whether a delivered receipt stood before. */
  datatype Decision = Reject | Hold | Skip(reason: string) | Relay(priorDelivered: bool)

  /** The decision on an entry from what the read of its receipt answered. */
  function DecisionOf(read: Answer<Option<R.Receipt>>, outcome: R.Outcome, signal: R.Signal, now: int, limits: R.Limits): Decision {
    if read.Fail? then Reject
    else
      match R.Decide(read.value, outcome, signal, now, limits)
      case Hold => Hold
      case Skip(reason) => Skip(reason)
      case Relay => Relay(read.value.Some? && read.value.value.status in {R.Confirmed, R.Relayed})
  }

  datatype ErrorCode = NotFound | BadSignature | TooOften | AlreadyVoted | NoProposal | BadVote | RpcError

  /** How the call for one entry ended. The deadline counts as an uncertain error. */
  datatype Outcome = Voted | Threw(notSubmitted: bool, uncertain: bool, code: ErrorCode, definite: bool)

  const DEADLINE := Threw(false, true, RpcError, false)

  datatype Entry = Entry(ok: bool, uncertain: bool, notSubmitted: bool)

  predicate Duplicate(code: ErrorCode) { code == AlreadyVoted || code == TooOften }

  predicate Uncertain(o: Outcome) { o.Threw? && !o.notSubmitted && (o.uncertain || (o.code == RpcError && !o.definite)) }

  function ResultOf(o: Outcome): Entry {
    if o.Voted? then Entry(true, false, false)
    else if o.notSubmitted then Entry(false, false, true)
    else if Uncertain(o) then Entry(false, true, false)
    else Entry(false, false, false)
  }

  /** The receipt written for a settled call, if any. */
  function ReceiptOf(o: Outcome, priorDelivered: bool): Option<R.Status> {
    if o.Voted? then Some(R.Relayed)
    else if o.notSubmitted then None
    else if Uncertain(o) then Some(R.SubmissionUnknown)
    else if Duplicate(o.code) && priorDelivered then None
    else Some(R.Failed)
  }

  function Immediate(d: Decision): Entry
    requires !d.Relay?
  {
    match d
    case Reject => Entry(false, false, true)
    case Hold => Entry(false, true, false)
    case Skip(_) => Entry(true, false, false)
  }

  datatype Worker = Idle | Waiting(entry: nat) | Finished

  /** calls lists the entries submitted to the node so far; written lists the receipts. */
  datatype Pool = Pool(decisions: seq<Decision>, next: nat, workers: seq<Worker>, out: seq<Option<Entry>>, aborted: bool,
                       scheduled: set<nat>, calls: seq<nat>, settled: map<nat, Outcome>, written: seq<(nat, R.Status)>)

  datatype Step = Take(w: nat) | Invoke(i: nat) | Answer(i: nat, o: Outcome) | Resume(w: nat) | Abort

  function Start(decisions: seq<Decision>, concurrency: nat): Pool {
    var least := if concurrency < |decisions| then concurrency else |decisions|;
    Pool(decisions, 0, seq(if least == 0 then 1 else least, _ => Idle), seq(|decisions|, _ => None), false, {}, [], map[], [])
  }

  predicate Enabled(p: Pool, step: Step) {
    match step
    case Take(w) => w < |p.workers| && p.workers[w] == Idle
    case Invoke(i) => i in p.scheduled
    case Answer(i, _) => i in p.calls
    case Resume(w) => w < |p.workers| && p.workers[w].Waiting? && p.workers[w].entry in p.settled
    case Abort => !p.aborted
  }

  function TakeNext(p: Pool, w: nat): Pool
    requires w < |p.workers| && p.workers[w] == Idle && |p.out| == |p.decisions|
  {
    var i, q := p.next, p.(next := p.next + 1);
    if |p.decisions| <= i then q.(workers := p.workers[w := Finished])
    else if !p.decisions[i].Relay? then q.(out := p.out[i := Some(Immediate(p.decisions[i]))])
    else if p.aborted then q.(out := p.out[i := Some(Entry(false, false, true))])
    else q.(workers := p.workers[w := Waiting(i)], scheduled := p.scheduled + {i})
  }

  function Finish(p: Pool, w: nat): Pool
    requires Enabled(p, Resume(w))
    requires p.workers[w].entry < |p.decisions| == |p.out| && p.decisions[p.workers[w].entry].Relay?
  {
    var i := p.workers[w].entry;
    var o := p.settled[i];
    var receipt := ReceiptOf(o, p.decisions[i].priorDelivered);
    var q := p.(workers := p.workers[w := Idle], out := p.out[i := Some(ResultOf(o))]);
    if receipt.Some? then q.(written := p.written + [(i, receipt.value)]) else q
  }

  /** The deadline settles every wait that nothing else has settled. */
  function SettleAll(workers: seq<Worker>, settled: map<nat, Outcome>): (r: map<nat, Outcome>)
    ensures forall i :: i in settled ==> i in r && r[i] == settled[i]
    ensures forall w :: 0 <= w < |workers| && workers[w].Waiting? ==> workers[w].entry in r
    ensures forall i :: i in r && i !in settled ==> r[i] == DEADLINE && Waiting(i) in workers
  {
    if workers == [] then settled
    else
      var r, last := SettleAll(workers[..|workers| - 1], settled), workers[|workers| - 1];
      if last.Waiting? && last.entry !in r then r[last.entry := DEADLINE] else r
  }

  function Expire(p: Pool): Pool { p.(aborted := true, settled := SettleAll(p.workers, p.settled)) }

  function Apply(p: Pool, step: Step): Pool
    requires Inv(p) && Enabled(p, step)
  {
    match step
    case Take(w) => TakeNext(p, w)
    case Invoke(i) => p.(scheduled := p.scheduled - {i}, calls := p.calls + [i])
    case Answer(i, o) => if i in p.settled then p else p.(settled := p.settled[i := o])
    case Resume(w) => Finish(p, w)
    case Abort => Expire(p)
  }

  // ---------------------------------------------------------------- invariant

  ghost predicate IsWaiting(p: Pool, i: nat) { exists w :: 0 <= w < |p.workers| && p.workers[w] == Waiting(i) }

  ghost predicate Shape(p: Pool) {
    && |p.out| == |p.decisions|
    && (forall w :: 0 <= w < |p.workers| && p.workers[w].Waiting? ==>
          var i := p.workers[w].entry; i < p.next && i < |p.decisions| && p.decisions[i].Relay? && p.out[i].None?)
    && (forall v, w :: 0 <= v < w < |p.workers| && p.workers[v].Waiting? ==> p.workers[v] != p.workers[w])
    && (forall w :: 0 <= w < |p.workers| && p.workers[w].Finished? ==> |p.decisions| < p.next)
    && (forall i :: 0 <= i < |p.out| ==> (p.out[i].Some? <==> i < p.next && !IsWaiting(p, i)))
  }

  ghost predicate Calls(p: Pool) {
    && (forall i: nat :: i in p.scheduled || i in p.calls || i in p.settled ==> i < p.next && i < |p.decisions| && p.decisions[i].Relay?)
    && (forall i: nat :: i in p.scheduled ==> i !in p.calls)
    && (forall j, k :: 0 <= j < k < |p.calls| ==> p.calls[j] != p.calls[k])
    && (forall w :: 0 <= w < |p.workers| && p.workers[w].Waiting? ==>
          p.workers[w].entry in p.scheduled || p.workers[w].entry in p.calls)
    && (p.aborted ==> forall w :: 0 <= w < |p.workers| && p.workers[w].Waiting? ==> p.workers[w].entry in p.settled)
  }

  /** Where every result comes from. */
  ghost predicate Origin(p: Pool, i: nat, r: Entry)
    requires i < |p.decisions|
  {
    if !p.decisions[i].Relay? then r == Immediate(p.decisions[i])
    else if i in p.settled then r == ResultOf(p.settled[i])
    else r == Entry(false, false, true) && p.aborted && i !in p.calls && i !in p.scheduled
  }

  ghost predicate Results(p: Pool)
    requires |p.out| == |p.decisions|
  {
    forall i :: 0 <= i < |p.out| && p.out[i].Some? ==> Origin(p, i, p.out[i].value)
  }

  predicate Owed(p: Pool, i: nat) {
    i < |p.decisions| && p.decisions[i].Relay? && i in p.settled && ReceiptOf(p.settled[i], p.decisions[i].priorDelivered).Some?
  }

  predicate HasReceipt(p: Pool, i: nat) { exists k :: 0 <= k < |p.written| && p.written[k].0 == i }

  predicate Justified(p: Pool, receipt: (nat, R.Status)) {
    Owed(p, receipt.0) && ReceiptOf(p.settled[receipt.0], p.decisions[receipt.0].priorDelivered) == Some(receipt.1)
  }

  /** Each entry has at most one receipt, and exactly the one its settled call asks for. */
  ghost predicate Written(p: Pool)
    requires |p.out| == |p.decisions|
  {
    && (forall j, k :: 0 <= j < k < |p.written| ==> p.written[j].0 != p.written[k].0)
    && (forall k :: 0 <= k < |p.written| ==> Justified(p, p.written[k]) && p.out[p.written[k].0].Some?)
    && (forall i :: 0 <= i < |p.out| && p.out[i].Some? && Owed(p, i) ==> HasReceipt(p, i))
  }

  ghost predicate Inv(p: Pool) { Shape(p) && Calls(p) && Results(p) && Written(p) }

  lemma StartFits(decisions: seq<Decision>, concurrency: nat)
    ensures Inv(Start(decisions, concurrency)) && |Start(decisions, concurrency).workers| > 0
  {
  }

  lemma TakeWaits(p: Pool, w: nat)
    requires Shape(p) && Enabled(p, Take(w))
    ensures var q := TakeNext(p, w);
            forall i: nat :: IsWaiting(q, i) <==> IsWaiting(p, i) || (i == p.next && q.workers[w] == Waiting(i))
  {
    var q := TakeNext(p, w);
    forall i: nat | IsWaiting(p, i)
      ensures IsWaiting(q, i)
    {
      var v :| 0 <= v < |p.workers| && p.workers[v] == Waiting(i);
      assert q.workers[v] == Waiting(i);
    }
  }

  lemma TakeKeepsShape(p: Pool, w: nat)
    requires Shape(p) && Enabled(p, Take(w))
    ensures Shape(TakeNext(p, w))
  {
    TakeWaits(p, w);
  }

  lemma TakeKeepsCalls(p: Pool, w: nat)
    requires Shape(p) && Calls(p) && Enabled(p, Take(w))
    ensures Calls(TakeNext(p, w))
  {
    assert forall i: nat :: i in TakeNext(p, w).settled <==> i in p.settled;
  }

  lemma TakeKeepsResults(p: Pool, w: nat)
    requires Inv(p) && Enabled(p, Take(w))
    ensures Results(TakeNext(p, w)) && Written(TakeNext(p, w))
  {
    var q := TakeNext(p, w);
    assert forall i :: 0 <= i < |p.out| && i != p.next ==> q.out[i] == p.out[i];
    assert p.next < |p.out| ==> p.out[p.next].None? && p.next !in p.settled;
    forall i | 0 <= i < |q.out| && q.out[i].Some?
      ensures Origin(q, i, q.out[i].value)
    {
      if i != p.next { assert Origin(p, i, p.out[i].value); }
    }
  }

  lemma FinishKeepsShape(p: Pool, w: nat)
    requires Shape(p) && Enabled(p, Resume(w))
    ensures Shape(Finish(p, w))
  {
    var q, e := Finish(p, w), p.workers[w].entry;
    forall i | 0 <= i < |q.out|
      ensures IsWaiting(q, i) <==> IsWaiting(p, i) && i != e
    {
      if IsWaiting(p, i) && i != e {
        var v :| 0 <= v < |p.workers| && p.workers[v] == Waiting(i);
        assert q.workers[v] == Waiting(i);
      }
    }
  }

  lemma FinishKeepsCalls(p: Pool, w: nat)
    requires Shape(p) && Calls(p) && Enabled(p, Resume(w))
    ensures Calls(Finish(p, w))
  {
  }

  lemma FinishKeepsResults(p: Pool, w: nat)
    requires Inv(p) && Enabled(p, Resume(w))
    ensures Results(Finish(p, w))
  {
    var q, e := Finish(p, w), p.workers[w].entry;
    forall i | 0 <= i < |q.out| && q.out[i].Some?
      ensures Origin(q, i, q.out[i].value)
    {
      if i != e { assert Origin(p, i, p.out[i].value); }
    }
  }

  lemma FinishKeepsWritten(p: Pool, w: nat)
    requires Shape(p) && Written(p) && Enabled(p, Resume(w))
    ensures Written(Finish(p, w))
  {
    var q, e := Finish(p, w), p.workers[w].entry;
    assert p.out[e].None?;
    forall i | 0 <= i < |q.out| && q.out[i].Some? && Owed(q, i)
      ensures HasReceipt(q, i)
    {
      if i == e { assert q.written[|p.written|].0 == i; }
      else {
        assert Owed(p, i) && HasReceipt(p, i);
        var k :| 0 <= k < |p.written| && p.written[k].0 == i;
        assert q.written[k].0 == i;
      }
    }
  }

  /** Answers and the deadline settle only waits that are not settled yet. */
  lemma OthersKeepInv(p: Pool, step: Step)
    requires Inv(p) && Enabled(p, step) && (step.Invoke? || step.Answer? || step.Abort?)
    ensures Inv(Apply(p, step))
  {
    var q := Apply(p, step);
    assert forall i: nat :: IsWaiting(q, i) == IsWaiting(p, i);
    OthersKeepResults(p, step);
  }

  /** An entry whose call settles now has no result yet. */
  lemma OthersKeepResults(p: Pool, step: Step)
    requires Inv(p) && Enabled(p, step) && (step.Invoke? || step.Answer? || step.Abort?)
    ensures Results(Apply(p, step)) && Written(Apply(p, step))
  {
    var q := Apply(p, step);
    forall i | 0 <= i < |q.out| && q.out[i].Some?
      ensures Origin(q, i, q.out[i].value) && (i in q.settled ==> i in p.settled && q.settled[i] == p.settled[i])
    {
      assert Origin(p, i, p.out[i].value);
      assert !IsWaiting(p, i);
    }
  }

  lemma StepKeepsInv(p: Pool, step: Step)
    requires Inv(p) && Enabled(p, step)
    ensures Inv(Apply(p, step))
  {
    match step
    case Take(w) =>
      TakeKeepsShape(p, w);
      TakeKeepsCalls(p, w);
      TakeKeepsResults(p, w);
    case Resume(w) =>
      FinishKeepsShape(p, w);
      FinishKeepsCalls(p, w);
      FinishKeepsResults(p, w);
      FinishKeepsWritten(p, w);
    case _ => OthersKeepInv(p, step);
  }

  // ---------------------------------------------------------------- main results

  ghost predicate Extends<T>(s: seq<T>, s': seq<T>) { |s| <= |s'| && s'[..|s|] == s }

  /** A result, a settled call and a written receipt are final: a later answer, in particular
      one that arrives after the deadline, replaces none of them. */
  lemma StepIsFinal(p: Pool, step: Step)
    requires Inv(p) && Enabled(p, step)
    ensures var q := Apply(p, step);
            && q.decisions == p.decisions && |q.workers| == |p.workers| && (p.aborted ==> q.aborted) && p.next <= q.next
            && (forall i :: 0 <= i < |p.out| && p.out[i].Some? ==> q.out[i] == p.out[i])
            && (forall i :: i in p.settled ==> i in q.settled && q.settled[i] == p.settled[i])
            && Extends(p.written, q.written) && Extends(p.calls, q.calls)
            && (step.Answer? && step.i in p.settled ==> q == p)
  {
    if step.Take? { assert p.next < |p.out| ==> p.out[p.next].None?; }
  }

  ghost predicate Reaches(p: Pool, steps: seq<Step>, q: Pool)
    decreases |steps|
  {
    if steps == [] then q == p
    else Inv(p) && Enabled(p, steps[0]) && Reaches(Apply(p, steps[0]), steps[1..], q)
  }

  ghost predicate Later(p: Pool, q: Pool) {
    && q.decisions == p.decisions && |q.workers| == |p.workers| && |q.out| == |p.out|
    && (forall i :: 0 <= i < |p.out| && p.out[i].Some? ==> q.out[i] == p.out[i])
    && (forall i :: i in p.settled ==> i in q.settled && q.settled[i] == p.settled[i])
    && Extends(p.written, q.written) && Extends(p.calls, q.calls)
  }

  /** Over every interleaving the invariant holds and nothing decided is taken back. */
  lemma {:induction false} RunIsFinal(p: Pool, steps: seq<Step>, q: Pool)
    requires Inv(p) && Reaches(p, steps, q)
    ensures Inv(q) && Later(p, q)
    decreases |steps|
  {
    if steps != [] {
      StepKeepsInv(p, steps[0]);
      StepIsFinal(p, steps[0]);
      var m := Apply(p, steps[0]);
      RunIsFinal(m, steps[1..], q);
      assert m.written == q.written[..|m.written|] && m.calls == q.calls[..|m.calls|];
      assert Extends(p.written, q.written) && Extends(p.calls, q.calls);
    }
  }

  predicate AllFinished(p: Pool) { forall w :: 0 <= w < |p.workers| ==> p.workers[w].Finished? }

  /** Values of all the results; asked for once every worker has returned. */
  function AllResults(p: Pool): seq<Entry>
    requires forall i :: 0 <= i < |p.out| ==> p.out[i].Some?
  {
    seq(|p.out|, i requires 0 <= i < |p.out| => p.out[i].value)
  }

  datatype Category = Accepted | Rejected | Unknown | NotSubmitted

  predicate Counts(e: Entry, c: Category) {
    match c
    case Accepted => e.ok
    case Rejected => !e.ok && !e.uncertain && !e.notSubmitted
    case Unknown => e.uncertain
    case NotSubmitted => e.notSubmitted
  }

  function Count(es: seq<Entry>, c: Category): nat {
    if es == [] then 0 else Count(es[..|es| - 1], c) + if Counts(es[|es| - 1], c) then 1 else 0
  }

  lemma {:induction false} CountsAddUp(es: seq<Entry>)
    requires forall i :: 0 <= i < |es| ==> !(es[i].ok && (es[i].uncertain || es[i].notSubmitted)) && !(es[i].uncertain && es[i].notSubmitted)
    ensures Count(es, Accepted) + Count(es, Rejected) + Count(es, Unknown) + Count(es, NotSubmitted) == |es|
  {
    if es != [] { CountsAddUp(es[..|es| - 1]); }
  }

  lemma FinishedOutcome(p: Pool)
    requires Inv(p) && AllFinished(p) && |p.workers| > 0
    ensures forall i :: 0 <= i < |p.out| ==> p.out[i].Some? && Origin(p, i, p.out[i].value)
    ensures forall i :: i in p.calls ==> i < |p.decisions| && p.decisions[i].Relay? && multiset(p.calls)[i] == 1
    ensures forall i :: 0 <= i < |p.out| && p.decisions[i].Relay? && p.out[i].value.uncertain ==> (i, R.SubmissionUnknown) in p.written
    ensures var es := AllResults(p);
            Count(es, Accepted) + Count(es, Rejected) + Count(es, Unknown) + Count(es, NotSubmitted) == |p.decisions|
  {
    assert p.workers[0].Finished?;
    forall i | 0 <= i < |p.out|
      ensures p.out[i].Some?
    {
      assert !IsWaiting(p, i);
    }
    OriginsAreClean(p);
    CountsAddUp(AllResults(p));
    forall i | i in p.calls
      ensures multiset(p.calls)[i] == 1
    {
      DistinctMeansOnce(p.calls, i);
    }
    forall i | 0 <= i < |p.out| && p.decisions[i].Relay? && p.out[i].value.uncertain
      ensures (i, R.SubmissionUnknown) in p.written
    {
      UncertainIsWritten(p, i);
    }
  }

  // ---------------------------------------------------------------- what an answer means

  /** The node took the vote. */
  predicate Took(p: Pool, i: nat) { i in p.settled && p.settled[i] == Voted }

  /** The call failed before anything was sent. */
  predicate NeverSent(p: Pool, i: nat) { i in p.settled && p.settled[i].Threw? && p.settled[i].notSubmitted }

  /** Nobody knows: the transport says so, or the error is neither one of Core's nor a definite refusal. */
  predicate InDoubt(p: Pool, i: nat) {
    i in p.settled && p.settled[i].Threw? && !p.settled[i].notSubmitted
    && (p.settled[i].uncertain || (p.settled[i].code == RpcError && !p.settled[i].definite))
  }

  predicate Refused(p: Pool, i: nat) {
    i in p.settled && p.settled[i].Threw? && !p.settled[i].notSubmitted && !p.settled[i].uncertain
    && (p.settled[i].code != RpcError || p.settled[i].definite)
  }

  /** Refused because an acceptable vote is already there, over a receipt that says so. */
  predicate RefusedAsKnown(p: Pool, i: nat) {
    Refused(p, i) && p.settled[i].code in {AlreadyVoted, TooOften}
    && i < |p.decisions| && p.decisions[i].Relay? && p.decisions[i].priorDelivered
  }

  /** The result and the receipt of one finished entry, for every decision and answer. */
  ghost predicate Explained(p: Pool, i: nat)
    requires i < |p.decisions| && i < |p.out| && p.out[i].Some?
  {
    var d, e := p.decisions[i], p.out[i].value;
    && (e.ok <==> d.Skip? || (d.Relay? && Took(p, i)))
    && (e.notSubmitted <==> d.Reject? || (d.Relay? && (i !in p.settled || NeverSent(p, i))))
    && (e.uncertain <==> d.Hold? || (d.Relay? && InDoubt(p, i)))
    && ((i, R.Relayed) in p.written <==> d.Relay? && Took(p, i))
    && ((i, R.SubmissionUnknown) in p.written <==> d.Relay? && InDoubt(p, i))
    && ((i, R.Failed) in p.written <==> d.Relay? && Refused(p, i) && !RefusedAsKnown(p, i))
    && (i, R.Confirmed) !in p.written && (i, R.Stale) !in p.written
  }

  lemma ResultFollows(p: Pool, i: nat)
    requires Inv(p) && i < |p.out| && p.out[i].Some?
    ensures var d, e := p.decisions[i], p.out[i].value;
            && (e.ok <==> d.Skip? || (d.Relay? && Took(p, i)))
            && (e.notSubmitted <==> d.Reject? || (d.Relay? && (i !in p.settled || NeverSent(p, i))))
            && (e.uncertain <==> d.Hold? || (d.Relay? && InDoubt(p, i)))
  {
    assert Origin(p, i, p.out[i].value);
    assert i in p.settled ==> p.decisions[i].Relay?;
  }

  lemma ReceiptFollows(p: Pool, i: nat, status: R.Status)
    requires Inv(p) && i < |p.out| && p.out[i].Some?
    ensures (i, status) in p.written <==>
              p.decisions[i].Relay?
              && ((status == R.Relayed && Took(p, i)) || (status == R.SubmissionUnknown && InDoubt(p, i))
                  || (status == R.Failed && Refused(p, i) && !RefusedAsKnown(p, i)))
  {
    if (i, status) in p.written {
      var k :| 0 <= k < |p.written| && p.written[k] == (i, status);
      assert Justified(p, p.written[k]);
    }
    if Owed(p, i) {
      var k :| 0 <= k < |p.written| && p.written[k].0 == i;
      assert Justified(p, p.written[k]);
      assert p.written[k] in p.written;
    }
  }

  lemma EntryAnswers(p: Pool, i: nat)
    requires Inv(p) && i < |p.out| && p.out[i].Some?
    ensures Explained(p, i)
  {
    ResultFollows(p, i);
    ReceiptFollows(p, i, R.Relayed);
    ReceiptFollows(p, i, R.SubmissionUnknown);
    ReceiptFollows(p, i, R.Failed);
    ReceiptFollows(p, i, R.Confirmed);
    ReceiptFollows(p, i, R.Stale);
  }

  /** The first to come settles a call: the answer of the transport as it is, or the deadline,
      which leaves the submission in doubt. */
  lemma {:induction false} SettledByTheFirst(p: Pool, steps: seq<Step>, q: Pool, i: nat)
    requires Inv(p) && Reaches(p, steps, q) && i in q.settled
    ensures i in p.settled ==> q.settled[i] == p.settled[i]
    ensures i !in p.settled ==> Answer(i, q.settled[i]) in steps || (Abort in steps && InDoubt(q, i))
    decreases |steps|
  {
    if steps != [] {
      var m := Apply(p, steps[0]);
      StepKeepsInv(p, steps[0]);
      StepIsFinal(p, steps[0]);
      SettledByTheFirst(m, steps[1..], q, i);
      assert forall s :: s in steps <==> s == steps[0] || s in steps[1..];
    }
  }

  /** A wait that is still open at the deadline ends in doubt and is written down so, whatever
      the node answers afterwards. */
  lemma DeadlineLeavesDoubt(p: Pool, w: nat, steps: seq<Step>, q: Pool)
    requires Inv(p) && !p.aborted && w < |p.workers| && p.workers[w].Waiting? && p.workers[w].entry !in p.settled
    requires Reaches(Apply(p, Abort), steps, q)
    ensures var i := p.workers[w].entry;
            i < |q.out| && (q.out[i].Some? ==> q.out[i].value == Entry(false, true, false) && (i, R.SubmissionUnknown) in q.written)
  {
    var m, i := Apply(p, Abort), p.workers[w].entry;
    StepKeepsInv(p, Abort);
    RunIsFinal(m, steps, q);
    assert i in m.settled && q.settled[i] == m.settled[i] && InDoubt(m, i);
    if q.out[i].Some? {
      EntryAnswers(q, i);
      OriginsAreClean(q);
    }
  }

  /** An answer that comes first decides the entry. */
  lemma AnswerInTimeDecides(p: Pool, i: nat, o: Outcome, steps: seq<Step>, q: Pool)
    requires Inv(p) && i in p.calls && i !in p.settled && Reaches(Apply(p, Answer(i, o)), steps, q)
    ensures i in q.settled && q.settled[i] == o && i < |q.out| == |q.decisions| && (q.out[i].Some? ==> Explained(q, i))
  {
    StepKeepsInv(p, Answer(i, o));
    RunIsFinal(Apply(p, Answer(i, o)), steps, q);
    if q.out[i].Some? { EntryAnswers(q, i); }
  }

  /** A decision is what the receipt says: unreadable, in doubt, delivered or not. */
  lemma DecisionsFollowReceipts(read: Answer<Option<R.Receipt>>, outcome: R.Outcome, signal: R.Signal, now: int, limits: R.Limits)
    ensures var d := DecisionOf(read, outcome, signal, now, limits);
            && (d.Reject? <==> read.Fail?)
            && (d.Hold? <==> read.Ok? && read.value.Some? && read.value.value.status == R.SubmissionUnknown)
            && (d.Skip? ==> read.Ok? && read.value.Some? && read.value.value.outcome == outcome && read.value.value.signal == signal
                            && read.value.value.status in {R.Relayed, R.Confirmed})
            && (d.Relay? ==> (d.priorDelivered <==> read.Ok? && read.value.Some? && read.value.value.status in {R.Relayed, R.Confirmed}))
            && (read.Ok? && read.value.None? ==> d == Relay(false))
  {
  }

  // ---------------------------------------------------------------- the totals

  function Chosen(es: seq<Entry>, c: Category): set<nat> { set i: nat | i < |es| && Counts(es[i], c) }

  /** A total is the number of entries of its kind. */
  lemma {:induction false} CountIsNumber(es: seq<Entry>, c: Category)
    ensures Count(es, c) == |Chosen(es, c)|
  {
    if es != [] {
      var n := |es| - 1;
      CountIsNumber(es[..n], c);
      assert Chosen(es, c) == Chosen(es[..n], c) + if Counts(es[n], c) then {n} else {};
    }
  }

  /** What the batch returns, after any interleaving and any moment of the deadline: one
      result per entry at its own place, given by its decision and by what settled its call,
      with the receipt that goes with it; the node asked at most once per entry and never for
      one that was held, skipped or rejected; and four totals that count the results. */
  lemma BatchOutcome(decisions: seq<Decision>, concurrency: nat, steps: seq<Step>, p: Pool)
    requires Reaches(Start(decisions, concurrency), steps, p) && AllFinished(p)
    ensures |p.out| == |decisions| == |p.decisions|
    ensures forall i :: 0 <= i < |decisions| ==> p.out[i].Some? && Origin(p, i, p.out[i].value) && Explained(p, i)
    ensures forall i :: i in p.settled ==> Answer(i, p.settled[i]) in steps || (Abort in steps && InDoubt(p, i))
    ensures forall i :: i in p.calls ==> i < |decisions| && decisions[i].Relay? && multiset(p.calls)[i] == 1
    ensures forall i :: 0 <= i < |decisions| && decisions[i].Relay? && p.out[i].value.uncertain ==> (i, R.SubmissionUnknown) in p.written
    ensures var es := AllResults(p);
            && Count(es, Accepted) + Count(es, Rejected) + Count(es, Unknown) + Count(es, NotSubmitted) == |decisions|
            && Count(es, Accepted) == |set i: nat | i < |es| && es[i].ok|
            && Count(es, Unknown) == |set i: nat | i < |es| && es[i].uncertain|
            && Count(es, NotSubmitted) == |set i: nat | i < |es| && es[i].notSubmitted|
  {
    var p0 := Start(decisions, concurrency);
    StartFits(decisions, concurrency);
    RunIsFinal(p0, steps, p);
    FinishedOutcome(p);
    forall i | 0 <= i < |decisions|
      ensures Explained(p, i)
    {
      EntryAnswers(p, i);
    }
    forall i | i in p.settled
      ensures Answer(i, p.settled[i]) in steps || (Abort in steps && InDoubt(p, i))
    {
      SettledByTheFirst(p0, steps, p, i);
    }
    TotalsCount(AllResults(p));
  }

  lemma TotalsCount(es: seq<Entry>)
    ensures Count(es, Accepted) == |set i: nat | i < |es| && es[i].ok|
    ensures Count(es, Unknown) == |set i: nat | i < |es| && es[i].uncertain|
    ensures Count(es, NotSubmitted) == |set i: nat | i < |es| && es[i].notSubmitted|
  {
    CountIsNumber(es, Accepted);
    CountIsNumber(es, Unknown);
    CountIsNumber(es, NotSubmitted);
    assert Chosen(es, Accepted) == set i: nat | i < |es| && es[i].ok;
    assert Chosen(es, Unknown) == set i: nat | i < |es| && es[i].uncertain;
    assert Chosen(es, NotSubmitted) == set i: nat | i < |es| && es[i].notSubmitted;
  }

  lemma OriginsAreClean(p: Pool)
    requires Inv(p)
    ensures forall i :: 0 <= i < |p.out| && p.out[i].Some? ==>
              var e := p.out[i].value; !(e.ok && (e.uncertain || e.notSubmitted)) && !(e.uncertain && e.notSubmitted)
  {
    forall i | 0 <= i < |p.out| && p.out[i].Some?
      ensures var e := p.out[i].value; !(e.ok && (e.uncertain || e.notSubmitted)) && !(e.uncertain && e.notSubmitted)
    {
      assert Origin(p, i, p.out[i].value);
    }
  }

  lemma UncertainIsWritten(p: Pool, i: nat)
    requires Inv(p) && i < |p.out| && p.decisions[i].Relay? && p.out[i].Some? && p.out[i].value.uncertain
    ensures (i, R.SubmissionUnknown) in p.written
  {
    assert Origin(p, i, p.out[i].value);
    assert Owed(p, i);
    var k :| 0 <= k < |p.written| && p.written[k].0 == i;
    assert Justified(p, p.written[k]);
  }

  lemma {:induction false} DistinctMeansOnce(s: seq<nat>, x: nat)
    requires x in s && forall j, k :: 0 <= j < k < |s| ==> s[j] != s[k]
    ensures multiset(s)[x] == 1
  {
    var n := |s| - 1;
    assert s == s[..n] + [s[n]];
    if x in s[..n] { DistinctMeansOnce(s[..n], x); }
    else { assert multiset(s[..n])[x] == 0; }
  }

  /** An entry whose stored submission is uncertain, or whose receipt cannot be read, is
      neither submitted nor written by any batch that decided on it then. */
  lemma HeldEntryIsLeftAlone(decisions: seq<Decision>, concurrency: nat, steps: seq<Step>, q: Pool, i: nat,
                             read: Answer<Option<R.Receipt>>, outcome: R.Outcome, signal: R.Signal, now: int, limits: R.Limits)
    requires Reaches(Start(decisions, concurrency), steps, q) && i < |decisions|
    requires decisions[i] == DecisionOf(read, outcome, signal, now, limits)
    requires read.Ok? ==> read.value.Some? && read.value.value.status == R.SubmissionUnknown
    ensures |q.out| == |decisions| && i !in q.calls && forall k :: 0 <= k < |q.written| ==> q.written[k].0 != i
    ensures q.out[i].Some? ==> !q.out[i].value.ok && (q.out[i].value.uncertain <==> read.Ok?)
  {
    StartFits(decisions, concurrency);
    RunIsFinal(Start(decisions, concurrency), steps, q);
    if q.out[i].Some? { assert Origin(q, i, q.out[i].value); }
    forall k | 0 <= k < |q.written|
      ensures q.written[k].0 != i
    {
      assert Justified(q, q.written[k]);
    }
  }

  // ---------------------------------------------------------------- termination

  function Weight(w: Worker): nat { match w case Idle => 1 case Waiting(_) => 2 case Finished => 0 }

  function Total(ws: seq<Worker>): nat { if ws == [] then 0 else Total(ws[..|ws| - 1]) + Weight(ws[|ws| - 1]) }

  function Left(p: Pool): nat { 2 * (if p.next < |p.decisions| then |p.decisions| - p.next else 0) + Total(p.workers) }

  lemma {:induction false} TotalUpdate(ws: seq<Worker>, i: nat, w: Worker)
    requires i < |ws|
    ensures Total(ws[i := w]) == Total(ws) - Weight(ws[i]) + Weight(w)
  {
    var n := |ws| - 1;
    if i < n {
      TotalUpdate(ws[..n], i, w);
      assert ws[i := w][..n] == ws[..n][i := w];
    } else {
      assert ws[i := w][..n] == ws[..n];
    }
  }

  lemma MovesEnd(p: Pool, step: Step)
    requires Inv(p) && Enabled(p, step)
    ensures step.Take? || step.Resume? ==> Left(Apply(p, step)) < Left(p)
    ensures !(step.Take? || step.Resume?) ==> Left(Apply(p, step)) == Left(p)
  {
    if step.Take? {
      TotalUpdate(p.workers, step.w, TakeNext(p, step.w).workers[step.w]);
      assert p.workers == p.workers[step.w := p.workers[step.w]];
    } else if step.Resume? {
      TotalUpdate(p.workers, step.w, Idle);
    }
  }

  /** Every move of a worker brings the batch nearer to its end, and after the deadline a
      worker can always move: the batch never waits for the node beyond it. */
  lemma DeadlineFreesWorkers(p: Pool, step: Step)
    requires Inv(p)
    ensures Enabled(p, step) && (step.Take? || step.Resume?) ==> Left(Apply(p, step)) < Left(p)
    ensures Enabled(p, step) && !(step.Take? || step.Resume?) ==> Left(Apply(p, step)) == Left(p)
    ensures p.aborted && !AllFinished(p) ==> exists w: nat :: Enabled(p, Take(w)) || Enabled(p, Resume(w))
  {
    if Enabled(p, step) { MovesEnd(p, step); }
    if p.aborted && !AllFinished(p) {
      var w: nat :| w < |p.workers| && !p.workers[w].Finished?;
      assert Enabled(p, Take(w)) || Enabled(p, Resume(w));
    }
  }

  // ---------------------------------------------------------------- how many at once

  /** The calls that are about to be made or that nothing has settled yet. */
  function Open(p: Pool): set<nat> { (p.scheduled + set i | i in p.calls) - p.settled.Keys }

  function Awaited(workers: seq<Worker>): set<nat> { set w | 0 <= w < |workers| && workers[w].Waiting? :: workers[w].entry }

  lemma {:induction false} AwaitedIsFew(workers: seq<Worker>)
    ensures |Awaited(workers)| <= |workers|
  {
    if workers != [] {
      var front, last := workers[..|workers| - 1], workers[|workers| - 1];
      AwaitedIsFew(front);
      assert workers == front + [last];
      assert Awaited(workers) == if last.Waiting? then Awaited(front) + {last.entry} else Awaited(front);
    }
  }

  lemma SubsetIsSmaller(a: set<nat>, b: set<nat>)
    requires a <= b
    ensures |a| <= |b|
  {
    if a != {} {
      var x :| x in a;
      SubsetIsSmaller(a - {x}, b - {x});
    }
  }

  /** As many workers as the limit says, but no more than entries, and at least one; in every run
      no more calls than this are open at once. */
  lemma CallsAreLimited(decisions: seq<Decision>, concurrency: nat, steps: seq<Step>, p: Pool)
    requires Reaches(Start(decisions, concurrency), steps, p)
    ensures |p.workers| == if concurrency == 0 || |decisions| == 0 then 1 else if concurrency <= |decisions| then concurrency else |decisions|
    ensures |Open(p)| <= |p.workers|
  {
    StartFits(decisions, concurrency);
    RunIsFinal(Start(decisions, concurrency), steps, p);
    forall i | i in Open(p)
      ensures i in Awaited(p.workers)
    {
      OpenIsAwaited(p, i);
    }
    SubsetIsSmaller(Open(p), Awaited(p.workers));
    AwaitedIsFew(p.workers);
  }

  lemma OpenIsAwaited(p: Pool, i: nat)
    requires Inv(p) && i in Open(p)
    ensures i in Awaited(p.workers)
  {
    assert i < |p.out| && (p.out[i].Some? ==> Origin(p, i, p.out[i].value));
    assert IsWaiting(p, i);
  }

  // ---------------------------------------------------------------- the pool in place

  /** The closure state of a batch in flight. */
  class Batch {
    const decisions: seq<Decision>
    const out: array<Option<Entry>>
    var next: nat
    var workers: seq<Worker>
    var aborted: bool
    var scheduled: set<nat>
    var calls: seq<nat>
    var settled: map<nat, Outcome>
    var written: seq<(nat, R.Status)>

    function View(): Pool
      reads this, out
    {
      Pool(decisions, next, workers, out[..], aborted, scheduled, calls, settled, written)
    }

    constructor (decisions: seq<Decision>, concurrency: nat)
      ensures View() == Start(decisions, concurrency) && Inv(View()) && fresh(out)
    {
      this.decisions := decisions;
      out := new Option<Entry>[|decisions|](_ => None);
      next, aborted, scheduled, calls, settled, written := 0, false, {}, [], map[], [];
      workers := Start(decisions, concurrency).workers;
      new;
      assert out[..] == Start(decisions, concurrency).out;
      StartFits(decisions, concurrency);
    }

    /** A worker takes the next entry; only an entry to relay makes it wait. */
    method TakeEntry(w: nat)
      requires Inv(View()) && Enabled(View(), Take(w))
      modifies this, out
      ensures View() == Apply(old(View()), Take(w)) && Inv(View())
    {
      StepKeepsInv(View(), Take(w));
      ghost var was := View();
      var i := next;
      next := next + 1;
      if |decisions| <= i {
        workers := workers[w := Finished];
      } else if !decisions[i].Relay? {
        out[i] := Some(Immediate(decisions[i]));
      } else if aborted {
        out[i] := Some(Entry(false, false, true));
      } else {
        workers, scheduled := workers[w := Waiting(i)], scheduled + {i};
      }
      assert out[..] == TakeNext(was, w).out;
    }

    /** The vote goes to the node; the caller of this method is the transport. */
    method Submit(i: nat)
      requires Inv(View()) && Enabled(View(), Invoke(i))
      modifies this
      ensures View() == Apply(old(View()), Invoke(i)) && Inv(View())
      ensures i !in old(calls)
    {
      StepKeepsInv(View(), Invoke(i));
      scheduled, calls := scheduled - {i}, calls + [i];
    }

    method Answered(i: nat, o: Outcome)
      requires Inv(View()) && Enabled(View(), Answer(i, o))
      modifies this
      ensures View() == Apply(old(View()), Answer(i, o)) && Inv(View())
    {
      StepKeepsInv(View(), Answer(i, o));
      if i !in settled { settled := settled[i := o]; }
    }

    /** A worker whose call has settled writes its receipt and its result. */
    method Continue(w: nat)
      requires Inv(View()) && Enabled(View(), Resume(w))
      modifies this, out
      ensures View() == Apply(old(View()), Resume(w)) && Inv(View())
    {
      StepKeepsInv(View(), Resume(w));
      ghost var was := View();
      var i := workers[w].entry;
      var receipt := ReceiptOf(settled[i], decisions[i].priorDelivered);
      if receipt.Some? { written := written + [(i, receipt.value)]; }
      out[i] := Some(ResultOf(settled[i]));
      workers := workers[w := Idle];
      assert out[..] == Finish(was, w).out;
    }

    method Deadline()
      requires Inv(View()) && !aborted
      modifies this
      ensures View() == Apply(old(View()), Abort) && Inv(View())
    {
      StepKeepsInv(View(), Abort);
      var expired := SettleWaiting(workers, settled);
      aborted, settled := true, expired;
    }
  }

  method SettleWaiting(workers: seq<Worker>, settled: map<nat, Outcome>) returns (r: map<nat, Outcome>)
    ensures r == SettleAll(workers, settled)
  {
    r := settled;
    for w := 0 to |workers|
      invariant r == SettleAll(workers[..w], settled)
    {
      assert workers[..w + 1][..w] == workers[..w];
      if workers[w].Waiting? && workers[w].entry !in r {
        r := r[workers[w].entry := DEADLINE];
      }
    }
    assert workers[..|workers|] == workers;
  }
}
