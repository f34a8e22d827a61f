/** Relay results, reconciliations and the reads of the chain that they wait for, interleaved
    in any order. */
module VoteRuns {
  import opened Answers
  import R = VoteReceipts
  import C = VoteCache

  /** A reconciliation between its two halves: the receipts it captured, and the read it awaits. */
  datatype Job = Job(user: nat, proposal: nat, captured: map<R.Key, R.Receipt>, reading: R.Reading, read: nat)

  datatype World = World(rows: map<R.Key, R.Receipt>, jobs: map<nat, Job>, cache: C.Cache, clock: int)

  datatype Step =
    | Upsert(key: R.Key, x: R.Receipt)
    | Capture(id: nat, user: nat, proposal: nat, anew: bool, grace: int)
    | Apply(id: nat)
    | GiveUp(id: nat)
    | ReadAnswered(read: nat, votes: seq<R.ChainVote>)
    | ReadRejected(read: nat)
    | OtherRead(proposal: nat, refresh: bool)
    | Forget(proposal: nat)
    | Pass(until: int)

  function RowsOf(rows: map<R.Key, R.Receipt>, user: nat, proposal: nat): map<R.Key, R.Receipt> {
    map k | k in rows && k.user == user && k.proposal == proposal :: rows[k]
  }

  /** The reconciling transaction on the whole table. */
  function Applied(rows: map<R.Key, R.Receipt>, captured: map<R.Key, R.Receipt>, votes: seq<R.ChainVote>, reading: R.Reading): map<R.Key, R.Receipt> {
    map k | k in rows ::
      if k in captured then R.Reconciled(rows[k], captured[k], R.OnChain(votes, k.outpoint, captured[k].signal), reading)
      else rows[k]
  }

  ghost predicate Next(w: World, w': World, step: Step, ttl: int) {
    match step
    case Upsert(key, x) =>
      && x.submittedAt == w.clock
      && w' == w.(rows := w.rows[key := R.Upserted(if key in w.rows then Some(w.rows[key]) else None, x)])
    case Capture(id, user, proposal, anew, grace) =>
      && id !in w.jobs
      && var (c, read) := C.Get(w.cache, proposal, anew, w.clock, ttl);
      w' == w.(jobs := w.jobs[id := Job(user, proposal, RowsOf(w.rows, user, proposal), R.Reading(anew, grace, w.clock, w.clock), read)], cache := c)
    case Apply(id) =>
      && id in w.jobs && w.jobs[id].read < |w.cache.calls| && w.cache.calls[w.jobs[id].read].state.Answered?
      && var job := w.jobs[id];
      && var reading := job.reading.(at := w.clock);
      w' == w.(jobs := w.jobs - {id}, rows := Applied(w.rows, job.captured, w.cache.calls[job.read].state.votes, reading))
    case GiveUp(id) => w' == w.(jobs := w.jobs - {id})
    case ReadAnswered(read, votes) =>
      && read < |w.cache.calls| && w.cache.calls[read].state.InFlight?
      && w' == w.(cache := C.Resolve(w.cache, read, votes, w.clock, ttl))
    case ReadRejected(read) =>
      && read < |w.cache.calls| && w.cache.calls[read].state.InFlight?
      && w' == w.(cache := C.Reject(w.cache, read))
    case OtherRead(proposal, refresh) => w' == w.(cache := C.Get(w.cache, proposal, refresh, w.clock, ttl).0)
    case Forget(proposal) => w' == w.(cache := C.Invalidate(w.cache, proposal))
    case Pass(until) => w.clock <= until && w' == w.(clock := until)
  }

  /** A job awaits a read of its own proposal; one that asked for a refresh awaits a read that
      began when it captured its receipts. Every captured key belongs to the job. */
  ghost predicate JobFits(job: Job, cache: C.Cache) {
    && job.read < |cache.calls| && cache.calls[job.read].proposal == job.proposal
    && (job.reading.anew ==> cache.calls[job.read].startedAt == job.reading.startedAt)
    && (forall k :: k in job.captured ==> k.user == job.user && k.proposal == job.proposal)
  }

  ghost predicate Inv(w: World, ttl: int) {
    && C.CacheInv(w.cache, ttl)
    && (forall id :: id in w.jobs ==> JobFits(w.jobs[id], w.cache))
  }

  /** Whatever receipts are stored, a started process with an empty cache is a beginning. */
  lemma StartFits(rows: map<R.Key, R.Receipt>, clock: int, ttl: int)
    ensures Inv(World(rows, map[], C.Cache(map[], [], 0), clock), ttl)
  {
  }

  lemma JobsStillFit(w: World, w': World, ttl: int)
    requires Inv(w, ttl) && C.CacheInv(w'.cache, ttl) && C.ReadsKept(w.cache, w'.cache)
    requires forall id :: id in w'.jobs ==> id in w.jobs && w'.jobs[id] == w.jobs[id]
    ensures Inv(w', ttl)
  {
    forall id | id in w'.jobs
      ensures JobFits(w'.jobs[id], w'.cache)
    {
      assert JobFits(w.jobs[id], w.cache);
    }
  }

  lemma CaptureKeepsInv(w: World, w': World, step: Step, ttl: int)
    requires Inv(w, ttl) && Next(w, w', step, ttl) && step.Capture?
    ensures Inv(w', ttl)
  {
    C.GetEffect(w.cache, step.proposal, step.anew, w.clock, ttl);
    JobsStillFit(w, w.(cache := w'.cache), ttl);
  }

  lemma StepKeepsInv(w: World, w': World, step: Step, ttl: int)
    requires Inv(w, ttl) && Next(w, w', step, ttl)
    ensures Inv(w', ttl)
  {
    match step
    case Capture(_, _, _, _, _) => CaptureKeepsInv(w, w', step, ttl);
    case OtherRead(proposal, refresh) =>
      C.GetEffect(w.cache, proposal, refresh, w.clock, ttl);
      JobsStillFit(w, w', ttl);
    case ReadAnswered(read, votes) =>
      C.ResolveEffect(w.cache, read, votes, w.clock, ttl);
      JobsStillFit(w, w', ttl);
    case ReadRejected(read) =>
      C.RejectEffect(w.cache, read, ttl);
      JobsStillFit(w, w', ttl);
    case _ => JobsStillFit(w, w', ttl);
  }

  // ---------------------------------------------------------------- leaving the unknown state

  predicate Greater(x: R.Receipt, row: R.Receipt) {
    x.time > row.time || (x.time == row.time && x.signal == row.signal && R.Outranks(x.outcome, row.outcome))
  }

  predicate SameIntent(x: R.Receipt, row: R.Receipt) {
    x.time == row.time && x.outcome == row.outcome && x.signal == row.signal
  }

  predicate Proof(vote: R.ChainVote, row: R.Receipt) { R.ThisOrLater(vote, row) }

  /** The only ways out: a greater intent, a definite result of the same intent, a vote on
      chain that is this one or a later one, or a renewed read, begun after the grace period
      had passed, that shows neither. */
  ghost predicate Cause(w: World, w': World, step: Step, key: R.Key)
    requires key in w.rows && key in w'.rows
  {
    var row, row' := w.rows[key], w'.rows[key];
    match step
    case Upsert(k, x) =>
      && k == key && row' == x.(verifiedAt := None)
      && (Greater(x, row) || (SameIntent(x, row) && x.status in {R.Relayed, R.Confirmed}))
    case Apply(id) =>
      && id in w.jobs && w.jobs[id].read < |w.cache.calls|
      && var job := w.jobs[id];
      && var read := w.cache.calls[job.read];
      && read.proposal == key.proposal && read.state.Answered?
      && var vote := R.OnChain(read.state.votes, key.outpoint, row.signal);
      if vote.Some? && Proof(vote.value, row) then
        row'.status == R.Confirmed && row'.time == vote.value.time && row'.outcome == vote.value.outcome && row'.signal == row.signal
      else
        && row' == row.(status := R.Stale)
        && job.reading.anew && row.submittedAt + job.reading.grace < read.startedAt
    case _ => false
  }

  lemma UnknownKeptByApply(row: R.Receipt, seen: R.Receipt, vote: Option<R.ChainVote>, r: R.Reading)
    requires row.status == R.SubmissionUnknown
    ensures var row' := R.Reconciled(row, seen, vote, r);
            || row' == row
            || (&& R.Unchanged(row, seen)
                && if vote.Some? && Proof(vote.value, row)
                   then row'.status == R.Confirmed && row'.time == vote.value.time && row'.outcome == vote.value.outcome && row'.signal == vote.value.signal
                   else row' == row.(status := R.Stale) && r.anew && row.submittedAt + r.grace < r.startedAt)
  {
  }

  /** One step leaves an unknown row exactly as it is, or moves it for one of the causes. */
  lemma StepKeepsUnknown(w: World, w': World, step: Step, key: R.Key, ttl: int)
    requires Inv(w, ttl) && Next(w, w', step, ttl)
    requires key in w.rows && w.rows[key].status == R.SubmissionUnknown
    ensures key in w'.rows && (w'.rows[key] == w.rows[key] || Cause(w, w', step, key))
  {
    if step.Apply? && key in w.jobs[step.id].captured {
      var job := w.jobs[step.id];
      var votes := w.cache.calls[job.read].state.votes;
      UnknownKeptByApply(w.rows[key], job.captured[key], R.OnChain(votes, key.outpoint, job.captured[key].signal), job.reading.(at := w.clock));
    }
  }

  ghost predicate IsRun(ws: seq<World>, steps: seq<Step>, ttl: int) {
    |ws| == |steps| + 1 && forall i :: 0 <= i < |steps| ==> Next(ws[i], ws[i + 1], steps[i], ttl)
  }

  lemma {:induction false} RunKeepsInv(ws: seq<World>, steps: seq<Step>, ttl: int, n: nat)
    requires IsRun(ws, steps, ttl) && Inv(ws[0], ttl) && n < |ws|
    ensures Inv(ws[n], ttl)
  {
    if 0 < n {
      RunKeepsInv(ws, steps, ttl, n - 1);
      StepKeepsInv(ws[n - 1], ws[n], steps[n - 1], ttl);
    }
  }

  /** Until the first cause, the receipt is untouched and every decision on that entry, for
      whatever vote and at whatever time, is to hold it. */
  lemma {:induction false} UnknownUntilCause(ws: seq<World>, steps: seq<Step>, key: R.Key, ttl: int, n: nat)
    requires IsRun(ws, steps, ttl) && Inv(ws[0], ttl) && n < |ws|
    requires key in ws[0].rows && ws[0].rows[key].status == R.SubmissionUnknown
    requires forall i :: 0 <= i < n && key in ws[i].rows && key in ws[i + 1].rows ==> !Cause(ws[i], ws[i + 1], steps[i], key)
    ensures key in ws[n].rows && ws[n].rows[key] == ws[0].rows[key]
    ensures forall outcome, signal, now, limits :: R.Decide(Some(ws[n].rows[key]), outcome, signal, now, limits) == R.Hold
  {
    if 0 < n {
      UnknownUntilCause(ws, steps, key, ttl, n - 1);
      RunKeepsInv(ws, steps, ttl, n - 1);
      StepKeepsUnknown(ws[n - 1], ws[n], steps[n - 1], key, ttl);
    }
  }

  /** Whatever happens, a row that is no longer the unknown one left through a cause. */
  lemma LeavesOnlyByCause(ws: seq<World>, steps: seq<Step>, key: R.Key, ttl: int)
    requires IsRun(ws, steps, ttl) && Inv(ws[0], ttl)
    requires key in ws[0].rows && ws[0].rows[key].status == R.SubmissionUnknown
    requires key !in ws[|steps|].rows || ws[|steps|].rows[key] != ws[0].rows[key]
    ensures exists i :: 0 <= i < |steps| && key in ws[i].rows && key in ws[i + 1].rows && Cause(ws[i], ws[i + 1], steps[i], key)
  {
    if forall i :: 0 <= i < |steps| && key in ws[i].rows && key in ws[i + 1].rows ==> !Cause(ws[i], ws[i + 1], steps[i], key) {
      UnknownUntilCause(ws, steps, key, ttl, |steps|);
    }
  }
}
