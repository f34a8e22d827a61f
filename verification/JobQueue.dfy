/** The indexer's process-wide queue: one job at a time, a pool queued at most once. */
module JobQueue {
  import opened Answers

  /** The drain loop: not started, working on a pool, or ended but not yet cleared. The last
      phase lasts until the loop's completion callback runs. */
  datatype Drain = Off | Working(pool: nat) | Ending

  datatype Jobs = Jobs(queue: seq<nat>, syncing: set<nat>, drain: Drain, closed: bool)

  datatype Step = Enqueue(pool: nat, due: bool) | JobDone | Cleared | Close

  predicate Enabled(j: Jobs, step: Step) {
    match step
    case JobDone => j.drain.Working?
    case Cleared => j.drain.Ending?
    case _ => true
  }

  /** The loop takes its next job, or ends. */
  function Advance(j: Jobs): Jobs {
    if j.closed || j.queue == [] then j.(drain := Ending) else j.(drain := Working(j.queue[0]), queue := j.queue[1..])
  }

  function Next(j: Jobs, step: Step): Jobs
    requires Enabled(j, step)
  {
    match step
    case Enqueue(p, due) =>
      if j.closed || p in j.syncing || !due then j
      else
        var q := j.(syncing := j.syncing + {p}, queue := j.queue + [p]);
        if j.drain.Off? then Advance(q) else q
    case JobDone => Advance(j.(syncing := j.syncing - {j.drain.pool}))
    case Cleared => j.(drain := Off)
    case Close => Jobs([], j.syncing - (set p | p in j.queue), j.drain, true)
  }

  predicate Running(j: Jobs, p: nat) { j.drain == Working(p) }

  ghost predicate Inv(j: Jobs) {
    && (forall p :: p in j.syncing <==> p in j.queue || Running(j, p))
    && (forall p :: !(p in j.queue && Running(j, p)))
    && (forall a, b :: 0 <= a < b < |j.queue| ==> j.queue[a] != j.queue[b])
    && (j.closed ==> j.queue == [])
  }

  lemma AdvanceKeepsInv(j: Jobs)
    requires forall p :: p in j.syncing <==> p in j.queue
    requires (forall a, b :: 0 <= a < b < |j.queue| ==> j.queue[a] != j.queue[b]) && (j.closed ==> j.queue == [])
    ensures Inv(Advance(j))
  {
    if j.queue != [] {
      assert forall p :: p in j.queue <==> p == j.queue[0] || p in j.queue[1..];
    }
  }

  lemma StepKeepsInv(j: Jobs, step: Step)
    requires Inv(j) && Enabled(j, step)
    ensures Inv(Next(j, step))
  {
    match step
    case Enqueue(p, due) =>
      if !j.closed && p !in j.syncing && j.drain.Off? { AdvanceKeepsInv(j.(syncing := j.syncing + {p}, queue := j.queue + [p])); }
    case JobDone => AdvanceKeepsInv(j.(syncing := j.syncing - {j.drain.pool}));
    case _ =>
  }

  ghost predicate Reaches(j: Jobs, steps: seq<Step>, j': Jobs)
    decreases |steps|
  {
    if steps == [] then j' == j else Enabled(j, steps[0]) && Reaches(Next(j, steps[0]), steps[1..], j')
  }

  /** A pool counts as syncing exactly while it is queued once or being worked on, never both. */
  lemma {:induction false} SyncingMeansOneJob(j: Jobs, steps: seq<Step>, j': Jobs, p: nat)
    requires Inv(j) && Reaches(j, steps, j')
    ensures Inv(j')
    ensures p in j'.syncing <==> (multiset(j'.queue)[p] == 1) != Running(j', p)
    ensures multiset(j'.queue)[p] <= 1
    decreases |steps|
  {
    if steps != [] {
      StepKeepsInv(j, steps[0]);
      SyncingMeansOneJob(Next(j, steps[0]), steps[1..], j', p);
    } else {
      CountOfDistinct(j'.queue, p);
    }
  }

  lemma {:induction false} CountOfDistinct(s: seq<nat>, p: nat)
    requires forall a, b :: 0 <= a < b < |s| ==> s[a] != s[b]
    ensures multiset(s)[p] == if p in s then 1 else 0
  {
    if s != [] {
      var n := |s| - 1;
      assert s == s[..n] + [s[n]];
      CountOfDistinct(s[..n], p);
    }
  }

  // ---------------------------------------------------------------- jobs left behind

  /** A job is queued and nothing works on it. */
  ghost predicate Stranded(j: Jobs) { j.drain.Off? && j.queue != [] }

  /** The loop ends only after a job, and never with another one waiting; and it takes the
      completion callback to leave a queued job without a loop. */
  lemma LoopEndsEmpty(j: Jobs, step: Step)
    requires Inv(j) && Enabled(j, step)
    ensures !j.drain.Ending? && Next(j, step).drain.Ending? ==> step == JobDone && Next(j, step).queue == []
    ensures !Stranded(j) && Stranded(Next(j, step)) ==> step == Cleared && j.drain.Ending?
  {
  }

  ghost predicate NoneCleared(steps: seq<Step>) { forall e :: e in steps ==> !e.Cleared? }

  ghost predicate SomeDue(steps: seq<Step>) { exists e :: e in steps && e.Enqueue? && e.due }

  lemma DueOrLater(steps: seq<Step>)
    requires steps != []
    ensures SomeDue(steps) <==> (steps[0].Enqueue? && steps[0].due) || SomeDue(steps[1..])
    ensures NoneCleared(steps) <==> !steps[0].Cleared? && NoneCleared(steps[1..])
  {
    assert forall e :: e in steps <==> e == steps[0] || e in steps[1..];
  }

  /** While the loop has ended and is not cleared, the queue holds what was there and every
      due arrival, until it is closed. */
  lemma {:induction false} WindowFills(j: Jobs, steps: seq<Step>, j': Jobs)
    requires Inv(j) && j.drain.Ending? && Reaches(j, steps, j') && NoneCleared(steps)
    ensures Inv(j') && j'.drain.Ending?
    ensures j'.queue != [] <==> !j'.closed && (j.queue != [] || SomeDue(steps))
    ensures j.closed ==> j'.closed
    decreases |steps|
  {
    if steps != [] {
      DueOrLater(steps);
      StepKeepsInv(j, steps[0]);
      WindowFills(Next(j, steps[0]), steps[1..], j');
    }
  }

  /** The loop ended with step k of the run and has not been cleared since. */
  ghost predicate EndedWith(j: Jobs, steps: seq<Step>, k: int, m: Jobs, j': Jobs) {
    && 0 <= k < |steps| && steps[k] == JobDone && NoneCleared(steps[k + 1..])
    && m.drain.Ending? && m.queue == [] && Inv(m) && Reaches(m, steps[k + 1..], j')
  }

  lemma {:induction false} WindowBegins(j: Jobs, steps: seq<Step>, j': Jobs)
    requires Inv(j) && Reaches(j, steps, j') && j'.drain.Ending?
    ensures (j.drain.Ending? && NoneCleared(steps)) || exists k, m :: EndedWith(j, steps, k, m, j')
    decreases |steps|
  {
    if steps != [] {
      var n := Next(j, steps[0]);
      DueOrLater(steps);
      StepKeepsInv(j, steps[0]);
      LoopEndsEmpty(j, steps[0]);
      WindowBegins(n, steps[1..], j');
      if n.drain.Ending? && NoneCleared(steps[1..]) {
        if !j.drain.Ending? { assert EndedWith(j, steps, 0, n, j'); }
      } else {
        var k, m :| EndedWith(n, steps[1..], k, m, j');
        assert steps[1..][k + 1..] == steps[k + 1 + 1..];
        assert EndedWith(j, steps, k + 1, m, j');
      }
    }
  }

  /** In every run from an idle queue that comes to the completion callback: the callback
      leaves a job stranded exactly if, after the step with which the loop ended, a due job
      came in and the queue was not closed. */
  lemma StrandedExactly(steps: seq<Step>, j: Jobs)
    requires Reaches(Jobs([], {}, Off, false), steps, j) && j.drain.Ending?
    ensures exists k, m :: EndedWith(Jobs([], {}, Off, false), steps, k, m, j)
              && (Stranded(Next(j, Cleared)) <==> !j.closed && SomeDue(steps[k + 1..]))
  {
    var j0 := Jobs([], {}, Off, false);
    WindowBegins(j0, steps, j);
    var k, m :| EndedWith(j0, steps, k, m, j);
    WindowFills(m, steps[k + 1..], j);
  }

  /** From then on only a due job of another pool, or closing, gets anything moving. */
  lemma StrandedWaitsForAnother(j: Jobs, step: Step)
    requires Inv(j) && Stranded(j) && Enabled(j, step)
    ensures Next(j, step) != j <==> step.Close? || (step.Enqueue? && step.due && step.pool !in j.queue)
    ensures step.Enqueue? && Next(j, step) != j ==> Running(Next(j, step), j.queue[0])
  {
    if step.Close? { assert Next(j, step).queue != j.queue; }
  }

  lemma StrandedIsReachable(first: nat, second: nat)
    requires first != second
    ensures exists steps, j :: Reaches(Jobs([], {}, Off, false), steps, j) && Stranded(j) && second in j.syncing
  {
    var j0 := Jobs([], {}, Off, false);
    var j1 := Next(j0, Enqueue(first, true));
    var j2 := Next(j1, JobDone);
    var j3 := Next(j2, Enqueue(second, true));
    var j4 := Next(j3, Cleared);
    assert j3.queue == [second];
    assert Reaches(j4, [], j4);
    assert [Cleared][1..] == [];
    assert Reaches(j3, [Cleared], j4);
    assert [Enqueue(second, true), Cleared][1..] == [Cleared];
    assert Reaches(j2, [Enqueue(second, true), Cleared], j4);
    assert [JobDone, Enqueue(second, true), Cleared][1..] == [Enqueue(second, true), Cleared];
    assert Reaches(j1, [JobDone, Enqueue(second, true), Cleared], j4);
    assert [Enqueue(first, true), JobDone, Enqueue(second, true), Cleared][1..] == [JobDone, Enqueue(second, true), Cleared];
    assert Reaches(j0, [Enqueue(first, true), JobDone, Enqueue(second, true), Cleared], j4);
  }

  class Queue {
    var queue: seq<nat>
    var syncing: set<nat>
    var drain: Drain
    var closed: bool

    function View(): Jobs
      reads this
    {
      Jobs(queue, syncing, drain, closed)
    }

    constructor ()
      ensures View() == Jobs([], {}, Off, false) && Inv(View())
    {
      queue, syncing, drain, closed := [], {}, Off, false;
    }

    /** The loop up to its next await. */
    method Loop()
      modifies this
      ensures View() == Advance(old(View()))
    {
      if closed || queue == [] { drain := Ending; return; }
      drain, queue := Working(queue[0]), queue[1..];
    }

    method Add(pool: nat, due: bool)
      requires Inv(View())
      modifies this
      ensures View() == Next(old(View()), Enqueue(pool, due)) && Inv(View())
    {
      StepKeepsInv(View(), Enqueue(pool, due));
      if closed || pool in syncing || !due { return; }
      syncing, queue := syncing + {pool}, queue + [pool];
      if drain.Off? { Loop(); }
    }

    method Done()
      requires Inv(View()) && drain.Working?
      modifies this
      ensures View() == Next(old(View()), JobDone) && Inv(View())
    {
      StepKeepsInv(View(), JobDone);
      syncing := syncing - {drain.pool};
      Loop();
    }

    method Shut()
      requires Inv(View())
      modifies this
      ensures View() == Next(old(View()), Close) && Inv(View())
    {
      StepKeepsInv(View(), Close);
      closed, syncing, queue := true, syncing - (set p | p in queue), [];
    }
  }
}
