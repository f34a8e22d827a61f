/** The statistics service: a loop that re-arms its own timer, a watchdog that gives up on a
    stuck tick, and generation fences on what each source may publish. */
module StatsScheduler {
  import opened Answers

  const BASE_TICK := 20_000
  const MAX_BACKOFF := 300_000

  datatype Fetch = Running | Settled(ok: bool) | Skipped

  /** One call of tick, named by its generation. */
  datatype Tick = Tick(core: Fetch, market: Fetch, finished: bool)

  /** One pass of the loop. Its position is its token. */
  datatype Run = Run(gen: nat, rescheduled: bool, watchdog: bool, returned: bool)

  datatype Entry = Entry(gen: nat, ok: bool)

  /** One independent source: the newest generation it reported, its delay, and its reports. */
  datatype Source = Source(completed: nat, delay: int, log: seq<Entry>)

  datatype Service = Service(
    started: bool, stopped: bool, timer: Option<nat>, token: Option<nat>, tickGen: nat, completed: nat,
    core: Source, market: Source, marketStarted: nat, marketNextAt: int,
    armed: set<nat>, nextTimer: nat, ticks: map<nat, Tick>, runs: seq<Run>)

  const SILENT := Source(0, BASE_TICK, [])

  const INITIAL := Service(false, false, None, None, 0, 0, SILENT, SILENT, 0, 0, {}, 0, map[], [])

  datatype Step =
    | Start(now: int)
    | Stop
    | TimerFires(handle: nat, now: int)
    | WatchdogFires(run: nat, now: int)
    | CoreSettles(gen: nat, ok: bool)
    | MarketSettles(gen: nat, ok: bool, now: int)
    | TickEnds(gen: nat)
    | TickReturns(run: nat)
    | DirectTick(now: int)

  function Min(a: int, b: int): int { if a < b then a else b }

  function Backoff(delay: int, ok: bool): int { if ok then BASE_TICK else Min(delay * 2, MAX_BACKOFF) }

  // ---------------------------------------------------------------- atomic segments

  /** A source takes one report per generation, and only from a newer one than its last. */
  function Report(x: Source, gen: nat, ok: bool): Source {
    if gen <= x.completed then x else Source(gen, Backoff(x.delay, ok), x.log + [Entry(gen, ok)])
  }

  function PublishCore(s: Service, gen: nat, ok: bool): Service {
    if gen <= s.completed then s else s.(core := Report(s.core, gen, ok))
  }

  function ReportMarket(s: Service, gen: nat, ok: bool, now: int): Service {
    if gen <= s.market.completed then s
    else s.(market := Report(s.market, gen, ok), marketNextAt := now + Backoff(s.market.delay, ok))
  }

  function PublishMarket(s: Service, gen: nat, ok: bool, now: int): Service {
    if gen <= s.completed then s else ReportMarket(s, gen, ok, now)
  }

  function BeginTick(s: Service, gen: nat, now: int): Service {
    var fetch := now >= s.marketNextAt;
    s.(marketStarted := if fetch then gen else s.marketStarted,
       ticks := s.ticks[gen := Tick(Running, if fetch then Running else Skipped, false)])
  }

  function Launch(s: Service, now: int): Service {
    if s.stopped then s
    else
      var gen := s.tickGen + 1;
      BeginTick(s.(token := Some(|s.runs|), tickGen := gen, runs := s.runs + [Run(gen, false, true, false)]), gen, now)
  }

  function ScheduleNext(s: Service): Service {
    if s.stopped then s
    else s.(timer := Some(s.nextTimer), armed := s.armed + {s.nextTimer}, nextTimer := s.nextTimer + 1)
  }

  function RescheduleOnce(s: Service, run: nat): Service
    requires run < |s.runs|
  {
    if s.runs[run].rescheduled || s.stopped || s.token != Some(run) then s
    else ScheduleNext(s.(runs := s.runs[run := s.runs[run].(rescheduled := true)]))
  }

  /** What the watchdog charges to the sources that have not reported for this tick. */
  function Abandon(s: Service, gen: nat, now: int): Service {
    if gen <= s.completed then s
    else
      var s1 := s.(completed := gen, core := Report(s.core, gen, false));
      if s1.marketStarted == gen then ReportMarket(s1, gen, false, now) else s1
  }

  function StartOnce(s: Service, now: int): Service {
    if s.started then s else Launch(s.(started := true, stopped := false), now)
  }

  function Halt(s: Service): Service {
    s.(stopped := true, started := false, token := None, completed := if s.completed < s.tickGen then s.tickGen else s.completed,
       timer := None, armed := if s.timer.Some? then s.armed - {s.timer.value} else s.armed)
  }

  function Watch(s: Service, run: nat, now: int): Service
    requires run < |s.runs|
  {
    var fired := s.(runs := s.runs[run := s.runs[run].(watchdog := false)]);
    if s.token != Some(run) then fired else RescheduleOnce(Abandon(fired, s.runs[run].gen, now), run)
  }

  predicate Enabled(s: Service, step: Step) {
    match step
    case TimerFires(h, _) => h in s.armed
    case WatchdogFires(r, _) => r < |s.runs| && s.runs[r].watchdog
    case CoreSettles(g, _) => g in s.ticks && s.ticks[g].core.Running?
    case MarketSettles(g, _, _) => g in s.ticks && s.ticks[g].market.Running?
    case TickEnds(g) => g in s.ticks && !s.ticks[g].core.Running? && !s.ticks[g].market.Running? && !s.ticks[g].finished
    case TickReturns(r) => r < |s.runs| && !s.runs[r].returned && s.runs[r].gen in s.ticks && s.ticks[s.runs[r].gen].finished
    case _ => true
  }

  function Next(s: Service, step: Step): Service
    requires Enabled(s, step)
  {
    match step
    case Start(now) => StartOnce(s, now)
    case Stop => Halt(s)
    case TimerFires(h, now) => Launch(s.(armed := s.armed - {h}), now)
    case WatchdogFires(r, now) => Watch(s, r, now)
    case CoreSettles(g, ok) => PublishCore(s.(ticks := s.ticks[g := s.ticks[g].(core := Settled(ok))]), g, ok)
    case MarketSettles(g, ok, now) => PublishMarket(s.(ticks := s.ticks[g := s.ticks[g].(market := Settled(ok))]), g, ok, now)
    case TickEnds(g) =>
      s.(ticks := s.ticks[g := s.ticks[g].(finished := true)], completed := if g <= s.completed then s.completed else g)
    case TickReturns(r) => RescheduleOnce(s.(runs := s.runs[r := s.runs[r].(returned := true, watchdog := false)]), r)
    case DirectTick(now) => BeginTick(s.(tickGen := s.tickGen + 1), s.tickGen + 1, now)
  }

  // ---------------------------------------------------------------- invariant

  /** The current pass is in flight and still owes the next timer. */
  predicate InFlight(s: Service) {
    s.token.Some? && s.token.value < |s.runs| && !s.runs[s.token.value].rescheduled
    && s.runs[s.token.value].watchdog && !s.runs[s.token.value].returned
  }

  /** The loop is alive in exactly one place while started, and nowhere while stopped. */
  predicate LoopInv(s: Service) {
    && (s.started ==> !s.stopped && s.token.Some?)
    && (!s.started ==> s.token.None? && s.armed == {})
    && (forall h :: h in s.armed ==> s.timer == Some(h) && h < s.nextTimer)
    && (s.token.Some? ==>
          && s.token.value < |s.runs|
          && if s.runs[s.token.value].rescheduled then s.timer.Some? && s.armed == {s.timer.value}
             else s.armed == {} && InFlight(s))
  }

  /** Consecutive failures at the end of what a source has published. */
  function Failures(log: seq<Entry>): nat {
    if log == [] || log[|log| - 1].ok then 0 else 1 + Failures(log[..|log| - 1])
  }

  function Pow2(k: nat): nat { if k == 0 then 1 else 2 * Pow2(k - 1) }

  function Delay(failures: nat): int { Min(BASE_TICK * Pow2(failures), MAX_BACKOFF) }

  /** Reports come in strictly increasing generations, and the delay is the base doubled
      once per failure since the last success, up to the cap. */
  predicate SourceInv(x: Source, tickGen: nat) {
    && x.completed <= tickGen && x.delay == Delay(Failures(x.log))
    && (forall i :: 0 <= i < |x.log| ==> x.log[i].gen <= x.completed)
    && (forall i, j :: 0 <= i < j < |x.log| ==> x.log[i].gen < x.log[j].gen)
  }

  predicate GenInv(s: Service) {
    && s.completed <= s.tickGen
    && (forall g :: g in s.ticks ==> g <= s.tickGen)
    && (forall i :: 0 <= i < |s.runs| ==> s.runs[i].gen <= s.tickGen && s.runs[i].gen in s.ticks)
  }

  predicate SourcesInv(s: Service) { SourceInv(s.core, s.tickGen) && SourceInv(s.market, s.tickGen) }

  predicate Inv(s: Service) { LoopInv(s) && GenInv(s) && SourcesInv(s) }

  lemma Pow2IsPositive(k: nat)
    ensures Pow2(k) >= 1
  {
  }

  lemma BackoffFollowsFailures(log: seq<Entry>, e: Entry)
    ensures Backoff(Delay(Failures(log)), e.ok) == Delay(Failures(log + [e]))
  {
    assert (log + [e])[..|log|] == log;
    Pow2IsPositive(Failures(log));
  }

  lemma ReportKeeps(x: Source, gen: nat, ok: bool, tickGen: nat)
    requires SourceInv(x, tickGen) && gen <= tickGen
    ensures SourceInv(Report(x, gen, ok), tickGen)
  {
    BackoffFollowsFailures(x.log, Entry(gen, ok));
  }

  /** A step gives each source at most one report. */
  lemma StepReports(s: Service, step: Step) returns (gen: nat, ok: bool)
    requires GenInv(s) && Enabled(s, step)
    ensures gen <= s.tickGen <= Next(s, step).tickGen
    ensures Next(s, step).core == s.core || Next(s, step).core == Report(s.core, gen, ok)
    ensures Next(s, step).market == s.market || Next(s, step).market == Report(s.market, gen, ok)
  {
    match step
    case WatchdogFires(r, now) => gen, ok := s.runs[r].gen, false;
    case CoreSettles(g, o) => gen, ok := g, o;
    case MarketSettles(g, o, now) => gen, ok := g, o;
    case _ => gen, ok := 0, false;
  }

  lemma SourceStep(x: Source, x': Source, gen: nat, ok: bool, tickGen: nat, tickGen': nat)
    requires SourceInv(x, tickGen) && gen <= tickGen <= tickGen' && (x' == x || x' == Report(x, gen, ok))
    ensures SourceInv(x', tickGen')
  {
    ReportKeeps(x, gen, ok, tickGen);
  }

  lemma SourcesStep(s: Service, step: Step)
    requires SourcesInv(s) && GenInv(s) && Enabled(s, step)
    ensures SourcesInv(Next(s, step))
  {
    var gen, ok := StepReports(s, step);
    SourceStep(s.core, Next(s, step).core, gen, ok, s.tickGen, Next(s, step).tickGen);
    SourceStep(s.market, Next(s, step).market, gen, ok, s.tickGen, Next(s, step).tickGen);
  }

  /** The loop's own state is not the watchdog's to change. */
  lemma AbandonFrame(s: Service, gen: nat, now: int)
    ensures var s' := Abandon(s, gen, now);
            s' == s.(completed := s'.completed, core := s'.core, market := s'.market, marketNextAt := s'.marketNextAt)
    ensures Abandon(s, gen, now).completed == if gen <= s.completed then s.completed else gen
  {
  }

  lemma LaunchKeepsGen(s: Service, now: int)
    requires GenInv(s)
    ensures GenInv(Launch(s, now))
  {
  }

  lemma RescheduleKeepsGen(s: Service, run: nat)
    requires GenInv(s) && run < |s.runs|
    ensures GenInv(RescheduleOnce(s, run))
  {
  }

  lemma SettleKeepsGen(s: Service, step: Step)
    requires GenInv(s) && Enabled(s, step) && (step.CoreSettles? || step.MarketSettles? || step.TickEnds? || step.DirectTick?)
    ensures GenInv(Next(s, step))
  {
  }

  lemma GenStep(s: Service, step: Step)
    requires GenInv(s) && Enabled(s, step)
    ensures GenInv(Next(s, step))
  {
    match step
    case Start(now) => LaunchKeepsGen(s.(started := true, stopped := false), now);
    case TimerFires(h, now) => LaunchKeepsGen(s.(armed := s.armed - {h}), now);
    case WatchdogFires(r, now) =>
      var fired := s.(runs := s.runs[r := s.runs[r].(watchdog := false)]);
      AbandonFrame(fired, s.runs[r].gen, now);
      RescheduleKeepsGen(Abandon(fired, s.runs[r].gen, now), r);
    case TickReturns(r) => RescheduleKeepsGen(s.(runs := s.runs[r := s.runs[r].(returned := true, watchdog := false)]), r);
    case Stop =>
    case _ => SettleKeepsGen(s, step);
  }

  lemma LaunchKeepsLoop(s: Service, now: int)
    requires !s.stopped && s.started && s.armed == {}
    ensures LoopInv(Launch(s, now))
  {
  }

  lemma LoopStep(s: Service, step: Step)
    requires LoopInv(s) && Enabled(s, step)
    ensures LoopInv(Next(s, step))
  {
    match step
    case Start(now) => if !s.started { LaunchKeepsLoop(s.(started := true, stopped := false), now); }
    case TimerFires(h, now) =>
      assert s.armed == {s.timer.value};
      LaunchKeepsLoop(s.(armed := s.armed - {h}), now);
    case WatchdogFires(r, now) => AbandonFrame(s.(runs := s.runs[r := s.runs[r].(watchdog := false)]), s.runs[r].gen, now);
    case _ =>
  }

  lemma StepKeepsInv(s: Service, step: Step)
    requires Inv(s) && Enabled(s, step)
    ensures Inv(Next(s, step))
  {
    LoopStep(s, step);
    GenStep(s, step);
    SourcesStep(s, step);
  }

  // ---------------------------------------------------------------- main results

  ghost predicate Reaches(s: Service, steps: seq<Step>, s': Service)
    decreases |steps|
  {
    if steps == [] then s' == s
    else Enabled(s, steps[0]) && Reaches(Next(s, steps[0]), steps[1..], s')
  }

  lemma {:induction false} RunKeepsInv(s: Service, steps: seq<Step>, s': Service)
    requires Inv(s) && Reaches(s, steps, s')
    ensures Inv(s')
    decreases |steps|
  {
    if steps != [] {
      StepKeepsInv(s, steps[0]);
      RunKeepsInv(Next(s, steps[0]), steps[1..], s');
    }
  }

  /** After any sequence of starts, stops, timers, watchdogs and late completions: started
      means exactly one of an armed timer and a pass in flight that still owes it; stopped
      means neither. A pass in flight can always be ended by its watchdog. */
  lemma OneLoop(steps: seq<Step>, s: Service)
    requires Reaches(INITIAL, steps, s)
    ensures s.started ==> (|s.armed| == 1) != InFlight(s)
    ensures |s.armed| <= 1
    ensures !s.started ==> s.armed == {} && !InFlight(s)
    ensures InFlight(s) ==> forall now :: Enabled(s, WatchdogFires(s.token.value, now)) && |Next(s, WatchdogFires(s.token.value, now)).armed| == 1
  {
    RunKeepsInv(INITIAL, steps, s);
  }

  /** The published generations of each source strictly increase, and its delay is the base
      doubled once per consecutive published failure, up to the cap. */
  lemma PublishedInOrder(steps: seq<Step>, s: Service)
    requires Reaches(INITIAL, steps, s)
    ensures forall i, j :: 0 <= i < j < |s.core.log| ==> s.core.log[i].gen < s.core.log[j].gen
    ensures forall i, j :: 0 <= i < j < |s.market.log| ==> s.market.log[i].gen < s.market.log[j].gen
    ensures s.core.delay == Min(20_000 * Pow2(Failures(s.core.log)), 300_000)
    ensures s.market.delay == Min(20_000 * Pow2(Failures(s.market.log)), 300_000)
  {
    RunKeepsInv(INITIAL, steps, s);
  }

  /** A Core result is published as it is, exactly in front of both fences: a success resets
      the delay to twenty seconds, a failure doubles it up to five minutes. */
  lemma CoreIsPublished(s: Service, gen: nat, ok: bool)
    requires Enabled(s, CoreSettles(gen, ok))
    ensures var s' := Next(s, CoreSettles(gen, ok));
            && s'.market == s.market && s'.marketNextAt == s.marketNextAt && s'.completed == s.completed
            && if s.completed < gen && s.core.completed < gen
               then s'.core == Source(gen, if ok then 20_000 else if s.core.delay * 2 < 300_000 then s.core.delay * 2 else 300_000, s.core.log + [Entry(gen, ok)])
               else s'.core == s.core
  {
  }

  /** The same for the market, which also says when it may be asked again. */
  lemma MarketIsPublished(s: Service, gen: nat, ok: bool, now: int)
    requires Enabled(s, MarketSettles(gen, ok, now))
    ensures var s' := Next(s, MarketSettles(gen, ok, now));
            && s'.core == s.core && s'.completed == s.completed
            && if s.completed < gen && s.market.completed < gen
               then s'.market == Source(gen, if ok then 20_000 else if s.market.delay * 2 < 300_000 then s.market.delay * 2 else 300_000, s.market.log + [Entry(gen, ok)])
                    && s'.marketNextAt == now + s'.market.delay
               else s'.market == s.market && s'.marketNextAt == s.marketNextAt
  {
  }

  /** The generation and the fetches of the tick that a step begins: Core always, the market
      exactly when it is due. */
  lemma TickFetchesWhatIsDue(s: Service, step: Step, now: int)
    requires Inv(s) && Enabled(s, step)
    requires step == DirectTick(now) || (step == Start(now) && !s.started) || (step.TimerFires? && step.now == now)
    ensures var s' := Next(s, step);
            && s'.tickGen == s.tickGen + 1 && s'.tickGen in s'.ticks
            && s'.ticks[s'.tickGen] == Tick(Running, if s.marketNextAt <= now then Running else Skipped, false)
            && s'.marketStarted == (if s.marketNextAt <= now then s'.tickGen else s.marketStarted)
  {
  }

  /** A pass never stalls: each source that it asked may settle; once both have, and not before,
      its tick ends and completes its generation; then the pass returns and the timer is armed,
      or the watchdog does that first. */
  lemma PassesComeToAnEnd(s: Service, ok: bool, now: int)
    requires Inv(s) && s.started && s.armed == {}
    ensures InFlight(s)
    ensures var r, g := s.token.value, s.runs[s.token.value].gen;
            var tick := s.ticks[g];
            && (tick.core.Running? ==> Enabled(s, CoreSettles(g, ok)))
            && (tick.market.Running? ==> Enabled(s, MarketSettles(g, ok, now)))
            && (!tick.finished ==> (Enabled(s, TickEnds(g)) <==> (tick.core.Settled? || tick.core.Skipped?) && (tick.market.Settled? || tick.market.Skipped?)))
            && (Enabled(s, TickEnds(g)) ==>
                  Next(s, TickEnds(g)) == s.(ticks := s.ticks[g := tick.(finished := true)], completed := if s.completed < g then g else s.completed))
            && (tick.finished <==> Enabled(s, TickReturns(r)))
            && (tick.finished ==> Next(s, TickReturns(r)).timer.Some? && Next(s, TickReturns(r)).armed == {Next(s, TickReturns(r)).timer.value})
            && Enabled(s, WatchdogFires(r, now))
            && Next(s, WatchdogFires(r, now)).timer.Some? && Next(s, WatchdogFires(r, now)).armed == {Next(s, WatchdogFires(r, now)).timer.value}
  {
    AbandonFrame(s.(runs := s.runs[s.token.value := s.runs[s.token.value].(watchdog := false)]), s.runs[s.token.value].gen, now);
  }

  /** The watchdog of the active pass charges a failure to Core if it has not reported for this
      tick, and to the market if this tick asked it and it has not; another pass's does nothing. */
  lemma WatchdogCharges(s: Service, run: nat, now: int)
    requires Inv(s) && Enabled(s, WatchdogFires(run, now))
    ensures var s', gen := Next(s, WatchdogFires(run, now)), s.runs[run].gen;
            if s.token == Some(run) && s.completed < gen then
              && s'.completed == gen
              && s'.core.log == s.core.log + (if s.core.completed < gen then [Entry(gen, false)] else [])
              && s'.market.log == s.market.log + (if s.marketStarted == gen && s.market.completed < gen then [Entry(gen, false)] else [])
            else s'.completed == s.completed && s'.core == s.core && s'.market == s.market
  {
  }

  /** What came out later than a fence is newer than it. */
  ghost predicate NewerThan(log: seq<Entry>, log': seq<Entry>, fence: nat) {
    && |log| <= |log'| && log'[..|log|] == log
    && forall i :: |log| <= i < |log'| ==> log'[i].gen > fence
  }

  lemma AbandonRespectsFence(s: Service, gen: nat, now: int)
    ensures var s' := Abandon(s, gen, now);
            s.completed <= s'.completed && NewerThan(s.core.log, s'.core.log, s.completed) && NewerThan(s.market.log, s'.market.log, s.completed)
  {
  }

  lemma StepRespectsFence(s: Service, step: Step)
    requires Enabled(s, step)
    ensures var s' := Next(s, step);
            s.completed <= s'.completed && NewerThan(s.core.log, s'.core.log, s.completed) && NewerThan(s.market.log, s'.market.log, s.completed)
  {
    if step.WatchdogFires? {
      AbandonRespectsFence(s.(runs := s.runs[step.run := s.runs[step.run].(watchdog := false)]), s.runs[step.run].gen, step.now);
    }
  }

  lemma NewerThanTrans(a: seq<Entry>, b: seq<Entry>, c: seq<Entry>, f: nat, g: nat)
    requires NewerThan(a, b, f) && NewerThan(b, c, g) && f <= g
    ensures NewerThan(a, c, f)
  {
    assert c[..|a|] == c[..|b|][..|a|];
    forall i | |a| <= i < |c|
      ensures c[i].gen > f
    {
      if i < |b| { assert c[i] == c[..|b|][i]; }
    }
  }

  lemma {:induction false} FencesHold(s: Service, steps: seq<Step>, s': Service)
    requires Reaches(s, steps, s')
    ensures s.completed <= s'.completed && NewerThan(s.core.log, s'.core.log, s.completed) && NewerThan(s.market.log, s'.market.log, s.completed)
    decreases |steps|
  {
    if steps != [] {
      var m := Next(s, steps[0]);
      StepRespectsFence(s, steps[0]);
      FencesHold(m, steps[1..], s');
      NewerThanTrans(s.core.log, m.core.log, s'.core.log, s.completed, m.completed);
      NewerThanTrans(s.market.log, m.market.log, s'.market.log, s.completed, m.completed);
    }
  }

  /** A tick that its watchdog abandoned, and every tick begun before a stop, publishes nothing
      from then on, in any run. */
  lemma RetiredTicksStaySilent(s: Service, step: Step, steps: seq<Step>, s': Service, gen: nat)
    requires Inv(s) && Enabled(s, step) && Reaches(Next(s, step), steps, s')
    requires (step.Stop? && gen <= s.tickGen)
             || (step.WatchdogFires? && s.token == Some(step.run) && gen == s.runs[step.run].gen)
    ensures var m := Next(s, step);
            && (forall i :: |m.core.log| <= i < |s'.core.log| ==> s'.core.log[i].gen != gen)
            && (forall i :: |m.market.log| <= i < |s'.market.log| ==> s'.market.log[i].gen != gen)
  {
    assert gen <= Next(s, step).completed;
    FencesHold(Next(s, step), steps, s');
  }

  // ---------------------------------------------------------------- the module's variables

  /** The module-level variables, and the callbacks and timers that refer to them. */
  class Scheduler {
    var started: bool
    var stopped: bool
    var tickTimer: Option<nat>
    var activeRunToken: Option<nat>
    var tickGen: nat
    var lastCompletedGen: nat
    var core: Source
    var market: Source
    var lastMarketStartedGen: nat
    var marketNextAt: int
    var armed: set<nat>
    var nextTimer: nat
    var ticks: map<nat, Tick>
    var runs: seq<Run>

    function View(): Service
      reads this
    {
      Service(started, stopped, tickTimer, activeRunToken, tickGen, lastCompletedGen, core, market,
              lastMarketStartedGen, marketNextAt, armed, nextTimer, ticks, runs)
    }

    constructor ()
      ensures View() == INITIAL && Inv(View())
    {
      started, stopped, tickTimer, activeRunToken, tickGen, lastCompletedGen := false, false, None, None, 0, 0;
      core, market, lastMarketStartedGen, marketNextAt := SILENT, SILENT, 0, 0;
      armed, nextTimer, ticks, runs := {}, 0, map[], [];
    }

    method Arm()
      modifies this
      ensures View() == ScheduleNext(old(View()))
    {
      if stopped { return; }
      tickTimer, armed, nextTimer := Some(nextTimer), armed + {nextTimer}, nextTimer + 1;
    }

    method Observe(gen: nat, now: int)
      modifies this
      ensures View() == BeginTick(old(View()), gen, now)
    {
      var fetchMarket := now >= marketNextAt;
      if fetchMarket { lastMarketStartedGen := gen; }
      ticks := ticks[gen := Tick(Running, if fetchMarket then Running else Skipped, false)];
    }

    method RunAndReschedule(now: int)
      modifies this
      ensures View() == Launch(old(View()), now)
    {
      if stopped { return; }
      activeRunToken, tickGen := Some(|runs|), tickGen + 1;
      runs := runs + [Run(tickGen, false, true, false)];
      Observe(tickGen, now);
    }

    method StartService(now: int)
      requires Inv(View())
      modifies this
      ensures View() == Next(old(View()), Start(now)) && Inv(View())
    {
      StepKeepsInv(View(), Start(now));
      if started { return; }
      started, stopped := true, false;
      RunAndReschedule(now);
    }

    method StopService()
      requires Inv(View())
      modifies this
      ensures View() == Next(old(View()), Step.Stop) && Inv(View())
    {
      StepKeepsInv(View(), Step.Stop);
      stopped, started, activeRunToken := true, false, None;
      if lastCompletedGen < tickGen { lastCompletedGen := tickGen; }
      if tickTimer.Some? { armed, tickTimer := armed - {tickTimer.value}, None; }
    }

    method TimerFired(handle: nat, now: int)
      requires Inv(View()) && handle in armed
      modifies this
      ensures View() == Next(old(View()), TimerFires(handle, now)) && Inv(View())
    {
      StepKeepsInv(View(), TimerFires(handle, now));
      armed := armed - {handle};
      RunAndReschedule(now);
    }

    method RescheduleOnceFor(run: nat)
      requires run < |runs|
      modifies this
      ensures View() == RescheduleOnce(old(View()), run)
    {
      if runs[run].rescheduled || stopped || activeRunToken != Some(run) { return; }
      runs := runs[run := runs[run].(rescheduled := true)];
      Arm();
    }

    /** The watchdog charges a failure to each source that has not reported for its tick. */
    method GiveUp(gen: nat, now: int)
      modifies this
      ensures View() == Abandon(old(View()), gen, now)
      ensures lastCompletedGen >= gen
    {
      if gen <= lastCompletedGen { return; }
      lastCompletedGen := gen;
      if gen > core.completed { core := Source(gen, Min(core.delay * 2, MAX_BACKOFF), core.log + [Entry(gen, false)]); }
      if lastMarketStartedGen == gen && gen > market.completed {
        market := Source(gen, Min(market.delay * 2, MAX_BACKOFF), market.log + [Entry(gen, false)]);
        marketNextAt := now + market.delay;
      }
    }

    method WatchdogFired(run: nat, now: int)
      requires Inv(View()) && run < |runs| && runs[run].watchdog
      modifies this
      ensures View() == Next(old(View()), WatchdogFires(run, now)) && Inv(View())
    {
      StepKeepsInv(View(), WatchdogFires(run, now));
      runs := runs[run := runs[run].(watchdog := false)];
      if activeRunToken != Some(run) { return; }
      GiveUp(runs[run].gen, now);
      RescheduleOnceFor(run);
    }

    method TickReturned(run: nat)
      requires Inv(View()) && Enabled(View(), TickReturns(run))
      modifies this
      ensures View() == Next(old(View()), TickReturns(run)) && Inv(View())
    {
      StepKeepsInv(View(), TickReturns(run));
      runs := runs[run := runs[run].(returned := true, watchdog := false)];
      RescheduleOnceFor(run);
    }

    /** A result counts only in front of both fences. */
    method PublishCoreResult(gen: nat, ok: bool)
      modifies this
      ensures View() == PublishCore(old(View()), gen, ok)
      ensures core != old(core) ==> core.completed == gen && old(lastCompletedGen) < gen && old(core.completed) < gen
    {
      if gen <= lastCompletedGen || gen <= core.completed { return; }
      var delay := if ok then BASE_TICK else Min(core.delay * 2, MAX_BACKOFF);
      core := Source(gen, delay, core.log + [Entry(gen, ok)]);
    }

    method CoreSettled(gen: nat, ok: bool)
      requires Inv(View()) && Enabled(View(), CoreSettles(gen, ok))
      modifies this
      ensures View() == Next(old(View()), CoreSettles(gen, ok)) && Inv(View())
    {
      StepKeepsInv(View(), CoreSettles(gen, ok));
      ticks := ticks[gen := ticks[gen].(core := Settled(ok))];
      PublishCoreResult(gen, ok);
    }

    method MarketSettled(gen: nat, ok: bool, now: int)
      requires Inv(View()) && Enabled(View(), MarketSettles(gen, ok, now))
      modifies this
      ensures View() == Next(old(View()), MarketSettles(gen, ok, now)) && Inv(View())
    {
      StepKeepsInv(View(), MarketSettles(gen, ok, now));
      ticks := ticks[gen := ticks[gen].(market := Settled(ok))];
      if gen <= lastCompletedGen || gen <= market.completed { return; }
      var delay := if ok then BASE_TICK else Min(market.delay * 2, MAX_BACKOFF);
      market, marketNextAt := Source(gen, delay, market.log + [Entry(gen, ok)]), now + delay;
    }

    method TickEnded(gen: nat)
      requires Inv(View()) && Enabled(View(), TickEnds(gen))
      modifies this
      ensures View() == Next(old(View()), TickEnds(gen)) && Inv(View())
    {
      StepKeepsInv(View(), TickEnds(gen));
      ticks := ticks[gen := ticks[gen].(finished := true)];
      if gen > lastCompletedGen { lastCompletedGen := gen; }
    }

    method TickDirectly(now: int)
      requires Inv(View())
      modifies this
      ensures View() == Next(old(View()), DirectTick(now)) && Inv(View())
    {
      StepKeepsInv(View(), DirectTick(now));
      tickGen := tickGen + 1;
      Observe(tickGen, now);
    }
  }
}
