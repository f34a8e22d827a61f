/** Second-factor challenges: how often one challenge can be answered, over any run. */
module MfaChallenges {

  const MAX_ATTEMPTS := 5
  const TTL := 300_000

  datatype Challenge = Challenge(user: nat, expiresAt: int, attempts: nat)

  datatype Event = Passed(token: nat) | Wrong(token: nat)

  /** The challenge table, the users with an enabled second factor, every token ever issued,
      and what was answered so far. */
  datatype State = State(rows: map<nat, Challenge>, enabled: set<nat>, issued: set<nat>, log: seq<Event>)

  datatype Step =
    | Create(user: nat, token: nat, now: int)
    | Verify(token: nat, correct: bool, now: int)
    | Enable(user: nat)
    | Disable(user: nat)

  /** Tokens are random and of 32 bytes: none is issued twice. */
  predicate Enabled(s: State, step: Step) { step.Create? ==> step.token !in s.issued }

  function Kept(rows: map<nat, Challenge>, user: nat, now: int): map<nat, Challenge> {
    map t | t in rows && rows[t].expiresAt >= now && rows[t].user != user :: rows[t]
  }

  function Without(rows: map<nat, Challenge>, token: nat): map<nat, Challenge> { map t | t in rows && t != token :: rows[t] }

  /** The answer is looked at only for a challenge that is alive, has attempts left and
      belongs to a user whose second factor is on. */
  predicate Answerable(s: State, token: nat, now: int) {
    token in s.rows && s.rows[token].expiresAt >= now && s.rows[token].attempts < MAX_ATTEMPTS && s.rows[token].user in s.enabled
  }

  function Next(s: State, step: Step): State {
    match step
    case Create(user, token, now) =>
      s.(rows := Kept(s.rows, user, now)[token := Challenge(user, now + TTL, 0)], issued := s.issued + {token})
    case Verify(token, correct, now) =>
      if !Answerable(s, token, now) then s.(rows := Without(s.rows, token))
      else if correct then s.(rows := Without(s.rows, token), log := s.log + [Passed(token)])
      else s.(rows := s.rows[token := s.rows[token].(attempts := s.rows[token].attempts + 1)], log := s.log + [Wrong(token)])
    case Enable(user) => s.(enabled := s.enabled + {user})
    case Disable(user) => s.(enabled := s.enabled - {user})
  }

  function Count(log: seq<Event>, e: Event): nat { multiset(log)[e] }

  ghost predicate TokenInv(s: State, t: nat) {
    && Count(s.log, Passed(t)) <= 1 && Count(s.log, Wrong(t)) <= MAX_ATTEMPTS
    && (t in s.rows ==> t in s.issued && Count(s.log, Passed(t)) == 0 && Count(s.log, Wrong(t)) == s.rows[t].attempts)
    && (t !in s.issued ==> Count(s.log, Passed(t)) == 0 && Count(s.log, Wrong(t)) == 0)
  }

  ghost predicate Inv(s: State) {
    && (forall t :: TokenInv(s, t))
    && (forall a, b :: a in s.rows && b in s.rows && a != b ==> s.rows[a].user != s.rows[b].user)
  }

  lemma TokenStep(s: State, step: Step, t: nat)
    requires Inv(s) && Enabled(s, step)
    ensures TokenInv(Next(s, step), t)
  {
    assert TokenInv(s, t);
    if step.Verify? && Answerable(s, step.token, step.now) {
      assert TokenInv(s, step.token);
      var e := if step.correct then Passed(step.token) else Wrong(step.token);
      assert Next(s, step).log == s.log + [e];
    }
  }

  lemma StepKeepsInv(s: State, step: Step)
    requires Inv(s) && Enabled(s, step)
    ensures Inv(Next(s, step))
  {
    forall t
      ensures TokenInv(Next(s, step), t)
    {
      TokenStep(s, step, t);
    }
  }

  ghost predicate Reaches(s: State, steps: seq<Step>, s': State)
    decreases |steps|
  {
    if steps == [] then s' == s else Enabled(s, steps[0]) && Reaches(Next(s, steps[0]), steps[1..], s')
  }

  lemma {:induction false} RunKeepsInv(s: State, steps: seq<Step>, s': State)
    requires Inv(s) && Reaches(s, steps, s')
    ensures Inv(s')
    decreases |steps|
  {
    if steps != [] {
      StepKeepsInv(s, steps[0]);
      RunKeepsInv(Next(s, steps[0]), steps[1..], s');
    }
  }

  /** In any run a challenge is passed at most once and answered wrongly at most five times,
      never after it was passed, and a user has at most one challenge open. */
  lemma ChallengesAreBounded(steps: seq<Step>, s: State, t: nat)
    requires Reaches(State(map[], {}, {}, []), steps, s)
    ensures Count(s.log, Passed(t)) <= 1 && Count(s.log, Wrong(t)) <= 5
    ensures Count(s.log, Passed(t)) == 1 ==> t !in s.rows
    ensures forall a, b :: a in s.rows && b in s.rows && s.rows[a].user == s.rows[b].user ==> a == b
  {
    var s0 := State(map[], {}, {}, []);
    assert forall u :: TokenInv(s0, u);
    RunKeepsInv(s0, steps, s);
    assert TokenInv(s, t);
  }

  /** A challenge that was passed, expired or used up, once asked about, is dead for good. */
  lemma {:induction false} DeadStaysDead(s: State, steps: seq<Step>, s': State, t: nat)
    requires t in s.issued && t !in s.rows && Reaches(s, steps, s')
    ensures t !in s'.rows && Count(s'.log, Passed(t)) == Count(s.log, Passed(t)) && Count(s'.log, Wrong(t)) == Count(s.log, Wrong(t))
    decreases |steps|
  {
    if steps != [] {
      var m := Next(s, steps[0]);
      if m.log != s.log { assert m.log == s.log + [m.log[|s.log|]]; }
      DeadStaysDead(m, steps[1..], s', t);
    }
  }

  // ---------------------------------------------------------------- time

  /** A challenge in the table was created in the run and expires five minutes later. */
  ghost predicate Dated(s: State, steps: seq<Step>) {
    forall t :: t in s.rows ==> exists at :: Create(s.rows[t].user, t, at) in steps && s.rows[t].expiresAt == at + 300_000
  }

  lemma DatedStep(s: State, steps: seq<Step>, step: Step)
    requires Dated(s, steps) && Enabled(s, step)
    ensures Dated(Next(s, step), steps + [step])
  {
    var s' := Next(s, step);
    forall t | t in s'.rows
      ensures exists at :: Create(s'.rows[t].user, t, at) in steps + [step] && s'.rows[t].expiresAt == at + 300_000
    {
      if step.Create? && t == step.token {
        assert Create(s'.rows[t].user, t, step.now) in steps + [step];
      } else {
        var at :| Create(s.rows[t].user, t, at) in steps && s.rows[t].expiresAt == at + 300_000;
        assert Create(s'.rows[t].user, t, at) in steps + [step];
      }
    }
  }

  lemma {:induction false} RunIsDated(s: State, before: seq<Step>, steps: seq<Step>, s': State)
    requires Dated(s, before) && Reaches(s, steps, s')
    ensures Dated(s', before + steps)
    decreases |steps|
  {
    if steps != [] {
      DatedStep(s, before, steps[0]);
      RunIsDated(Next(s, steps[0]), before + [steps[0]], steps[1..], s');
      assert before + [steps[0]] + steps[1..] == before + steps;
    } else {
      assert before + steps == before;
    }
  }

  /** In every run, a challenge is passed or counted against only within five minutes of its
      creation, with fewer than five wrong answers before, and while the factor is on. */
  lemma AnsweredInTime(steps: seq<Step>, s: State, token: nat, correct: bool, now: int)
    requires Reaches(State(map[], {}, {}, []), steps, s)
    requires Next(s, Verify(token, correct, now)).log != s.log
    ensures exists user, at :: Create(user, token, at) in steps && now <= at + 300_000 && user in s.enabled
    ensures Count(s.log, Wrong(token)) < 5 && Count(s.log, Passed(token)) == 0
    ensures Next(s, Verify(token, correct, now)).log == s.log + [if correct then Passed(token) else Wrong(token)]
  {
    var s0 := State(map[], {}, {}, []);
    assert forall u :: TokenInv(s0, u);
    RunKeepsInv(s0, steps, s);
    RunIsDated(s0, [], steps, s);
    assert [] + steps == steps && TokenInv(s, token);
    var at :| Create(s.rows[token].user, token, at) in steps && s.rows[token].expiresAt == at + 300_000;
  }

  datatype Verdict = Ok | ChallengeInvalid | WrongCode

  class Challenges {
    var rows: map<nat, Challenge>
    var enabled: set<nat>
    ghost var issued: set<nat>
    ghost var log: seq<Event>

    ghost function View(): State
      reads this
    {
      State(rows, enabled, issued, log)
    }

    method CreateChallenge(user: nat, token: nat, now: int)
      requires token !in issued
      modifies this
      ensures View() == Next(old(View()), Create(user, token, now))
      ensures token in rows && rows[token] == Challenge(user, now + 300_000, 0)
      ensures forall t :: t in rows && t != token <==> t in old(rows) && t != token && now <= old(rows)[t].expiresAt && old(rows)[t].user != user
      ensures forall t :: t in rows && t != token ==> rows[t] == old(rows)[t]
    {
      rows := map t | t in rows && rows[t].expiresAt >= now :: rows[t];
      rows := map t | t in rows && rows[t].user != user :: rows[t];
      rows, issued := rows[token := Challenge(user, now + TTL, 0)], issued + {token};
    }

    method VerifyChallenge(token: nat, correct: bool, now: int) returns (v: Verdict)
      modifies this
      ensures View() == Next(old(View()), Verify(token, correct, now))
      ensures v == Ok <==> old(Answerable(View(), token, now)) && correct
      ensures v == WrongCode <==> old(Answerable(View(), token, now)) && !correct
      ensures v == ChallengeInvalid <==>
                !(token in old(rows) && now <= old(rows)[token].expiresAt && old(rows)[token].attempts < 5 && old(rows)[token].user in enabled)
      ensures v == WrongCode ==> rows == old(rows)[token := old(rows)[token].(attempts := old(rows)[token].attempts + 1)]
      ensures v != WrongCode ==> rows == map t | t in old(rows) && t != token :: old(rows)[t]
    {
      if token !in rows || rows[token].expiresAt < now || rows[token].attempts >= MAX_ATTEMPTS || rows[token].user !in enabled {
        rows := map t | t in rows && t != token :: rows[t];
        return ChallengeInvalid;
      }
      if !correct {
        rows, log := rows[token := rows[token].(attempts := rows[token].attempts + 1)], log + [Wrong(token)];
        return WrongCode;
      }
      rows, log := map t | t in rows && t != token :: rows[t], log + [Passed(token)];
      return Ok;
    }
  }

  /** A recovery code is struck from the stored hashes, and only that one. */
  method ConsumeRecoveryCode(hashes: seq<nat>, candidate: nat) returns (used: bool, rest: seq<nat>)
    ensures used <==> candidate in hashes
    ensures multiset(rest) == multiset(hashes) - multiset{candidate}
  {
    for i := 0 to |hashes|
      invariant candidate !in hashes[..i]
    {
      if hashes[i] == candidate {
        assert hashes == hashes[..i] + [candidate] + hashes[i + 1..];
        return true, hashes[..i] + hashes[i + 1..];
      }
    }
    assert hashes[..|hashes|] == hashes;
    return false, hashes;
  }
}
