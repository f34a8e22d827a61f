/** Vote receipts: one row per voter, outpoint and proposal, the upsert of relay results, the
    relay decision, and the compare-and-swap writes of the reconciler. */
module VoteReceipts {
  import opened Answers

  datatype Outcome = NoOutcome | Yes | No | Abstain
  datatype Signal = Funding | Valid | Delete | Endorsed
  datatype Status = Relayed | Confirmed | Stale | Failed | SubmissionUnknown

  /** Core's order of outcomes at equal vote time. */
  function Rank(o: Outcome): nat {
    match o case NoOutcome => 0 case Yes => 1 case No => 2 case Abstain => 3
  }

  function Strength(s: Status): nat {
    match s case Confirmed => 4 case Relayed => 3 case SubmissionUnknown => 2 case _ => 1
  }

  datatype Key = Key(user: nat, outpoint: nat, proposal: nat)

  datatype Receipt = Receipt(outcome: Outcome, signal: Signal, time: int, status: Status, error: Option<string>,
                             submittedAt: int, verifiedAt: Option<int>)

  datatype ChainVote = ChainVote(outpoint: nat, outcome: Outcome, signal: Signal, time: int)

  datatype Limits = Limits(recentRelay: int, confirmedFreshness: int)

  // ---------------------------------------------------------------- statements

  /** The upsert's guard on an existing row. */
  predicate Replaces(x: Receipt, row: Receipt) {
    || x.time > row.time
    || (x.time == row.time && x.outcome == row.outcome && x.signal == row.signal && Strength(x.status) > Strength(row.status))
    || (x.time == row.time && x.signal == row.signal && Rank(x.outcome) > Rank(row.outcome))
    || (x.time == row.time && x.outcome == row.outcome && x.signal == row.signal
        && x.status in {Failed, Stale} && row.status in {Failed, Stale})
  }

  function Upserted(row: Option<Receipt>, x: Receipt): Receipt {
    if row.None? || Replaces(x, row.value) then x.(verifiedAt := None) else row.value
  }

  /** The five columns a reconciling write compares with what it read before its await. */
  predicate Unchanged(row: Receipt, seen: Receipt) {
    row.time == seen.time && row.outcome == seen.outcome && row.signal == seen.signal
    && row.submittedAt == seen.submittedAt && row.status == seen.status
  }

  function MarkConfirmed(row: Receipt, seen: Receipt, vote: ChainVote, error: Option<string>, now: int): Receipt {
    if Unchanged(row, seen)
    then Receipt(vote.outcome, vote.signal, vote.time, Confirmed, error, row.submittedAt, Some(now)) else row
  }

  function MarkStale(row: Receipt, seen: Receipt, cutoff: int): Receipt {
    if Unchanged(row, seen) && row.submittedAt < cutoff then row.(status := Stale) else row
  }

  /** Core's order on a vote seen on chain and a requested one. */
  predicate Supersedes(vote: ChainVote, row: Receipt) {
    vote.time > row.time || (vote.time == row.time && Rank(vote.outcome) > Rank(row.outcome))
  }

  predicate Exact(vote: ChainVote, row: Receipt) { vote.time == row.time && vote.outcome == row.outcome }

  predicate Lists(vote: ChainVote, outpoint: nat, signal: Signal) { vote.outpoint == outpoint && vote.signal == signal }

  /** Vote i is the last one listed for its outpoint and signal. */
  predicate IsLast(votes: seq<ChainVote>, i: int, outpoint: nat, signal: Signal) {
    0 <= i < |votes| && Lists(votes[i], outpoint, signal) && forall j :: i < j < |votes| ==> !Lists(votes[j], outpoint, signal)
  }

  /** The vote indexed under an outpoint and signal: the last one listed. */
  function OnChain(votes: seq<ChainVote>, outpoint: nat, signal: Signal): (r: Option<ChainVote>)
    ensures r.Some? ==> exists i :: 0 <= i < |votes| && IsLast(votes, i, outpoint, signal) && votes[i] == r.value
    ensures r.None? ==> forall v :: v in votes ==> v.outpoint != outpoint || v.signal != signal
  {
    if votes == [] then None
    else
      var last := votes[|votes| - 1];
      if Lists(last, outpoint, signal) then
        assert IsLast(votes, |votes| - 1, outpoint, signal);
        Some(last)
      else
        var r := OnChain(votes[..|votes| - 1], outpoint, signal);
        assert forall i :: IsLast(votes[..|votes| - 1], i, outpoint, signal) ==> IsLast(votes, i, outpoint, signal);
        r
  }

  datatype Reading = Reading(anew: bool, grace: int, startedAt: int, at: int)

  /** What the reconciling transaction makes of one row, given the row as it was captured
      before the read of the chain. */
  function Reconciled(row: Receipt, seen: Receipt, vote: Option<ChainVote>, r: Reading): Receipt {
    if seen.status == SubmissionUnknown && !(vote.Some? && (Exact(vote.value, seen) || Supersedes(vote.value, seen))) then
      if r.anew && seen.submittedAt < r.startedAt - r.grace then MarkStale(row, seen, r.startedAt - r.grace) else row
    else if vote.Some? then
      MarkConfirmed(row, seen, vote.value,
                    if seen.status == SubmissionUnknown && Supersedes(vote.value, seen) then Some("superseded_by_later_vote") else None,
                    r.at)
    else if seen.status == Relayed && seen.submittedAt < r.at - r.grace then MarkStale(row, seen, r.at - r.grace)
    else row
  }

  /** Core's order of outcomes: none, yes, no, abstain. */
  predicate Outranks(a: Outcome, b: Outcome) {
    match a
    case NoOutcome => false
    case Yes => b == NoOutcome
    case No => b == NoOutcome || b == Yes
    case Abstain => b != Abstain
  }

  /** A vote seen on chain that is this one, or one that Core prefers to it. */
  predicate ThisOrLater(vote: ChainVote, row: Receipt) {
    vote.time > row.time || (vote.time == row.time && (vote.outcome == row.outcome || Outranks(vote.outcome, row.outcome)))
  }

  /** The row that changed since it was captured is left alone, whatever the chain shows. */
  lemma ChangedRowIsLeftAlone(row: Receipt, seen: Receipt, vote: Option<ChainVote>, r: Reading)
    requires row.time != seen.time || row.outcome != seen.outcome || row.signal != seen.signal
             || row.submittedAt != seen.submittedAt || row.status != seen.status
    ensures Reconciled(row, seen, vote, r) == row
  {
  }

  /** What becomes of an unchanged row. Seen on chain, it is confirmed with the chain's vote, an
      uncertain one only by this vote or a later one, which is said. Not seen, a relayed row is
      stale once the grace period has passed at the time of the write; an uncertain one once it
      had passed when a renewed read began; confirmed, failed and stale rows stay. */
  lemma UnchangedRowFollowsChain(row: Receipt, vote: Option<ChainVote>, r: Reading)
    ensures var row' := Reconciled(row, row, vote, r);
            && (row.status != SubmissionUnknown && vote.Some? ==>
                  row' == Receipt(vote.value.outcome, vote.value.signal, vote.value.time, Confirmed, None, row.submittedAt, Some(r.at)))
            && (row.status == SubmissionUnknown && vote.Some? && ThisOrLater(vote.value, row) ==>
                  row' == Receipt(vote.value.outcome, vote.value.signal, vote.value.time, Confirmed,
                                  if vote.value.time == row.time && vote.value.outcome == row.outcome then None else Some("superseded_by_later_vote"),
                                  row.submittedAt, Some(r.at)))
            && (row.status == SubmissionUnknown && !(vote.Some? && ThisOrLater(vote.value, row)) ==>
                  row' == if r.anew && row.submittedAt < r.startedAt - r.grace then row.(status := Stale) else row)
            && (row.status == Relayed && vote.None? ==> row' == if row.submittedAt < r.at - r.grace then row.(status := Stale) else row)
            && (row.status in {Confirmed, Failed, Stale} && vote.None? ==> row' == row)
  {
  }

  // ---------------------------------------------------------------- the relay decision

  datatype Decision = Relay | Hold | Skip(reason: string)

  function Decide(row: Option<Receipt>, outcome: Outcome, signal: Signal, now: int, limits: Limits): Decision {
    if row.None? then Relay
    else
      var r := row.value;
      if r.status == SubmissionUnknown then Hold
      else if r.outcome != outcome || r.signal != signal then Relay
      else if r.status == Confirmed then
        var verified := if r.verifiedAt.Some? then r.verifiedAt.value else 0;
        if 0 < verified && 0 <= now - verified < limits.confirmedFreshness then Skip("already_on_chain") else Relay
      else if r.status == Relayed then
        if 0 <= now - r.submittedAt < limits.recentRelay then Skip("recently_relayed") else Relay
      else Relay
  }

  /** Exactly which stored rows suppress a submission. */
  lemma DecideSkipsExactly(row: Option<Receipt>, outcome: Outcome, signal: Signal, now: int, limits: Limits)
    ensures Decide(row, outcome, signal, now, limits) == Hold <==> row.Some? && row.value.status == SubmissionUnknown
    ensures Decide(row, outcome, signal, now, limits).Skip? <==>
              && row.Some? && row.value.outcome == outcome && row.value.signal == signal
              && ((row.value.status == Relayed && 0 <= now - row.value.submittedAt < limits.recentRelay)
                  || (row.value.status == Confirmed && row.value.verifiedAt.Some? && 0 < row.value.verifiedAt.value
                      && 0 <= now - row.value.verifiedAt.value < limits.confirmedFreshness))
  {
  }

  /** When a stored row stops suppressing its own vote. */
  function SuppressedUntil(row: Receipt, limits: Limits): int {
    if row.status == Relayed then row.submittedAt + limits.recentRelay
    else if row.status == Confirmed && row.verifiedAt.Some? then row.verifiedAt.value + limits.confirmedFreshness
    else row.submittedAt
  }

  /** Only an uncertain row holds an entry for good. Any other is relayed again at latest when
      its freshness has run out, and a different outcome or signal is relayed at once. */
  lemma SuppressionEnds(row: Receipt, outcome: Outcome, signal: Signal, now: int, limits: Limits)
    requires row.status != SubmissionUnknown
    ensures row.outcome != outcome || row.signal != signal || SuppressedUntil(row, limits) <= now ==>
              Decide(Some(row), outcome, signal, now, limits) == Relay
  {
  }

  /** A relay that just succeeded suppresses exactly its own repetition, for exactly the
      window, whatever older receipt it replaced. */
  lemma RelayedSuppressesRepetition(prior: Option<Receipt>, x: Receipt, outcome: Outcome, signal: Signal, now: int, limits: Limits)
    requires x.status == Relayed && (prior.Some? ==> Replaces(x, prior.value)) && x.submittedAt <= now
    ensures Decide(Some(Upserted(prior, x)), outcome, signal, now, limits) == Skip("recently_relayed") <==>
              outcome == x.outcome && signal == x.signal && now < x.submittedAt + limits.recentRelay
  {
  }

  // ---------------------------------------------------------------- the upsert is a join

  /** Vote time, then outcome, then strength of evidence. */
  predicate AtMost(a: Receipt, b: Receipt) {
    a.time < b.time
    || (a.time == b.time && (Rank(a.outcome) < Rank(b.outcome)
                             || (Rank(a.outcome) == Rank(b.outcome) && Strength(a.status) <= Strength(b.status))))
  }

  /** Receipts that cannot be told apart by intent and evidence. */
  predicate Same(a: Receipt, b: Receipt) {
    a.time == b.time && a.outcome == b.outcome && a.signal == b.signal && Strength(a.status) == Strength(b.status)
  }

  /** A result of another intent replaces the row exactly if it is later, or at the same time
      and of the same signal outranks it; of the same intent exactly if its evidence is
      stronger, or both say that nothing was delivered. */
  lemma UpsertReplacesExactly(row: Receipt, x: Receipt)
    ensures x.time != row.time ==> Upserted(Some(row), x) == if x.time > row.time then x.(verifiedAt := None) else row
    ensures x.time == row.time && x.signal != row.signal ==> Upserted(Some(row), x) == row
    ensures x.time == row.time && x.signal == row.signal && x.outcome != row.outcome ==>
              Upserted(Some(row), x) == if Outranks(x.outcome, row.outcome) then x.(verifiedAt := None) else row
    ensures x.time == row.time && x.signal == row.signal && x.outcome == row.outcome ==>
              Upserted(Some(row), x) ==
                if match x.status
                   case Confirmed => row.status != Confirmed
                   case Relayed => row.status in {SubmissionUnknown, Failed, Stale}
                   case SubmissionUnknown => row.status in {Failed, Stale}
                   case _ => row.status in {Failed, Stale}
                then x.(verifiedAt := None) else row
    ensures Upserted(None, x) == x.(verifiedAt := None)
  {
  }

  /** No result, however late or weak, lowers a stored intent or its evidence, and no
      result moves a row to another signal without a later vote time. */
  lemma UpsertNeverLowers(row: Receipt, x: Receipt)
    ensures AtMost(row, Upserted(Some(row), x))
    ensures x.signal == row.signal || x.time > row.time ==> AtMost(x, Upserted(Some(row), x))
    ensures Upserted(Some(row), x).signal != row.signal ==> x.time > row.time
  {
  }

  /** The row after folding results into an absent row, in the order they arrive. */
  function Fold(xs: seq<Receipt>): Option<Receipt> {
    if xs == [] then None else Some(Upserted(Fold(xs[..|xs| - 1]), xs[|xs| - 1]))
  }

  /** The results with the latest vote time all carry one signal. */
  ghost predicate OneSignalAtLatest(xs: seq<Receipt>) {
    forall x, y :: x in xs && y in xs && x.signal != y.signal ==> exists z :: z in xs && (z.time > x.time || z.time > y.time)
  }

  /** The folded row is one of the results, up to its verification time, and the greatest of them. */
  ghost predicate IsGreatest(row: Receipt, xs: seq<Receipt>) {
    && (exists x :: x in xs && Same(row, x))
    && (forall x :: x in xs ==> AtMost(x, row))
  }

  /** The latest vote time among the results, and who first reached it. */
  lemma {:induction false} FoldKeepsTime(xs: seq<Receipt>)
    requires xs != []
    ensures exists x :: x in xs && Same(Fold(xs).value, x)
    ensures forall x :: x in xs ==> x.time <= Fold(xs).value.time
  {
    var init, last := xs[..|xs| - 1], xs[|xs| - 1];
    assert last in xs && forall x :: x in init ==> x in xs;
    assert forall x :: x in xs ==> x in init || x == last;
    if init != [] {
      FoldKeepsTime(init);
      var x :| x in init && Same(Fold(init).value, x);
      assert x in xs;
    }
    if Fold(xs).value == last.(verifiedAt := None) { assert Same(Fold(xs).value, last); }
  }

  /** The fold is the lexicographic maximum, as soon as the latest results agree on a signal. */
  lemma {:induction false} FoldIsGreatest(xs: seq<Receipt>, signal: Signal, latest: int)
    requires xs != []
    requires forall x :: x in xs ==> x.time <= latest
    requires forall x :: x in xs && x.time == latest ==> x.signal == signal
    ensures forall x :: x in xs && x.time == latest ==> AtMost(x, Fold(xs).value)
    ensures exists x :: x in xs && Same(Fold(xs).value, x)
    decreases |xs|
  {
    var init, last := xs[..|xs| - 1], xs[|xs| - 1];
    assert last in xs && forall x :: x in init ==> x in xs;
    assert forall x :: x in xs ==> x in init || x == last;
    FoldKeepsTime(xs);
    if init != [] {
      FoldIsGreatest(init, signal, latest);
      FoldKeepsTime(init);
      var prior := Fold(init).value;
      var w :| w in init && Same(prior, w);
      assert w in xs;
      UpsertNeverLowers(prior, last);
      forall x | x in xs && x.time == latest
        ensures AtMost(x, Fold(xs).value)
      {
        if x in init {
          assert AtMost(x, prior);
        } else if prior.time == latest {
          assert prior.signal == signal;
        }
      }
    }
  }

  lemma {:induction false} SomeLatest(xs: seq<Receipt>) returns (z: Receipt)
    requires xs != []
    ensures z in xs && forall x :: x in xs ==> x.time <= z.time
  {
    var init, last := xs[..|xs| - 1], xs[|xs| - 1];
    assert forall x :: x in xs ==> x in init || x == last;
    if init == [] { z := last; }
    else {
      z := SomeLatest(init);
      if z.time < last.time { z := last; }
    }
  }

  lemma FoldIsMaximum(xs: seq<Receipt>)
    requires xs != [] && OneSignalAtLatest(xs)
    ensures IsGreatest(Fold(xs).value, xs)
  {
    var z := SomeLatest(xs);
    forall x | x in xs && x.time == z.time
      ensures x.signal == z.signal
    {
    }
    FoldIsGreatest(xs, z.signal, z.time);
    FoldKeepsTime(xs);
    assert AtMost(z, Fold(xs).value);
  }

  lemma GreatestIsUnique(a: Receipt, b: Receipt, xs: seq<Receipt>, ys: seq<Receipt>)
    requires multiset(xs) == multiset(ys) && OneSignalAtLatest(xs)
    requires IsGreatest(a, xs) && IsGreatest(b, ys)
    ensures Same(a, b)
  {
    var x :| x in xs && Same(a, x);
    var y :| y in ys && Same(b, y);
    assert x in multiset(ys) && y in multiset(xs);
    assert AtMost(x, b) && AtMost(y, a);
    assert x.time == y.time;
    assert forall z :: z in xs ==> z.time <= a.time;
  }

  /** Every order of the same results leaves the same intent and evidence. */
  ghost predicate OrderFree(xs: seq<Receipt>)
    requires xs != []
  {
    forall ys :: ys != [] && multiset(ys) == multiset(xs) ==> Same(Fold(ys).value, Fold(xs).value)
  }

  lemma OneSignalIsOrderFree(xs: seq<Receipt>, ys: seq<Receipt>)
    requires xs != [] && OneSignalAtLatest(xs) && multiset(ys) == multiset(xs)
    ensures ys != [] && Same(Fold(ys).value, Fold(xs).value)
  {
    assert xs[0] in multiset(ys);
    forall x, y | x in ys && y in ys && x.signal != y.signal
      ensures exists z :: z in ys && (z.time > x.time || z.time > y.time)
    {
      assert x in multiset(xs) && y in multiset(xs);
      var z :| z in xs && (z.time > x.time || z.time > y.time);
      assert z in multiset(ys);
    }
    FoldIsMaximum(xs);
    FoldIsMaximum(ys);
    GreatestIsUnique(Fold(ys).value, Fold(xs).value, ys, xs);
  }

  /** The first of the latest results decides the signal. */
  lemma {:induction false} FirstLatestKeepsSignal(xs: seq<Receipt>)
    requires xs != [] && forall x :: x in xs ==> x.time <= xs[0].time
    ensures Fold(xs).value.signal == xs[0].signal && Fold(xs).value.time == xs[0].time
  {
    if |xs| > 1 {
      assert xs[..|xs| - 1][0] == xs[0] && xs[|xs| - 1] in xs;
      FirstLatestKeepsSignal(xs[..|xs| - 1]);
    }
  }

  /** A result moved to the front: the same results in another order. */
  lemma MoveToFront(xs: seq<Receipt>, i: nat)
    requires i < |xs|
    ensures multiset([xs[i]] + xs[..i] + xs[i + 1..]) == multiset(xs)
    ensures forall x :: x in [xs[i]] + xs[..i] + xs[i + 1..] ==> x in xs
  {
    assert xs == xs[..i] + [xs[i]] + xs[i + 1..];
  }

  /** Completing first among the latest results, a result imposes its signal. */
  lemma FrontDecides(xs: seq<Receipt>, x: Receipt)
    requires xs != [] && OrderFree(xs) && x in xs && forall z :: z in xs ==> z.time <= x.time
    ensures Fold(xs).value.signal == x.signal
  {
    var i :| 0 <= i < |xs| && xs[i] == x;
    MoveToFront(xs, i);
    var ys := [xs[i]] + xs[..i] + xs[i + 1..];
    FirstLatestKeepsSignal(ys);
    assert Same(Fold(ys).value, Fold(xs).value);
  }

  /** Relay results may complete in any order exactly when those with the latest vote time
      agree on the signal. In particular, results of one signal always may. */
  lemma OrderFreeExactly(xs: seq<Receipt>)
    requires xs != []
    ensures OrderFree(xs) <==> OneSignalAtLatest(xs)
  {
    if OneSignalAtLatest(xs) {
      forall ys | ys != [] && multiset(ys) == multiset(xs)
        ensures Same(Fold(ys).value, Fold(xs).value)
      {
        OneSignalIsOrderFree(xs, ys);
      }
    } else if OrderFree(xs) {
      var x, y :| x in xs && y in xs && x.signal != y.signal && forall z :: z in xs ==> z.time <= x.time && z.time <= y.time;
      FrontDecides(xs, x);
      FrontDecides(xs, y);
    }
  }

  lemma OneSignalSuffices(xs: seq<Receipt>, ys: seq<Receipt>)
    requires xs != [] && ys != [] && (forall x, y :: x in xs && y in xs ==> x.signal == y.signal) && multiset(ys) == multiset(xs)
    ensures Same(Fold(ys).value, Fold(xs).value) && IsGreatest(Fold(xs).value, xs)
  {
    OneSignalIsOrderFree(xs, ys);
    FoldIsMaximum(xs);
  }

  /** Two signals at one vote time: the first to complete stays. */
  lemma TwoSignalsKeepTheFirst(at: int)
    ensures var a := Receipt(Yes, Funding, at, Relayed, None, 0, None);
            var b := Receipt(Yes, Endorsed, at, Relayed, None, 0, None);
            Fold([a, b]) == Some(a) && Fold([b, a]) == Some(b)
  {
    var a, b := Receipt(Yes, Funding, at, Relayed, None, 0, None), Receipt(Yes, Endorsed, at, Relayed, None, 0, None);
    assert [a, b][..1] == [a] && [b, a][..1] == [b];
    assert [a][..0] == [] && [b][..0] == [];
    assert Fold([a]) == Some(a) && Fold([b]) == Some(b);
  }
}
