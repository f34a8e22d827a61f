/** The receipts table updated in place. */
module VoteRepo {
  import opened Answers
  import opened VoteReceipts
  import VoteRuns

  /** The votes on chain by outpoint and signal; a later listing of the same pair wins. */
  method Index(votes: seq<ChainVote>) returns (byKey: map<(nat, Signal), ChainVote>)
    ensures forall o: nat, s :: (o, s) in byKey <==> OnChain(votes, o, s).Some?
    ensures forall o: nat, s :: (o, s) in byKey ==> OnChain(votes, o, s) == Some(byKey[(o, s)])
  {
    byKey := map[];
    for i := 0 to |votes|
      invariant forall o: nat, s :: (o, s) in byKey <==> OnChain(votes[..i], o, s).Some?
      invariant forall o: nat, s :: (o, s) in byKey ==> OnChain(votes[..i], o, s) == Some(byKey[(o, s)])
    {
      assert votes[..i + 1][..i] == votes[..i];
      byKey := byKey[(votes[i].outpoint, votes[i].signal) := votes[i]];
    }
    assert votes[..|votes|] == votes;
  }

  class Receipts {
    var rows: map<Key, Receipt>
    const limits: Limits

    constructor (limits: Limits)
      ensures rows == map[] && this.limits == limits
    {
      this.limits, rows := limits, map[];
    }

    function Row(key: Key): Option<Receipt>
      reads this
    {
      if key in rows then Some(rows[key]) else None
    }

    method Upsert(key: Key, x: Receipt)
      modifies this
      ensures rows == old(rows)[key := Upserted(old(Row(key)), x)]
      ensures old(Row(key)).Some? ==> AtMost(old(Row(key)).value, rows[key])
    {
      if key in rows { UpsertNeverLowers(rows[key], x); }
      if key !in rows || Replaces(x, rows[key]) {
        rows := rows[key := x.(verifiedAt := None)];
      }
    }

    method DecideRelay(key: Key, outcome: Outcome, signal: Signal, now: int) returns (d: Decision)
      ensures d == Decide(Row(key), outcome, signal, now, limits)
      ensures d == Hold <==> key in rows && rows[key].status == SubmissionUnknown
    {
      if key !in rows { return Relay; }
      var r := rows[key];
      if r.status == SubmissionUnknown { return Hold; }
      if r.outcome != outcome || r.signal != signal { return Relay; }
      if r.status == Confirmed {
        var verified := if r.verifiedAt.Some? then r.verifiedAt.value else 0;
        return if 0 < verified && 0 <= now - verified < limits.confirmedFreshness then Skip("already_on_chain") else Relay;
      }
      if r.status == Relayed && 0 <= now - r.submittedAt < limits.recentRelay { return Skip("recently_relayed"); }
      return Relay;
    }

    method ListForProposal(user: nat, proposal: nat) returns (captured: map<Key, Receipt>)
      ensures captured == VoteRuns.RowsOf(rows, user, proposal)
    {
      captured := map k | k in rows && k.user == user && k.proposal == proposal :: rows[k];
    }

    /** The reconciling write on one captured row. */
    method ReconcileRow(key: Key, seen: Receipt, vote: Option<ChainVote>, r: Reading) returns (changed: bool)
      modifies this
      ensures rows == if key in old(rows) then old(rows)[key := Reconciled(old(rows)[key], seen, vote, r)] else old(rows)
      ensures !changed ==> rows == old(rows)
      ensures key in old(rows) && !Unchanged(old(rows)[key], seen) ==> !changed
    {
      changed := false;
      if key !in rows || !Unchanged(rows[key], seen) { return; }
      var row := rows[key];
      if seen.status == SubmissionUnknown && !(vote.Some? && (Exact(vote.value, seen) || Supersedes(vote.value, seen))) {
        if r.anew && seen.submittedAt < r.startedAt - r.grace && row.submittedAt < r.startedAt - r.grace {
          rows, changed := rows[key := row.(status := Stale)], true;
        }
      } else if vote.Some? {
        var error := if seen.status == SubmissionUnknown && Supersedes(vote.value, seen) then Some("superseded_by_later_vote") else None;
        rows := rows[key := Receipt(vote.value.outcome, vote.value.signal, vote.value.time, Confirmed, error, row.submittedAt, Some(r.at))];
        changed := true;
      } else if seen.status == Relayed && seen.submittedAt < r.at - r.grace && row.submittedAt < r.at - r.grace {
        rows, changed := rows[key := row.(status := Stale)], true;
      }
    }

    /** The transaction after the awaited read. A row that changed in between is left alone. */
    method Reconcile(captured: map<Key, Receipt>, votes: seq<ChainVote>, r: Reading) returns (updated: nat)
      modifies this
      ensures rows == VoteRuns.Applied(old(rows), captured, votes, r)
      ensures forall k :: k in captured && k in old(rows) && !Unchanged(old(rows)[k], captured[k]) ==> rows[k] == old(rows)[k]
      ensures updated <= |captured| && (updated == 0 ==> rows == old(rows))
    {
      updated := 0;
      ghost var was := rows;
      var byKey := Index(votes);
      var todo := captured.Keys;
      while todo != {}
        invariant todo <= captured.Keys && updated <= |captured.Keys| - |todo|
        invariant rows.Keys == was.Keys
        invariant forall k :: k in was ==>
                    rows[k] == if k in captured && k !in todo
                               then Reconciled(was[k], captured[k], OnChain(votes, k.outpoint, captured[k].signal), r) else was[k]
        invariant updated == 0 ==> rows == was
      {
        var k :| k in todo;
        todo := todo - {k};
        var pair := (k.outpoint, captured[k].signal);
        var changed := ReconcileRow(k, captured[k], if pair in byKey then Some(byKey[pair]) else None, r);
        if changed { updated := updated + 1; }
      }
    }
  }
}
