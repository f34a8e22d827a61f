/** The publication journal of one sentry operation: conditional claims around the awaits of
    submit, retry and reconcile, in any interleaving. */
module SentryJournal {
  import opened Answers

  type Bytes = string
  type Txid = nat

  const RETRY_GAP := 30_000
  const EXPIRY := 900_000

  datatype Status = Prepared | Submitting | Submitted | SubmissionUnknown | Confirmed | StateChanged

  datatype Row = Row(owner: nat, status: Status, hex: Option<Bytes>, txid: Option<Txid>, createdAt: int, updatedAt: int, error: Option<string>)

  // ---------------------------------------------------------------- statements

  function Created(owner: nat, now: int): Row { Row(owner, Prepared, None, None, now, now, None) }

  function Claim(r: Row, hex: Bytes, txid: Txid, now: int): (Row, bool) {
    if r.status == Prepared then (r.(status := Submitting, hex := Some(hex), txid := Some(txid), updatedAt := now), true) else (r, false)
  }

  function ClaimRetry(r: Row, seen: int, now: int): (Row, bool) {
    if r.updatedAt == seen && r.status != Prepared then (r.(status := Submitting, updatedAt := now), true) else (r, false)
  }

  function SetStatus(r: Row, status: Status, error: Option<string>, now: int): Row {
    r.(status := status, error := error, updatedAt := now)
  }

  // ---------------------------------------------------------------- calls

  /** What the readback of a transaction shows. */
  datatype Observation = Observation(confirmed: bool, known: bool, matches: bool)

  /** A call between two of its segments, with the row it read at its start. */
  datatype Call =
    | SubmitValidating
    | Broadcasting(hex: Bytes, txid: Txid)
    | RetryReading(seen: Row)
    | RetryValidating(seen: Row)
    | ReconcileReading(seen: Row)
    | Ended

  datatype World = World(row: Row, calls: map<nat, Call>, clock: int, claims: seq<int>, sent: seq<Bytes>)

  datatype Step =
    | Pass(until: int)
    | StartSubmit(c: nat)
    | StartRetry(c: nat)
    | StartReconcile(c: nat)
    | SubmitValidated(c: nat, hex: Bytes, txid: Txid)
    | BroadcastAnswered(c: nat, echoed: Option<Txid>)
    | RetryRead(c: nat, o: Observation)
    | RetryValidated(c: nat)
    | ReconcileRead(c: nat, o: Observation)
    | CallFails(c: nat)

  predicate Enabled(w: World, step: Step) {
    match step
    case Pass(until) => w.clock <= until
    case StartSubmit(c) => c !in w.calls
    case StartRetry(c) => c !in w.calls
    case StartReconcile(c) => c !in w.calls
    case SubmitValidated(c, _, _) => c in w.calls && w.calls[c].SubmitValidating?
    case BroadcastAnswered(c, _) => c in w.calls && w.calls[c].Broadcasting?
    case RetryRead(c, _) => c in w.calls && w.calls[c].RetryReading?
    case RetryValidated(c) => c in w.calls && w.calls[c].RetryValidating?
    case ReconcileRead(c, _) => c in w.calls && w.calls[c].ReconcileReading?
    case CallFails(c) => c in w.calls && !w.calls[c].Broadcasting?
  }

  /** A won claim goes straight on to broadcasting. */
  function Publish(w: World, c: nat, row: Row, hex: Bytes, txid: Txid): World {
    World(row, w.calls[c := Broadcasting(hex, txid)], w.clock, w.claims + [w.clock], w.sent + [hex])
  }

  function End(w: World, c: nat): World { w.(calls := w.calls[c := Ended]) }

  /** A confirmed row stays confirmed as long as its transaction is. */
  function RetryStatus(seen: Row, o: Observation): Status {
    if o.confirmed then if o.matches || seen.status == Confirmed then Confirmed else StateChanged else Submitted
  }

  function ReconcileRow(row: Row, seen: Row, o: Observation, now: int): Row {
    if o.confirmed && (o.matches || seen.status == Confirmed) then SetStatus(row, Confirmed, None, now)
    else if o.confirmed && !o.matches then SetStatus(row, StateChanged, Some("confirmed_state_differs"), now)
    else if seen.status == Confirmed || seen.status == StateChanged
    then SetStatus(row, SubmissionUnknown, Some("confirmation_no_longer_observed"), now)
    else row
  }

  function Next(w: World, step: Step): World
    requires Inv(w) && Enabled(w, step)
  {
    match step
    case Pass(until) => w.(clock := until)
    case StartSubmit(c) =>
      if w.row.status != Prepared || w.clock - w.row.createdAt > EXPIRY then End(w, c) else w.(calls := w.calls[c := SubmitValidating])
    case StartRetry(c) =>
      if w.row.hex.None? || w.row.txid.None? then End(w, c) else w.(calls := w.calls[c := RetryReading(w.row)])
    case StartReconcile(c) => if w.row.txid.None? then End(w, c) else w.(calls := w.calls[c := ReconcileReading(w.row)])
    case SubmitValidated(c, hex, txid) =>
      var (row, won) := Claim(w.row, hex, txid, w.clock);
      if won then Publish(w, c, row, hex, txid) else End(w, c)
    case BroadcastAnswered(c, echoed) =>
      var ok := echoed == Some(w.calls[c].txid);
      End(w.(row := SetStatus(w.row, if ok then Submitted else SubmissionUnknown, if ok then None else Some("broadcast_unconfirmed"), w.clock)), c)
    case RetryRead(c, o) =>
      var seen := w.calls[c].seen;
      if o.confirmed || o.known then End(w.(row := SetStatus(w.row, RetryStatus(seen, o), None, w.clock)), c)
      else if w.clock - seen.updatedAt < RETRY_GAP then End(w, c)
      else w.(calls := w.calls[c := RetryValidating(seen)])
    case RetryValidated(c) =>
      var seen := w.calls[c].seen;
      var (row, won) := ClaimRetry(w.row, seen.updatedAt, w.clock);
      if won then Publish(w, c, row, seen.hex.value, seen.txid.value) else End(w, c)
    case ReconcileRead(c, o) => End(w.(row := ReconcileRow(w.row, w.calls[c].seen, o, w.clock)), c)
    case CallFails(c) => End(w, c)
  }

  // ---------------------------------------------------------------- invariant

  predicate Signed(r: Row) { r.hex.Some? && r.txid.Some? && r.status != Prepared }

  /** The row a call read was already signed, with the bytes that are stored now. */
  predicate SeenFits(seen: Row, row: Row) { Signed(seen) && Signed(row) && seen.hex == row.hex && seen.txid == row.txid }

  predicate CallFits(w: World, k: Call) {
    match k
    case Broadcasting(hex, txid) => Signed(w.row) && w.row.hex == Some(hex) && w.row.txid == Some(txid)
    case RetryReading(seen) => SeenFits(seen, w.row)
    case RetryValidating(seen) => SeenFits(seen, w.row) && seen.updatedAt + RETRY_GAP <= w.clock
    case ReconcileReading(seen) => SeenFits(seen, w.row)
    case _ => true
  }

  /** Any two claims are a retry gap apart, and the row was stamped no earlier than the last. */
  predicate Spaced(claims: seq<int>, stamp: int) {
    && (forall i :: 0 <= i < |claims| ==> claims[i] <= stamp)
    && (forall i, j :: 0 <= i < j < |claims| ==> claims[i] + RETRY_GAP <= claims[j])
  }

  predicate Inv(w: World) {
    && (if w.row.status == Prepared then w.row.hex.None? && w.row.txid.None? && w.claims == [] else Signed(w.row) && w.claims != [])
    && w.row.updatedAt <= w.clock && Spaced(w.claims, w.row.updatedAt)
    && |w.sent| == |w.claims| && (forall i :: 0 <= i < |w.sent| ==> w.row.hex == Some(w.sent[i]))
    && (forall c :: c in w.calls ==> CallFits(w, w.calls[c]))
  }

  /** Stored bytes and transaction id stay once they are there. */
  predicate Keeps(r: Row, r': Row) { Signed(r) ==> Signed(r') && r'.hex == r.hex && r'.txid == r.txid }

  lemma CallStillFits(w: World, w': World, k: Call)
    requires CallFits(w, k) && Keeps(w.row, w'.row) && w.clock <= w'.clock
    ensures CallFits(w', k)
  {
  }

  /** What a step does to the row, the claims and the broadcasts. */
  lemma JournalStep(w: World, step: Step)
    requires Inv(w) && Enabled(w, step)
    ensures var w' := Next(w, step);
            && Keeps(w.row, w'.row) && w.clock <= w'.clock && w'.row.updatedAt <= w'.clock
            && (if w'.row.status == Prepared then w'.row.hex.None? && w'.row.txid.None? && w'.claims == [] else Signed(w'.row) && w'.claims != [])
            && (if w'.claims == w.claims then w'.sent == w.sent && w.row.updatedAt <= w'.row.updatedAt
                else w'.claims == w.claims + [w.clock] && w'.row.hex.Some? && w'.sent == w.sent + [w'.row.hex.value] && w'.row.updatedAt == w.clock
                     && (w.claims == [] || w.row.updatedAt + RETRY_GAP <= w.clock))
  {
    if step.BroadcastAnswered? || step.RetryRead? || step.RetryValidated? || step.ReconcileRead? { assert CallFits(w, w.calls[step.c]); }
  }

  lemma CallStep(w: World, step: Step, c: nat)
    requires Inv(w) && Enabled(w, step) && c in Next(w, step).calls
    ensures CallFits(Next(w, step), Next(w, step).calls[c])
  {
    JournalStep(w, step);
    if c in w.calls {
      assert CallFits(w, w.calls[c]);
      CallStillFits(w, Next(w, step), w.calls[c]);
    }
  }

  lemma StepKeepsInv(w: World, step: Step)
    requires Inv(w) && Enabled(w, step)
    ensures Inv(Next(w, step)) && Keeps(w.row, Next(w, step).row)
  {
    JournalStep(w, step);
    forall c | c in Next(w, step).calls
      ensures CallFits(Next(w, step), Next(w, step).calls[c])
    {
      CallStep(w, step, c);
    }
  }

  // ---------------------------------------------------------------- main results

  ghost predicate Reaches(w: World, steps: seq<Step>, w': World)
    decreases |steps|
  {
    if steps == [] then w' == w
    else Inv(w) && Enabled(w, steps[0]) && Reaches(Next(w, steps[0]), steps[1..], w')
  }

  lemma {:induction false} BytesWrittenOnce(w: World, steps: seq<Step>, w': World)
    requires Inv(w) && Reaches(w, steps, w')
    ensures Inv(w')
    ensures w.row.hex.Some? ==> w'.row.hex == w.row.hex && w'.row.txid == w.row.txid
    decreases |steps|
  {
    if steps != [] {
      StepKeepsInv(w, steps[0]);
      BytesWrittenOnce(Next(w, steps[0]), steps[1..], w');
    }
  }

  /** From its creation, through any interleaving of calls under a clock that does not go
      back: every broadcast sends the stored bytes, each has its own claim, and any two claims
      are at least thirty seconds apart. */
  lemma PublicationsAreSpaced(owner: nat, now: int, steps: seq<Step>, w: World)
    requires Reaches(World(Created(owner, now), map[], now, [], []), steps, w)
    ensures |w.sent| == |w.claims| && forall i :: 0 <= i < |w.sent| ==> w.row.hex == Some(w.sent[i])
    ensures forall i, j :: 0 <= i < j < |w.claims| ==> w.claims[j] - w.claims[i] >= 30_000
    ensures w.row.status == Prepared <==> w.claims == []
  {
    if steps != [] { BytesWrittenOnce(World(Created(owner, now), map[], now, [], []), steps, w); }
  }

  // ---------------------------------------------------------------- the table in place

  class Operations {
    var rows: map<nat, Row>

    constructor ()
      ensures rows == map[]
    {
      rows := map[];
    }

    method Create(id: nat, owner: nat, now: int)
      requires id !in rows
      modifies this
      ensures rows == old(rows)[id := Created(owner, now)]
    {
      rows := rows[id := Row(owner, Prepared, None, None, now, now, None)];
    }

    method ClaimFirst(id: nat, owner: nat, hex: Bytes, txid: Txid, now: int) returns (won: bool)
      modifies this
      ensures won <==> id in old(rows) && old(rows)[id].owner == owner && old(rows)[id].status == Prepared
      ensures rows == if won then old(rows)[id := Claim(old(rows)[id], hex, txid, now).0] else old(rows)
      ensures won ==> Signed(rows[id]) && rows[id].hex == Some(hex)
    {
      if id !in rows || rows[id].owner != owner || rows[id].status != Prepared { return false; }
      rows := rows[id := rows[id].(status := Submitting, hex := Some(hex), txid := Some(txid), updatedAt := now)];
      return true;
    }

    method ClaimAgain(id: nat, owner: nat, seen: int, now: int) returns (won: bool)
      modifies this
      ensures won <==> id in old(rows) && old(rows)[id].owner == owner && ClaimRetry(old(rows)[id], seen, now).1
      ensures rows == if won then old(rows)[id := ClaimRetry(old(rows)[id], seen, now).0] else old(rows)
      ensures won ==> rows[id].hex == old(rows)[id].hex && rows[id].txid == old(rows)[id].txid
    {
      if id !in rows || rows[id].owner != owner || rows[id].updatedAt != seen { return false; }
      if rows[id].status !in {SubmissionUnknown, Submitted, Submitting, Confirmed, StateChanged} { return false; }
      rows := rows[id := rows[id].(status := Submitting, updatedAt := now)];
      return true;
    }

    method WriteStatus(id: nat, owner: nat, status: Status, error: Option<string>, now: int)
      modifies this
      ensures rows == if id in old(rows) && old(rows)[id].owner == owner
                      then old(rows)[id := SetStatus(old(rows)[id], status, error, now)] else old(rows)
    {
      if id in rows && rows[id].owner == owner {
        rows := rows[id := rows[id].(status := status, error := error, updatedAt := now)];
      }
    }
  }

  // ---------------------------------------------------------------- the calls, step by step

  /** A submission goes on only on a prepared row, within fifteen minutes of its creation; a
      retry only on signed bytes; and each remembers the row that it read. */
  lemma CallsStartOnTheirRow(w: World, c: nat)
    requires Inv(w) && c !in w.calls
    ensures Next(w, StartSubmit(c)) == w.(calls := w.calls[c := if w.row.status == Prepared && w.clock - w.row.createdAt <= 900_000 then SubmitValidating else Ended])
    ensures Next(w, StartRetry(c)) == w.(calls := w.calls[c := if w.row.hex.Some? && w.row.txid.Some? then RetryReading(w.row) else Ended])
    ensures Next(w, StartReconcile(c)) == w.(calls := w.calls[c := if w.row.txid.Some? then ReconcileReading(w.row) else Ended])
  {
  }

  /** Time may pass at any moment, and a call may be lost at every wait before it publishes; the
      row stays as it is. */
  lemma LostCallsChangeNothing(w: World, c: nat, until: int)
    requires Inv(w) && w.clock <= until
    ensures Enabled(w, Pass(until)) && Next(w, Pass(until)) == w.(clock := until)
    ensures c in w.calls && (w.calls[c].SubmitValidating? || w.calls[c].RetryReading? || w.calls[c].RetryValidating? || w.calls[c].ReconcileReading?) ==>
              Enabled(w, CallFails(c)) && Next(w, CallFails(c)) == w.(calls := w.calls[c := Ended])
  {
  }

  /** What a retry finds: a known transaction is written down, confirmed if its effect is seen
      or was seen before; an unknown one may be sent again, thirty seconds after the row was
      last stamped, and not before. */
  lemma RetryObserves(w: World, c: nat, o: Observation)
    requires Inv(w) && c in w.calls && w.calls[c].RetryReading?
    ensures var seen, w' := w.calls[c].seen, Next(w, RetryRead(c, o));
            && w'.claims == w.claims && w'.sent == w.sent
            && (o.confirmed || o.known ==>
                  && w'.calls[c] == Ended && w'.row.updatedAt == w.clock && w'.row.error == None
                  && (w'.row.status == Confirmed <==> o.confirmed && (o.matches || seen.status == Confirmed))
                  && (w'.row.status == StateChanged <==> o.confirmed && !o.matches && seen.status != Confirmed)
                  && (w'.row.status == Submitted <==> !o.confirmed))
            && (!o.confirmed && !o.known ==>
                  w'.row == w.row && (w'.calls[c] == if w.clock - seen.updatedAt >= 30_000 then RetryValidating(seen) else Ended))
  {
  }

  /** What a reconciliation finds: a confirmed effect stays confirmed; a confirmed transaction
      with another effect is told apart; a lost confirmation is unknown again; anything else
      is left alone. */
  lemma ReconcileObserves(w: World, c: nat, o: Observation)
    requires Inv(w) && c in w.calls && w.calls[c].ReconcileReading?
    ensures var seen, row' := w.calls[c].seen, Next(w, ReconcileRead(c, o)).row;
            if o.confirmed && (o.matches || seen.status == Confirmed) then row' == w.row.(status := Confirmed, error := None, updatedAt := w.clock)
            else if o.confirmed then row' == w.row.(status := StateChanged, error := Some("confirmed_state_differs"), updatedAt := w.clock)
            else if seen.status == Confirmed || seen.status == StateChanged
            then row' == w.row.(status := SubmissionUnknown, error := Some("confirmation_no_longer_observed"), updatedAt := w.clock)
            else row' == w.row
    ensures Next(w, ReconcileRead(c, o)).sent == w.sent && Next(w, ReconcileRead(c, o)).calls[c] == Ended
  {
  }

  /** Only an answer with the transaction's own id counts as submitted; anything else leaves it
      unknown, and nothing is sent again by itself. */
  lemma BroadcastIsJudged(w: World, c: nat, echoed: Option<Txid>)
    requires Inv(w) && c in w.calls && w.calls[c].Broadcasting?
    ensures var w' := Next(w, BroadcastAnswered(c, echoed));
            && w'.calls[c] == Ended && w'.sent == w.sent && w'.claims == w.claims
            && w'.row == w.row.(status := if echoed == Some(w.calls[c].txid) then Submitted else SubmissionUnknown,
                                error := if echoed == Some(w.calls[c].txid) then None else Some("broadcast_unconfirmed"), updatedAt := w.clock)
  {
  }

  /** A validated submission or retry is published at once if the row is still as it was read,
      and not at all otherwise. */
  lemma ValidatedIsPublishedOnce(w: World, c: nat, hex: Bytes, txid: Txid)
    requires Inv(w) && c in w.calls
    ensures w.calls[c].SubmitValidating? ==>
              var w' := Next(w, SubmitValidated(c, hex, txid));
              if w.row.status == Prepared
              then w'.sent == w.sent + [hex] && w'.calls[c] == Broadcasting(hex, txid)
                   && w'.row == w.row.(status := Submitting, hex := Some(hex), txid := Some(txid), updatedAt := w.clock)
              else w'.row == w.row && w'.sent == w.sent && w'.calls[c] == Ended
    ensures w.calls[c].RetryValidating? ==>
              var seen, w' := w.calls[c].seen, Next(w, RetryValidated(c));
              if w.row.updatedAt == seen.updatedAt
              then w'.sent == w.sent + [w.row.hex.value] && w'.row == w.row.(status := Submitting, updatedAt := w.clock)
              else w'.row == w.row && w'.sent == w.sent && w'.calls[c] == Ended
  {
    assert CallFits(w, w.calls[c]);
  }
}
