/** Why the dispatcher did what it did: in every run, the state, reason and hash of a row are
    those that the node's answers to the winning call ask for. */
module DispatcherReasons {
  import opened Answers
  import opened SubmissionTable
  import opened DispatcherRuns

  // ---------------------------------------------------------------- what a call has heard

  /** The collateral has enough confirmations. */
  predicate Confirmed(h: Heard, limits: Limits) { h.tx.Some? && h.tx.value.TxSeen? && limits.requiredConfs <= h.tx.value.confs }

  /** The node did not know the collateral, longer than the timeout after the row's last change. */
  predicate TimedOut(h: Heard, row: Row, limits: Limits) { h.tx == Some(TxUnknown) && h.at - row.updatedAt > limits.timeout }

  /** The object is on chain under this hash: the node returned it, or said that it exists. */
  predicate OnChainAs(h: Heard, row: Row, hash: Hash) {
    h.answer == Some(Accepted(hash)) || (h.answer == Some(AlreadyExists) && hash == row.frozen.proposalHash)
  }

  ghost predicate Justifies(t: Table, k: Client, reason: Reason, limits: Limits)
    requires k.Advance?
  {
    match reason
    case CollateralNotFound => TimedOut(k.heard, k.row, limits)
    case SubmitRejected => Confirmed(k.heard, limits) && k.heard.answer == Some(RejectedForGood)
    case DuplicateHash => Confirmed(k.heard, limits) && exists hash: Hash :: OnChainAs(k.heard, k.row, hash) && TakenGov(t, hash, k.id)
  }

  /** The node has answered the submission for good. */
  predicate Decisive(a: SubmitAnswer) { a == RejectedForGood || a == AlreadyExists || a.Accepted? }

  /** A call stands where its answers brought it. */
  ghost predicate Grounded(t: Table, k: Client, limits: Limits)
    requires k.Advance?
  {
    && (k.id in t.rows ==> t.rows[k.id].txid == k.row.txid)
    && (k.settled <==> k.heard.answer.Some? && Decisive(k.heard.answer.value))
    && match k.point
       case AskTx => k.heard.tx == None && k.heard.answer == None
       case WriteConfs(confs) => k.heard.tx == Some(TxSeen(confs)) && k.heard.answer == None
       case AskSubmit => Confirmed(k.heard, limits) && k.heard.answer == None
       case ReadForSubmit(hash) => Confirmed(k.heard, limits) && OnChainAs(k.heard, k.row, hash)
       case ReadClash(hash) => Confirmed(k.heard, limits) && OnChainAs(k.heard, k.row, hash)
       case WriteSubmitted(hash) => Confirmed(k.heard, limits) && OnChainAs(k.heard, k.row, hash)
       case ReadForFail(reason) => Justifies(t, k, reason, limits)
       case WriteFailed(reason) => Justifies(t, k, reason, limits)
       case Returned => !k.faulted ==> (Confirmed(k.heard, limits) ==> k.heard.answer.Some?) && (TimedOut(k.heard, k.row, limits) ==> NotAwaiting(t, k.id))
       case _ => k.heard.answer.Some? || !Confirmed(k.heard, limits)
  }

  /** A decided row is what its winner heard. */
  ghost predicate Decided(w: World, id: Id, limits: Limits)
    requires id in w.table.rows
  {
    Terminal(w.table.rows[id].status) ==>
      && id in w.won && Advancing(w, w.won[id].0)
      && var row, k := w.table.rows[id], w.clients[w.won[id].0];
      && k.id == id && row.txid == k.row.txid
      && (row.status == Submitted ==> row.gov.Some? && Confirmed(k.heard, limits) && OnChainAs(k.heard, k.row, row.gov.value))
      && (row.status == Failed ==> row.reason.Some? && Justifies(w.table, k, row.reason.value, limits))
  }

  ghost predicate AllGrounded(w: World, limits: Limits) {
    && (forall c :: Advancing(w, c) ==> Grounded(w.table, w.clients[c], limits))
    && (forall id :: id in w.table.rows ==> Decided(w, id, limits))
  }

  // ---------------------------------------------------------------- every step keeps it

  /** A governance hash once taken stays taken. */
  lemma TakenStays(t: Table, t': Table, hash: Hash, id: Id)
    requires TableInv(t) && Moves(t, t') && TakenGov(t, hash, id)
    ensures TakenGov(t', hash, id)
  {
    var o :| o in t.rows && o != id && t.rows[o].gov == Some(hash);
    assert o in t'.rows && t'.rows[o].gov == Some(hash);
  }

  lemma JustifiesStays(t: Table, t': Table, k: Client, reason: Reason, limits: Limits)
    requires k.Advance? && TableInv(t) && Moves(t, t') && Justifies(t, k, reason, limits)
    ensures Justifies(t', k, reason, limits)
  {
    if reason == DuplicateHash {
      var hash: Hash :| OnChainAs(k.heard, k.row, hash) && TakenGov(t, hash, k.id);
      TakenStays(t, t', hash, k.id);
    }
  }

  lemma GroundedStays(t: Table, t': Table, k: Client, limits: Limits)
    requires k.Advance? && TableInv(t) && Moves(t, t') && k.id < t.nextId && k.row.txid.Some? && Grounded(t, k, limits)
    ensures Grounded(t', k, limits)
  {
    if k.point.ReadForFail? { JustifiesStays(t, t', k, k.point.reason, limits); }
    if k.point.WriteFailed? { JustifiesStays(t, t', k, k.point.reason, limits); }
  }

  /** One statement moves a grounded call to a grounded point. */
  lemma StatementGrounds(t: Table, k: Client, now: int, limits: Limits)
    requires k.Advance? && TableInv(t) && IsStatement(k.point) && Past(t, k.id, k.row.frozen) && k.row.txid.Some? && Grounded(t, k, limits)
    requires !k.faulted
    requires Moves(t, Execute(t, k.id, k.row, k.point, now, limits).0)
    ensures var (t', p) := Execute(t, k.id, k.row, k.point, now, limits); Grounded(t', k.(point := p), limits)
  {
    var (t', p) := Execute(t, k.id, k.row, k.point, now, limits);
    GroundedStays(t, t', k, limits);
    ExecuteEffect(t, k.id, k.row, k.point, now, limits);
  }

  lemma AnswerGrounds(w: World, step: Step, limits: Limits)
    requires Inv(w) && Enabled(w, step) && AllGrounded(w, limits)
    requires step.List? || step.TxAnswered? || step.SubmitAnswered? || step.Fire? || step.Fault?
    ensures Grounded(w.table, Next(w, step, limits).clients[step.c], limits)
  {
    if !step.List? {
      assert Grounded(w.table, w.clients[step.c], limits) && ClientFits(w, step.c);
      if step.Fire? { assert WinFits(w, w.clients[step.c].id); }
    }
  }

  lemma ClientsGrounded(w: World, step: Step, limits: Limits, c: nat)
    requires Inv(w) && Enabled(w, step) && AllGrounded(w, limits) && Advancing(Next(w, step, limits), c)
    ensures Grounded(Next(w, step, limits).table, Next(w, step, limits).clients[c], limits)
  {
    var w' := Next(w, step, limits);
    TableStep(w, step, limits);
    if c in w.clients { assert ClientFits(w, c); }
    if step.Statement? && step.c == c {
      StatementGrounds(w.table, w.clients[c], step.now, limits);
    } else if (step.List? || step.TxAnswered? || step.SubmitAnswered? || step.Fire? || step.Fault?) && step.c == c {
      AnswerGrounds(w, step, limits);
    } else {
      GroundedStays(w.table, w'.table, w.clients[c], limits);
    }
  }

  /** The winning statement writes what its call heard. */
  lemma WinnerDecides(w: World, step: Step, limits: Limits, id: Id)
    requires Inv(w) && Enabled(w, step) && AllGrounded(w, limits)
    requires id in Next(w, step, limits).table.rows && Terminal(Next(w, step, limits).table.rows[id].status)
    requires id in w.table.rows ==> !Terminal(w.table.rows[id].status)
    ensures Decided(Next(w, step, limits), id, limits)
  {
    var w' := Next(w, step, limits);
    FinalOnlyByWinner(w, step, limits, id);
    TableStep(w, step, limits);
    var k := w.clients[step.c];
    assert Grounded(w.table, k, limits);
    if k.point.WriteFailed? { JustifiesStays(w.table, w'.table, k, k.point.reason, limits); }
  }

  lemma DecidedStays(w: World, step: Step, limits: Limits, id: Id)
    requires Inv(w) && Enabled(w, step) && AllGrounded(w, limits)
    requires id in w.table.rows && Terminal(w.table.rows[id].status) && id in Next(w, step, limits).table.rows
    ensures Decided(Next(w, step, limits), id, limits)
  {
    var w' := Next(w, step, limits);
    TableStep(w, step, limits);
    WonKept(w, step, limits);
    assert Decided(w, id, limits) && Forward(w.table.rows[id], w'.table.rows[id]);
    HeardStays(w, step, limits, id);
    if w.table.rows[id].status == Failed {
      JustifiesStays(w.table, w'.table, w.clients[w.won[id].0], w.table.rows[id].reason.value, limits);
    }
  }

  lemma WinnerIsPast(w: World, id: Id)
    requires Inv(w) && id in w.won && id in w.table.rows
    ensures Advancing(w, w.won[id].0)
    ensures var p := w.clients[w.won[id].0].point; p.ReRead? || p.FireHook? || p.Returned?
  {
    var c := w.won[id].0;
    assert WinFits(w, id) && ClientFits(w, c);
    if Fired(w, id) {
      var j :| 0 <= j < |w.hooks| && w.hooks[j].id == id;
      assert HookFits(w, w.hooks[j]);
    }
  }

  /** The winner of a row asks no more questions. */
  lemma HeardStays(w: World, step: Step, limits: Limits, id: Id)
    requires Inv(w) && Enabled(w, step) && id in w.won && id in w.table.rows
    ensures var c := w.won[id].0;
            && Advancing(w, c) && Advancing(Next(w, step, limits), c)
            && var k, k' := w.clients[c], Next(w, step, limits).clients[c]; k'.id == k.id && k'.row == k.row && k'.heard == k.heard
  {
    WinnerIsPast(w, id);
  }

  lemma StepGrounds(w: World, step: Step, limits: Limits)
    requires Inv(w) && Enabled(w, step) && AllGrounded(w, limits)
    ensures AllGrounded(Next(w, step, limits), limits)
  {
    var w' := Next(w, step, limits);
    forall c | Advancing(w', c)
      ensures Grounded(w'.table, w'.clients[c], limits)
    {
      ClientsGrounded(w, step, limits, c);
    }
    forall id | id in w'.table.rows
      ensures Decided(w', id, limits)
    {
      if Terminal(w'.table.rows[id].status) {
        if id in w.table.rows && Terminal(w.table.rows[id].status) { DecidedStays(w, step, limits, id); }
        else { WinnerDecides(w, step, limits, id); }
      }
    }
  }

  // ---------------------------------------------------------------- main results

  lemma {:induction false} RunGrounds(w: World, steps: seq<Step>, w': World, limits: Limits)
    requires Inv(w) && AllGrounded(w, limits) && Reaches(w, steps, w', limits)
    ensures Inv(w') && AllGrounded(w', limits)
    decreases |steps|
  {
    if steps != [] {
      StepKeepsInv(w, steps[0], limits);
      StepGrounds(w, steps[0], limits);
      RunGrounds(Next(w, steps[0], limits), steps[1..], w', limits);
    }
  }

  /** In every run, a decided row has a winning call whose answers decide it. A row submitted
      under a hash: the collateral was seen with enough confirmations, and the node returned
      just this hash, or said that the object exists and it is the row's own. A row failed: the
      collateral was unknown for longer than the timeout; or it was confirmed and the node
      rejected the object for good; or the object is on chain under a hash of another row. */
  lemma DecidedAsAnswered(w: World, steps: seq<Step>, w': World, limits: Limits, id: Id)
    requires IsInitial(w) && Reaches(w, steps, w', limits) && id in w'.table.rows && Terminal(w'.table.rows[id].status)
    ensures id in w'.won && Advancing(w', w'.won[id].0)
    ensures var row, k := w'.table.rows[id], w'.clients[w'.won[id].0];
            && k.id == id && row.txid == k.row.txid && row.frozen == k.row.frozen
            && (row.status == Submitted ==> row.gov.Some? && Confirmed(k.heard, limits) && OnChainAs(k.heard, row, row.gov.value))
            && (row.reason == Some(CollateralNotFound) ==> TimedOut(k.heard, k.row, limits))
            && (row.reason == Some(SubmitRejected) ==> Confirmed(k.heard, limits) && k.heard.answer == Some(RejectedForGood))
            && (row.reason == Some(DuplicateHash) ==>
                  Confirmed(k.heard, limits) && exists hash: Hash, o: Id :: OnChainAs(k.heard, row, hash) && o in w'.table.rows && o != id && w'.table.rows[o].gov == Some(hash))
  {
    RunGrounds(w, steps, w', limits);
    assert Decided(w', id, limits) && WinFits(w', id);
    var row, c := w'.table.rows[id], w'.won[id].0;
    assert ClientFits(w', c) && RowFits(row);
    if row.reason == Some(DuplicateHash) { AnotherHolds(w', id, limits); }
  }

  lemma AnotherHolds(w: World, id: Id, limits: Limits)
    requires Inv(w) && id in w.table.rows && Decided(w, id, limits) && w.table.rows[id].reason == Some(DuplicateHash)
    requires id in w.won && Advancing(w, w.won[id].0) && w.clients[w.won[id].0].row.frozen == w.table.rows[id].frozen
    ensures exists hash: Hash, o: Id :: OnChainAs(w.clients[w.won[id].0].heard, w.table.rows[id], hash)
                              && o in w.table.rows && o != id && w.table.rows[o].gov == Some(hash)
  {
    var k := w.clients[w.won[id].0];
    assert RowFits(w.table.rows[id]);
    var hash: Hash :| OnChainAs(k.heard, k.row, hash) && TakenGov(w.table, hash, k.id);
    var o :| o in w.table.rows && o != id && w.table.rows[o].gov == Some(hash);
    assert OnChainAs(k.heard, w.table.rows[id], hash);
  }

  /** Nothing is submitted before the collateral was seen with enough confirmations. */
  lemma OnlyConfirmedIsSubmitted(w: World, steps: seq<Step>, w': World, limits: Limits, c: nat)
    requires IsInitial(w) && Reaches(w, steps, w', limits) && Advancing(w', c) && w'.clients[c].point == AskSubmit
    ensures exists confs :: w'.clients[c].heard.tx == Some(TxSeen(confs)) && limits.requiredConfs <= confs
    ensures w'.clients[c].id in w'.table.rows ==> w'.table.rows[w'.clients[c].id].txid == w'.clients[c].row.txid
  {
    RunGrounds(w, steps, w', limits);
    assert Grounded(w'.table, w'.clients[c], limits);
    assert w'.clients[c].heard.tx == Some(TxSeen(w'.clients[c].heard.tx.value.confs));
  }

  /** A call that returned undisturbed has done with its row what it heard: a confirmed
      collateral was submitted; and after a decisive answer, or a collateral unknown for longer
      than the timeout, the row awaits nothing any more. */
  lemma ReturnedCallsAreDone(w: World, steps: seq<Step>, w': World, limits: Limits, c: nat)
    requires IsInitial(w) && Reaches(w, steps, w', limits) && Advancing(w', c) && w'.clients[c].point == Returned && !w'.clients[c].faulted
    ensures var k := w'.clients[c];
            && (Confirmed(k.heard, limits) ==> k.heard.answer.Some?)
            && (TimedOut(k.heard, k.row, limits) ==> NotAwaiting(w'.table, k.id))
            && (k.heard.answer.Some? && Decisive(k.heard.answer.value) ==> NotAwaiting(w'.table, k.id))
  {
    RunGrounds(w, steps, w', limits);
    assert Grounded(w'.table, w'.clients[c], limits) && ClientFits(w', c);
  }

  /** What a call has heard is what the run answered it. */
  lemma {:induction false} HeardIsAnswered(w: World, steps: seq<Step>, w': World, limits: Limits, c: nat)
    requires Reaches(w, steps, w', limits) && Advancing(w', c) && (c !in w.clients || !w.clients[c].Advance? || w.clients[c].heard == Heard(None, 0, None))
    ensures var h := w'.clients[c].heard;
            && (h.tx.Some? ==> TxAnswered(c, h.tx.value, h.at) in steps)
            && (h.answer.Some? ==> SubmitAnswered(c, h.answer.value) in steps)
  {
    HeardIsAnsweredFrom(w, steps, w', limits, c);
  }

  lemma {:induction false} HeardIsAnsweredFrom(w: World, steps: seq<Step>, w': World, limits: Limits, c: nat)
    requires Reaches(w, steps, w', limits) && Advancing(w', c)
    ensures var h := w'.clients[c].heard;
            && (h.tx.Some? ==> TxAnswered(c, h.tx.value, h.at) in steps || (Advancing(w, c) && h.tx == w.clients[c].heard.tx && h.at == w.clients[c].heard.at))
            && (h.answer.Some? ==> SubmitAnswered(c, h.answer.value) in steps || (Advancing(w, c) && h.answer == w.clients[c].heard.answer))
    decreases |steps|
  {
    if steps != [] {
      HeardIsAnsweredFrom(Next(w, steps[0], limits), steps[1..], w', limits, c);
      assert forall s :: s in steps <==> s == steps[0] || s in steps[1..];
    }
  }

  // ---------------------------------------------------------------- requests, statement by statement

  predicate Owned(t: Table, id: Id, user: nat) { id in t.rows && t.rows[id].user == user }

  predicate InUse(t: Table, txid: Txid) { exists o :: o in t.rows && t.rows[o].txid == Some(txid) }

  /** A request to attach a collateral goes on while the row is the user's and prepared and no row
      has the transaction, and is refused for the one of these that does not hold; it changes
      nothing until its update, and then exactly this row. */
  lemma RequestsAreAnswered(w: World, step: Step, limits: Limits)
    requires Inv(w) && Enabled(w, step) && step.RequestStatement?
    ensures var r, t, w' := w.clients[step.c], w.table, Next(w, step, limits);
            var at' := w'.clients[step.c].at;
            && (Owned(t, r.id, r.user) && t.rows[r.id].status == Prepared && !InUse(t, r.txid) && !r.at.ReadAfterMiss? ==>
                  at' == match r.at case ReadRow => ReadTxid case ReadTxid => Attach case _ => AttachDone(Attached))
            && (at' == AttachDone(Gone) ==> !Owned(t, r.id, r.user))
            && (at' == AttachDone(NotPrepared) ==> Owned(t, r.id, r.user) && t.rows[r.id].status != Prepared)
            && (at' == AttachDone(TxidUsed) ==> InUse(t, r.txid))
            && (r.at.ReadRow? && !(Owned(t, r.id, r.user) && t.rows[r.id].status == Prepared) ==> at' in {AttachDone(Gone), AttachDone(NotPrepared)})
            && (r.at.ReadTxid? && InUse(t, r.txid) ==> at' == AttachDone(TxidUsed))
            && (at' != AttachDone(Attached) ==> w'.table == t)
            && (at' == AttachDone(Attached) ==>
                  && Owned(t, r.id, r.user) && t.rows[r.id].status == Prepared && !InUse(t, r.txid)
                  && w'.table.rows.Keys == t.rows.Keys
                  && w'.table.rows[r.id] == t.rows[r.id].(status := Awaiting, txid := Some(r.txid), updatedAt := step.now)
                  && forall o :: o in t.rows && o != r.id ==> w'.table.rows[o] == t.rows[o])
  {
    var r, t := w.clients[step.c], w.table;
    assert ClientFits(w, step.c);
    if TakenTxid(t, r.txid, r.id) {
      var o :| o in t.rows && o != r.id && t.rows[o].txid == Some(r.txid);
      assert InUse(t, r.txid);
    } else if InUse(t, r.txid) && r.id in t.rows {
      assert RowFits(t.rows[r.id]);
    }
  }

  /** The confirmations seen are stored whenever they differ from those listed, before anything is
      submitted. */
  lemma ConfirmationsAreStored(w: World, c: nat, confs: nat, now: int, limits: Limits)
    requires Inv(w)
    ensures Enabled(w, TxAnswered(c, TxSeen(confs), now)) ==>
              Next(w, TxAnswered(c, TxSeen(confs), now), limits).clients[c].point
              == if confs != w.clients[c].row.confs then WriteConfs(confs) else if confs < limits.requiredConfs then Returned else AskSubmit
    ensures Enabled(w, Statement(c, now)) && w.clients[c].point == WriteConfs(confs) && w.clients[c].id in w.table.rows ==>
              var w', id := Next(w, Statement(c, now), limits), w.clients[c].id;
              && w'.table.rows.Keys == w.table.rows.Keys && w'.table.rows[id] == w.table.rows[id].(confs := confs, updatedAt := now)
              && (forall o :: o in w.table.rows && o != id ==> w'.table.rows[o] == w.table.rows[o])
              && w'.clients[c].point == if confs < limits.requiredConfs then Returned else AskSubmit
  {
  }

  /** Rows are added at any time, unless the user has prepared the same payload, and removed at
      any time while they are prepared or failed. */
  lemma RowsComeAndGo(w: World, user: nat, frozen: Frozen, now: int, id: Id, limits: Limits)
    requires Inv(w)
    ensures Enabled(w, Create(user, frozen, now)) && Enabled(w, Remove(id, user))
    ensures var t' := Next(w, Create(user, frozen, now), limits).table;
            if exists o :: o in w.table.rows && w.table.rows[o].user == user && w.table.rows[o].frozen.data == frozen.data && w.table.rows[o].status == Prepared
            then t' == w.table
            else w.table.nextId !in w.table.rows && t'.rows == w.table.rows[w.table.nextId := Row(user, frozen, Prepared, None, 0, None, None, now)]
    ensures var t' := Next(w, Remove(id, user), limits).table;
            && (forall o :: o in t'.rows <==> o in w.table.rows && !(o == id && w.table.rows[o].user == user && w.table.rows[o].status in {Prepared, Failed}))
            && (forall o :: o in t'.rows ==> t'.rows[o] == w.table.rows[o])
  {
  }
}
