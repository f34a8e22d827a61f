/** Any number of dispatcher workers and collateral requests on one submissions table,
    interleaved at every statement. A client is one call of the dispatcher on one listed row,
    or one attach request, and never comes back after it returned. */
module DispatcherRuns {
  import opened Answers
  import opened SubmissionTable

  datatype Limits = Limits(requiredConfs: nat, timeout: int)

  datatype TxAnswer = TxUnknown | TxError | TxSeen(confs: nat)

  datatype SubmitAnswer = RejectedForGood | AlreadyExists | Transient | Accepted(hash: Hash) | BadShape

  /** Where a dispatcher call stands: the await or the statement that comes next. */
  datatype Point =
    | AskTx
    | WriteConfs(confs: nat)
    | AskSubmit
    | ReadForSubmit(hash: Hash)
    | ReadClash(hash: Hash)
    | WriteSubmitted(hash: Hash)
    | ReadForFail(reason: Reason)
    | WriteFailed(reason: Reason)
    | ReRead(status: Status)
    | FireHook(status: Status, row: Row)
    | Returned

  datatype AttachPoint = ReadRow | ReadTxid | Attach | ReadAfterMiss | AttachDone(result: AttachResult)

  datatype AttachResult = Attached | Gone | NotPrepared | TxidUsed | CasMiss | AttachFault

  /** What a call was answered: about the transaction, and when; and about the submission. */
  datatype Heard = Heard(tx: Option<TxAnswer>, at: int, answer: Option<SubmitAnswer>)

  /** row is the dispatcher's copy from the listing. settled tells that the node has answered
      the submission for good; faulted that a statement failed for a reason of its own. */
  datatype Client =
    | Advance(id: Id, row: Row, point: Point, settled: bool, faulted: bool, heard: Heard)
    | Request(id: Id, user: nat, txid: Txid, at: AttachPoint)

  datatype Hook = Hook(id: Id, status: Status, client: nat, row: Row)

  /** won records whose statement took a row to its final state. */
  datatype World = World(table: Table, clients: map<nat, Client>, hooks: seq<Hook>, won: map<Id, (nat, Status)>)

  datatype Step =
    | Create(user: nat, frozen: Frozen, now: int)
    | Remove(id: Id, user: nat)
    | List(c: nat, id: Id)
    | TxAnswered(c: nat, tx: TxAnswer, now: int)
    | SubmitAnswered(c: nat, answer: SubmitAnswer)
    | Statement(c: nat, now: int)
    | Fire(c: nat)
    | Fault(c: nat)
    | StartRequest(c: nat, id: Id, user: nat, txid: Txid)
    | RequestStatement(c: nat, now: int)

  // ---------------------------------------------------------------- the dispatcher's control flow

  function AfterConfs(row: Row, confs: nat, limits: Limits): Point {
    if confs < limits.requiredConfs then Returned else AskSubmit
  }

  function AfterTx(row: Row, tx: TxAnswer, now: int, limits: Limits): Point {
    match tx
    case TxUnknown => if now - row.updatedAt > limits.timeout then ReadForFail(CollateralNotFound) else Returned
    case TxError => Returned
    case TxSeen(confs) => if confs != row.confs then WriteConfs(confs) else AfterConfs(row, confs, limits)
  }

  function AfterSubmit(row: Row, a: SubmitAnswer): Point {
    match a
    case RejectedForGood => ReadForFail(SubmitRejected)
    case AlreadyExists => ReadForSubmit(row.frozen.proposalHash)
    case Transient => Returned
    case Accepted(hash) => ReadForSubmit(hash)
    case BadShape => Returned
  }

  predicate IsStatement(p: Point) { !p.AskTx? && !p.AskSubmit? && !p.FireHook? && !p.Returned? }

  /** One statement: the table it leaves and the next point of the call. */
  function Execute(t: Table, id: Id, row: Row, p: Point, now: int, limits: Limits): (Table, Point)
    requires IsStatement(p)
  {
    match p
    case WriteConfs(confs) => (ConfsWrite(t, id, confs, now), AfterConfs(row, confs, limits))
    case ReadForSubmit(hash) => (t, if id !in t.rows || t.rows[id].status != Awaiting then Returned else ReadClash(hash))
    case ReadClash(hash) => (t, if TakenGov(t, hash, id) then ReadForFail(DuplicateHash) else WriteSubmitted(hash))
    case WriteSubmitted(hash) =>
      var (t', w) := SubmittedWrite(t, id, hash, now);
      (t', match w case Changed => ReRead(Submitted) case NoMatch => Returned case Violation => ReadForFail(DuplicateHash))
    case ReadForFail(reason) => (t, if id !in t.rows || Terminal(t.rows[id].status) then Returned else WriteFailed(reason))
    case WriteFailed(reason) =>
      var (t', w) := FailedWrite(t, id, reason, now);
      (t', if w.Changed? then ReRead(Failed) else Returned)
    case ReRead(status) => (t, if id in t.rows then FireHook(status, t.rows[id]) else Returned)
  }

  function ExecuteRequest(t: Table, r: Client, now: int): (Table, AttachPoint)
    requires r.Request? && !r.at.AttachDone?
  {
    var own := r.id in t.rows && t.rows[r.id].user == r.user;
    match r.at
    case ReadRow => (t, if !own then AttachDone(Gone) else if t.rows[r.id].status != Prepared then AttachDone(NotPrepared) else ReadTxid)
    case ReadTxid => (t, if exists o :: o in t.rows && t.rows[o].txid == Some(r.txid) then AttachDone(TxidUsed) else Attach)
    case Attach =>
      var (t', w) := AttachWrite(t, r.id, r.user, r.txid, now);
      (t', match w case Changed => AttachDone(Attached) case NoMatch => ReadAfterMiss case Violation => AttachDone(TxidUsed))
    case ReadAfterMiss => (t, AttachDone(if !own then Gone else if t.rows[r.id].status != Prepared then NotPrepared else CasMiss))
  }

  function Won(w: World, id: Id, c: nat, p: Point): map<Id, (nat, Status)> {
    if p.ReRead? then w.won[id := (c, p.status)] else w.won
  }

  predicate Advancing(w: World, c: nat) { c in w.clients && w.clients[c].Advance? }

  predicate Enabled(w: World, step: Step) {
    match step
    case Create(_, _, _) => true
    case Remove(_, _) => true
    case List(c, id) => c !in w.clients && id in w.table.rows && w.table.rows[id].status == Awaiting
    case TxAnswered(c, _, _) => Advancing(w, c) && w.clients[c].point.AskTx?
    case SubmitAnswered(c, _) => Advancing(w, c) && w.clients[c].point.AskSubmit?
    case Statement(c, _) => Advancing(w, c) && IsStatement(w.clients[c].point)
    case Fire(c) => Advancing(w, c) && w.clients[c].point.FireHook?
    case Fault(c) => Advancing(w, c) && IsStatement(w.clients[c].point)
    case StartRequest(c, _, _, _) => c !in w.clients
    case RequestStatement(c, _) => c in w.clients && w.clients[c].Request? && !w.clients[c].at.AttachDone?
  }

  function Next(w: World, step: Step, limits: Limits): World
    requires Enabled(w, step)
  {
    match step
    case Create(user, frozen, now) => w.(table := Insert(w.table, user, frozen, now).0)
    case Remove(id, user) => w.(table := Delete(w.table, id, user).0)
    case List(c, id) => w.(clients := w.clients[c := Advance(id, w.table.rows[id], AskTx, false, false, Heard(None, 0, None))])
    case TxAnswered(c, tx, now) =>
      var k := w.clients[c];
      w.(clients := w.clients[c := k.(point := AfterTx(k.row, tx, now, limits), heard := Heard(Some(tx), now, None))])
    case SubmitAnswered(c, answer) =>
      var k := w.clients[c];
      w.(clients := w.clients[c := k.(point := AfterSubmit(k.row, answer), settled := !answer.Transient? && !answer.BadShape?,
                                           heard := k.heard.(answer := Some(answer)))])
    case Statement(c, now) =>
      var k := w.clients[c];
      var (t, p) := Execute(w.table, k.id, k.row, k.point, now, limits);
      w.(table := t, clients := w.clients[c := k.(point := p)], won := Won(w, k.id, c, p))
    case Fire(c) =>
      var k := w.clients[c];
      w.(clients := w.clients[c := k.(point := Returned)], hooks := w.hooks + [Hook(k.id, k.point.status, c, k.point.row)])
    case Fault(c) => w.(clients := w.clients[c := w.clients[c].(point := Returned, faulted := true)])
    case StartRequest(c, id, user, txid) => w.(clients := w.clients[c := Request(id, user, txid, ReadRow)])
    case RequestStatement(c, now) =>
      var (t, at) := ExecuteRequest(w.table, w.clients[c], now);
      w.(table := t, clients := w.clients[c := w.clients[c].(at := at)])
  }

  // ---------------------------------------------------------------- invariant

  /** A row was awaiting once; it can only have moved on, or have failed and been removed. */
  predicate Past(t: Table, id: Id, frozen: Frozen) {
    id < t.nextId && (id in t.rows ==> t.rows[id].status != Prepared && t.rows[id].frozen == frozen)
  }

  predicate NotAwaiting(t: Table, id: Id) { id !in t.rows || Terminal(t.rows[id].status) }

  /** The call still owes the hook of the row that it took to a final state. */
  predicate Owes(k: Client) { k.Advance? && (k.point.ReRead? || k.point.FireHook?) }

  ghost predicate ClientFits(w: World, c: nat)
    requires c in w.clients
  {
    var k := w.clients[c];
    if k.Request? then
      (k.at in {Attach, ReadTxid, ReadAfterMiss} ==> k.id < w.table.nextId)
      && (k.at.ReadAfterMiss? ==> k.id in w.table.rows && w.table.rows[k.id].user == k.user ==> w.table.rows[k.id].status != Prepared)
      && k.at != AttachDone(CasMiss)
    else
      && Past(w.table, k.id, k.row.frozen) && k.row.txid.Some?
      && (Owes(k) ==> k.id in w.won && w.won[k.id] == (c, k.point.status))
      && (k.point.FireHook? ==> k.point.row.status == k.point.status && k.point.row.frozen == k.row.frozen)
      && (k.point.Returned? && k.settled && !k.faulted ==> NotAwaiting(w.table, k.id))
      && (k.faulted ==> k.point.Returned?)
      && (k.settled ==> !k.point.AskTx? && !k.point.WriteConfs? && !k.point.AskSubmit?)
  }

  ghost predicate WinFits(w: World, id: Id)
    requires id in w.won
  {
    && id < w.table.nextId && Terminal(w.won[id].1) && Advancing(w, w.won[id].0) && w.clients[w.won[id].0].id == id
    && (id in w.table.rows ==> w.table.rows[id].status == w.won[id].1)
  }

  /** A won row is in the state it was won for, unless it failed and was removed. */
  ghost predicate WonFits(w: World) {
    && (forall id :: id in w.won ==> WinFits(w, id))
    && (forall id :: id in w.table.rows && Terminal(w.table.rows[id].status) ==> id in w.won)
  }

  /** A fired hook is the winner's, and the winner has nothing left to fire. */
  ghost predicate HookFits(w: World, h: Hook) {
    && h.id in w.won && w.won[h.id] == (h.client, h.status) && h.row.status == h.status
    && Advancing(w, h.client) && w.clients[h.client].point.Returned?
  }

  ghost predicate HooksFit(w: World) {
    && (forall j :: 0 <= j < |w.hooks| ==> HookFits(w, w.hooks[j]))
    && (forall i, j :: 0 <= i < j < |w.hooks| ==> w.hooks[i].id != w.hooks[j].id)
  }

  predicate Fired(w: World, id: Id) { exists j :: 0 <= j < |w.hooks| && w.hooks[j].id == id }

  /** The winner's hook is owed or fired, unless a statement failed or the row was removed. */
  ghost predicate HooksComplete(w: World) {
    forall id :: id in w.won && id in w.table.rows ==>
      var c := w.won[id].0;
      Advancing(w, c) && (Owes(w.clients[c]) || w.clients[c].faulted || Fired(w, id))
  }

  ghost predicate Inv(w: World) {
    && TableInv(w.table) && WonFits(w) && HooksFit(w) && HooksComplete(w)
    && (forall c :: c in w.clients ==> ClientFits(w, c))
  }

  // ---------------------------------------------------------------- every step keeps it

  lemma TableStep(w: World, step: Step, limits: Limits)
    requires TableInv(w.table) && Enabled(w, step)
    ensures TableInv(Next(w, step, limits).table) && Moves(w.table, Next(w, step, limits).table)
  {
    match step
    case Create(user, frozen, now) => InsertEffect(w.table, user, frozen, now);
    case Remove(id, user) => DeleteEffect(w.table, id, user);
    case Statement(c, now) =>
      var k := w.clients[c];
      match k.point {
        case WriteConfs(confs) => ConfsEffect(w.table, k.id, confs, now);
        case WriteSubmitted(hash) => SubmittedEffect(w.table, k.id, hash, now);
        case WriteFailed(reason) => FailedEffect(w.table, k.id, reason, now);
        case _ =>
      }
    case RequestStatement(c, now) =>
      var k := w.clients[c];
      AttachEffect(w.table, k.id, k.user, k.txid, now);
    case _ =>
  }

  /** A row enters a final state only by the conditional update of one call, which then
      goes on to its hook. */
  lemma FinalOnlyByWinner(w: World, step: Step, limits: Limits, id: Id)
    requires Inv(w) && Enabled(w, step)
    requires id in Next(w, step, limits).table.rows && Terminal(Next(w, step, limits).table.rows[id].status)
    requires id in w.table.rows ==> !Terminal(w.table.rows[id].status)
    ensures step.Statement? && w.clients[step.c].id == id && id !in w.won
    ensures Next(w, step, limits).clients[step.c].point == ReRead(Next(w, step, limits).table.rows[id].status)
  {
  }

  lemma WinnerWasFirst(w: World, step: Step, limits: Limits)
    requires Inv(w) && Enabled(w, step) && step.Statement? && Next(w, step, limits).clients[step.c].point.ReRead?
    ensures var k := w.clients[step.c];
            && k.id in w.table.rows && !Terminal(w.table.rows[k.id].status) && k.id !in w.won
            && k.id in Next(w, step, limits).table.rows
            && Next(w, step, limits).table.rows[k.id].status == Next(w, step, limits).clients[step.c].point.status
            && !Owes(k)
  {
  }

  lemma FinalIsWon(w: World, step: Step, limits: Limits)
    requires Inv(w) && Enabled(w, step)
    ensures var w' := Next(w, step, limits); forall id :: id in w'.table.rows && Terminal(w'.table.rows[id].status) ==> id in w'.won
  {
    var w' := Next(w, step, limits);
    forall id | id in w'.table.rows && Terminal(w'.table.rows[id].status)
      ensures id in w'.won
    {
      if !(id in w.table.rows && Terminal(w.table.rows[id].status)) { FinalOnlyByWinner(w, step, limits, id); }
    }
  }

  lemma WonStep(w: World, step: Step, limits: Limits)
    requires Inv(w) && Enabled(w, step)
    ensures WonFits(Next(w, step, limits))
    ensures forall id :: id in w.won ==> id in Next(w, step, limits).won && Next(w, step, limits).won[id] == w.won[id]
  {
    var w' := Next(w, step, limits);
    FinalIsWon(w, step, limits);
    WonKept(w, step, limits);
    forall id | id in w'.won
      ensures WinFits(w', id)
    {
      if id in w.won { WonStays(w, step, limits, id); } else { WonNow(w, step, limits, id); }
    }
  }

  lemma WonKept(w: World, step: Step, limits: Limits)
    requires Inv(w) && Enabled(w, step)
    ensures forall id :: id in w.won ==> id in Next(w, step, limits).won && Next(w, step, limits).won[id] == w.won[id]
  {
    if step.Statement? && Next(w, step, limits).clients[step.c].point.ReRead? { WinnerWasFirst(w, step, limits); }
  }

  lemma WonNow(w: World, step: Step, limits: Limits, id: Id)
    requires Inv(w) && Enabled(w, step) && id !in w.won && id in Next(w, step, limits).won
    ensures WinFits(Next(w, step, limits), id)
  {
    WinnerWasFirst(w, step, limits);
    assert ClientFits(w, step.c);
  }

  /** A decided row stays decided, and its id is never used again. */
  lemma WonStays(w: World, step: Step, limits: Limits, id: Id)
    requires Inv(w) && Enabled(w, step) && id in w.won
    requires id in Next(w, step, limits).won && Next(w, step, limits).won[id] == w.won[id]
    ensures WinFits(Next(w, step, limits), id)
  {
    TableStep(w, step, limits);
    assert WinFits(w, id);
  }

  lemma HooksStep(w: World, step: Step, limits: Limits)
    requires Inv(w) && Enabled(w, step)
    ensures HooksFit(Next(w, step, limits))
  {
    var w' := Next(w, step, limits);
    WonStep(w, step, limits);
    forall j | 0 <= j < |w.hooks|
      ensures HookFits(w', w'.hooks[j]) && (step.Fire? ==> w.hooks[j].id != w.clients[step.c].id)
    {
      assert HookFits(w, w.hooks[j]);
    }
  }

  lemma CompleteStep(w: World, step: Step, limits: Limits)
    requires Inv(w) && Enabled(w, step)
    ensures HooksComplete(Next(w, step, limits))
  {
    var w' := Next(w, step, limits);
    WonStep(w, step, limits);
    TableStep(w, step, limits);
    forall id | id in w'.won && id in w'.table.rows
      ensures Advancing(w', w'.won[id].0)
      ensures Owes(w'.clients[w'.won[id].0]) || w'.clients[w'.won[id].0].faulted || Fired(w', id)
    {
      if id in w.won && id in w.table.rows { StillComplete(w, step, limits, id); }
    }
  }

  lemma StillComplete(w: World, step: Step, limits: Limits, id: Id)
    requires Inv(w) && Enabled(w, step) && id in w.won && id in w.table.rows && id in Next(w, step, limits).table.rows
    ensures var w' := Next(w, step, limits); var c := w.won[id].0;
            Advancing(w', c) && (Owes(w'.clients[c]) || w'.clients[c].faulted || Fired(w', id))
  {
    var w' := Next(w, step, limits);
    if Fired(w, id) {
      var j :| 0 <= j < |w.hooks| && w.hooks[j].id == id;
      assert w'.hooks[j].id == id;
    } else if step.Fire? && step.c == w.won[id].0 {
      assert w'.hooks[|w.hooks|].id == id;
    }
  }

  lemma OthersStayFit(w: World, step: Step, limits: Limits, c: nat)
    requires Inv(w) && Enabled(w, step) && c in w.clients && Next(w, step, limits).clients[c] == w.clients[c]
    ensures ClientFits(Next(w, step, limits), c)
  {
    TableStep(w, step, limits);
    WonStep(w, step, limits);
    assert ClientFits(w, c);
  }

  lemma RequestStaysFit(w: World, step: Step, limits: Limits)
    requires Inv(w) && Enabled(w, step) && step.RequestStatement?
    ensures ClientFits(Next(w, step, limits), step.c)
  {
    TableStep(w, step, limits);
    assert ClientFits(w, step.c);
  }

  lemma NewClientFits(w: World, step: Step, limits: Limits)
    requires Inv(w) && Enabled(w, step) && (step.StartRequest? || step.List?)
    ensures ClientFits(Next(w, step, limits), step.c)
  {
  }

  /** Past the confirmations, a call gives up only on a row that awaits nothing any more. */
  lemma ExecuteEffect(t: Table, id: Id, row: Row, p: Point, now: int, limits: Limits)
    requires IsStatement(p) && Past(t, id, row.frozen)
    ensures var (t', p') := Execute(t, id, row, p, now, limits);
            && Past(t', id, row.frozen) && !p'.AskTx? && !p'.WriteConfs? && (p'.AskSubmit? ==> p.WriteConfs?)
            && (p'.Returned? && !p.WriteConfs? ==> NotAwaiting(t', id))
            && (p'.FireHook? ==> p == ReRead(p'.status) && id in t.rows && p'.row == t.rows[id])
  {
  }

  lemma StatementStaysFit(w: World, step: Step, limits: Limits)
    requires Inv(w) && Enabled(w, step) && step.Statement?
    ensures ClientFits(Next(w, step, limits), step.c)
  {
    var k := w.clients[step.c];
    assert ClientFits(w, step.c);
    ExecuteEffect(w.table, k.id, k.row, k.point, step.now, limits);
    if Next(w, step, limits).clients[step.c].point.ReRead? { WinnerWasFirst(w, step, limits); }
  }

  lemma CallStaysFit(w: World, step: Step, limits: Limits)
    requires Inv(w) && Enabled(w, step) && (step.TxAnswered? || step.SubmitAnswered? || step.Fire? || step.Fault?)
    ensures ClientFits(Next(w, step, limits), step.c)
  {
    assert ClientFits(w, step.c);
  }

  lemma StepKeepsInv(w: World, step: Step, limits: Limits)
    requires Inv(w) && Enabled(w, step)
    ensures Inv(Next(w, step, limits))
  {
    var w' := Next(w, step, limits);
    TableStep(w, step, limits);
    WonStep(w, step, limits);
    HooksStep(w, step, limits);
    CompleteStep(w, step, limits);
    forall c | c in w'.clients
      ensures ClientFits(w', c)
    {
      if c in w.clients && w'.clients[c] == w.clients[c] { OthersStayFit(w, step, limits, c); }
      else if step.Statement? { StatementStaysFit(w, step, limits); }
      else if step.RequestStatement? { RequestStaysFit(w, step, limits); }
      else if step.StartRequest? || step.List? { NewClientFits(w, step, limits); }
      else { CallStaysFit(w, step, limits); }
    }
  }

  // ---------------------------------------------------------------- main results

  predicate IsInitial(w: World) { w == World(Table(map[], w.table.nextId), map[], [], map[]) }

  ghost predicate Reaches(w: World, steps: seq<Step>, w': World, limits: Limits)
    decreases |steps|
  {
    if steps == [] then w' == w
    else Enabled(w, steps[0]) && Reaches(Next(w, steps[0], limits), steps[1..], w', limits)
  }

  lemma {:induction false} RunKeepsInv(w: World, steps: seq<Step>, w': World, limits: Limits)
    requires Inv(w) && Reaches(w, steps, w', limits)
    ensures Inv(w')
    decreases |steps|
  {
    if steps != [] {
      StepKeepsInv(w, steps[0], limits);
      RunKeepsInv(Next(w, steps[0], limits), steps[1..], w', limits);
    }
  }

  /** In every run: at most one hook per row, fired by the call whose conditional update
      changed the row, with that row in that final state; exactly one unless the winner lost
      its database or the failed row was removed; and no hash or collateral in two rows. */
  lemma HooksFireOnce(w: World, steps: seq<Step>, w': World, limits: Limits, id: Id)
    requires IsInitial(w) && Reaches(w, steps, w', limits)
    ensures forall i, j :: 0 <= i < |w'.hooks| && 0 <= j < |w'.hooks| && w'.hooks[i].id == w'.hooks[j].id ==> i == j
    ensures forall j :: 0 <= j < |w'.hooks| && w'.hooks[j].id == id ==>
              id in w'.won && w'.won[id] == (w'.hooks[j].client, w'.hooks[j].status) && w'.hooks[j].row.status == w'.hooks[j].status
    ensures id in w'.table.rows && Terminal(w'.table.rows[id].status) ==>
              && id in w'.won && Advancing(w', w'.won[id].0)
              && var c := w'.won[id].0; Owes(w'.clients[c]) || w'.clients[c].faulted || Fired(w', id)
    ensures forall o :: id in w'.table.rows && o in w'.table.rows && o != id ==> Apart(w'.table.rows[id], w'.table.rows[o])
  {
    RunKeepsInv(w, steps, w', limits);
    forall j | 0 <= j < |w'.hooks| && w'.hooks[j].id == id
      ensures id in w'.won && w'.won[id] == (w'.hooks[j].client, w'.hooks[j].status) && w'.hooks[j].row.status == w'.hooks[j].status
    {
      assert HookFits(w', w'.hooks[j]);
    }
  }

  /** In every run, whatever interleaves, no two rows ever share a collateral transaction or a
      governance hash. */
  lemma HashesAreUnique(w: World, steps: seq<Step>, w': World, limits: Limits, a: Id, b: Id)
    requires IsInitial(w) && Reaches(w, steps, w', limits) && a in w'.table.rows && b in w'.table.rows && a != b
    ensures w'.table.rows[a].txid.Some? ==> w'.table.rows[a].txid != w'.table.rows[b].txid
    ensures w'.table.rows[a].gov.Some? ==> w'.table.rows[a].gov != w'.table.rows[b].gov
  {
    RunKeepsInv(w, steps, w', limits);
    assert Apart(w'.table.rows[a], w'.table.rows[b]);
  }

  /** Along every run a row only moves forward: its owner and its hashed fields never change,
      a collateral or governance hash is written once, and a final state is final. Only a
      prepared or failed row disappears, and its id never comes back. */
  lemma {:induction false} RowsMoveForward(w: World, steps: seq<Step>, w': World, limits: Limits, id: Id)
    requires Inv(w) && Reaches(w, steps, w', limits) && id in w.table.rows
    ensures id in w'.table.rows ==> Forward(w.table.rows[id], w'.table.rows[id])
    ensures w.table.rows[id].status == Submitted ==> id in w'.table.rows
    decreases |steps|
  {
    if steps != [] {
      var m := Next(w, steps[0], limits);
      TableStep(w, steps[0], limits);
      StepKeepsInv(w, steps[0], limits);
      if id in m.table.rows { RowsMoveForward(m, steps[1..], w', limits, id); }
      else { GoneForGood(m, steps[1..], w', limits, id); }
    }
  }

  lemma {:induction false} GoneForGood(w: World, steps: seq<Step>, w': World, limits: Limits, id: Id)
    requires Inv(w) && Reaches(w, steps, w', limits) && id !in w.table.rows && id < w.table.nextId
    ensures id !in w'.table.rows
    decreases |steps|
  {
    if steps != [] {
      TableStep(w, steps[0], limits);
      StepKeepsInv(w, steps[0], limits);
      GoneForGood(Next(w, steps[0], limits), steps[1..], w', limits, id);
    }
  }

  /** A call whose submission the node answered for good, with a hash, a duplicate or a
      rejection, returns with the row no longer awaiting, and it stays so: no clash loops.
      The request error for an inexplicable lost update is never raised. */
  lemma SettledCallsFinish(w: World, steps: seq<Step>, w': World, limits: Limits, c: nat)
    requires IsInitial(w) && Reaches(w, steps, w', limits) && c in w'.clients
    ensures w'.clients[c].Advance? && w'.clients[c].settled && w'.clients[c].point.Returned? && !w'.clients[c].faulted ==>
              NotAwaiting(w'.table, w'.clients[c].id)
    ensures w'.clients[c].Request? ==> w'.clients[c].at != AttachDone(CasMiss)
  {
    RunKeepsInv(w, steps, w', limits);
    assert ClientFits(w', c);
  }

  function Rank(p: Point): nat {
    match p
    case AskTx => 10
    case WriteConfs(_) => 9
    case AskSubmit => 8
    case ReadForSubmit(_) => 7
    case ReadClash(_) => 6
    case WriteSubmitted(_) => 5
    case ReadForFail(_) => 4
    case WriteFailed(_) => 3
    case ReRead(_) => 2
    case FireHook(_, _) => 1
    case Returned => 0
  }

  /** Every step of a call brings it nearer to its end: it returns after at most ten. */
  lemma CallsReturn(w: World, step: Step, limits: Limits)
    requires Enabled(w, step) && (step.TxAnswered? || step.SubmitAnswered? || step.Statement? || step.Fire? || step.Fault?)
    ensures Rank(Next(w, step, limits).clients[step.c].point) < Rank(w.clients[step.c].point)
  {
  }
}
