/** The submissions table and its statements. Each statement is atomic; the three unique
    indexes are the database's. */
module SubmissionTable {
  import opened Answers

  type Id = nat
  type Hash = nat
  type Txid = nat

  datatype Status = Prepared | Awaiting | Submitted | Failed

  predicate Terminal(s: Status) { s == Submitted || s == Failed }

  datatype Reason = CollateralNotFound | SubmitRejected | DuplicateHash

  /** The hashed fields. proposalHash is the hash that Core will compute from the others. */
  datatype Frozen = Frozen(parent: nat, revision: int, time: int, data: string, proposalHash: Hash)

  datatype Row = Row(user: nat, frozen: Frozen, status: Status, txid: Option<Txid>, confs: nat,
                     gov: Option<Hash>, reason: Option<Reason>, updatedAt: int)

  /** Row ids are never used twice. */
  datatype Table = Table(rows: map<Id, Row>, nextId: Id)

  datatype Written = Changed | NoMatch | Violation

  predicate TakenTxid(t: Table, txid: Txid, id: Id) { exists o :: o in t.rows && o != id && t.rows[o].txid == Some(txid) }

  predicate TakenGov(t: Table, hash: Hash, id: Id) { exists o :: o in t.rows && o != id && t.rows[o].gov == Some(hash) }

  predicate TakenPayload(t: Table, user: nat, data: string) {
    exists o :: o in t.rows && t.rows[o].user == user && t.rows[o].frozen.data == data && t.rows[o].status == Prepared
  }

  function Insert(t: Table, user: nat, frozen: Frozen, now: int): (Table, Written) {
    if TakenPayload(t, user, frozen.data) then (t, Violation)
    else (Table(t.rows[t.nextId := Row(user, frozen, Prepared, None, 0, None, None, now)], t.nextId + 1), Changed)
  }

  function AttachWrite(t: Table, id: Id, user: nat, txid: Txid, now: int): (Table, Written) {
    if id !in t.rows || t.rows[id].user != user || t.rows[id].status != Prepared then (t, NoMatch)
    else if TakenTxid(t, txid, id) then (t, Violation)
    else (t.(rows := t.rows[id := t.rows[id].(status := Awaiting, txid := Some(txid), updatedAt := now)]), Changed)
  }

  function ConfsWrite(t: Table, id: Id, confs: nat, now: int): Table {
    if id in t.rows then t.(rows := t.rows[id := t.rows[id].(confs := confs, updatedAt := now)]) else t
  }

  function SubmittedWrite(t: Table, id: Id, hash: Hash, now: int): (Table, Written) {
    if id !in t.rows || t.rows[id].status != Awaiting then (t, NoMatch)
    else if TakenGov(t, hash, id) then (t, Violation)
    else (t.(rows := t.rows[id := t.rows[id].(status := Submitted, gov := Some(hash), updatedAt := now)]), Changed)
  }

  function FailedWrite(t: Table, id: Id, reason: Reason, now: int): (Table, Written) {
    if id !in t.rows || Terminal(t.rows[id].status) then (t, NoMatch)
    else (t.(rows := t.rows[id := t.rows[id].(status := Failed, reason := Some(reason), updatedAt := now)]), Changed)
  }

  function Delete(t: Table, id: Id, user: nat): (Table, Written) {
    if id in t.rows && t.rows[id].user == user && t.rows[id].status in {Prepared, Failed}
    then (t.(rows := map o | o in t.rows && o != id :: t.rows[o]), Changed) else (t, NoMatch)
  }

  // ---------------------------------------------------------------- invariant

  predicate RowFits(r: Row) {
    && (r.status == Prepared ==> r.txid.None?)
    && (r.status in {Awaiting, Submitted} ==> r.txid.Some?)
    && (r.gov.Some? <==> r.status == Submitted)
    && (r.reason.Some? <==> r.status == Failed)
  }

  /** What the unique indexes keep two rows from sharing. */
  predicate Apart(a: Row, b: Row) {
    && (a.txid.Some? ==> a.txid != b.txid)
    && (a.gov.Some? ==> a.gov != b.gov)
    && (a.status == Prepared && b.status == Prepared && a.user == b.user ==> a.frozen.data != b.frozen.data)
  }

  ghost predicate TableInv(t: Table) {
    && (forall id :: id in t.rows ==> id < t.nextId && RowFits(t.rows[id]))
    && (forall a, b :: a in t.rows && b in t.rows && a != b ==> Apart(t.rows[a], t.rows[b]))
  }

  /** How one statement may change one row: the owner and the hashed fields never; the
      collateral and the governance hash only once; the state only forwards. */
  predicate Forward(a: Row, b: Row) {
    && b.user == a.user && b.frozen == a.frozen
    && (a.txid.Some? ==> b.txid == a.txid) && (a.gov.Some? ==> b.gov == a.gov)
    && match a.status
       case Prepared => true
       case Awaiting => b.status != Prepared
       case Submitted => b.status == Submitted && b.reason == a.reason
       case Failed => b.status == Failed && b.reason == a.reason
  }

  ghost predicate Moves(t: Table, t': Table) {
    && t.nextId <= t'.nextId
    && (forall id :: id in t.rows && id in t'.rows ==> Forward(t.rows[id], t'.rows[id]))
    && (forall id :: id in t'.rows && id !in t.rows ==> t.nextId <= id)
    && (forall id :: id in t.rows && id !in t'.rows ==> t.rows[id].status in {Prepared, Failed})
  }

  lemma RowEffect(t: Table, id: Id, row: Row)
    requires TableInv(t) && id in t.rows && RowFits(row) && Forward(t.rows[id], row)
    requires forall o :: o in t.rows && o != id ==> Apart(row, t.rows[o]) && Apart(t.rows[o], row)
    ensures TableInv(t.(rows := t.rows[id := row])) && Moves(t, t.(rows := t.rows[id := row]))
  {
  }

  lemma InsertEffect(t: Table, user: nat, frozen: Frozen, now: int)
    requires TableInv(t)
    ensures TableInv(Insert(t, user, frozen, now).0) && Moves(t, Insert(t, user, frozen, now).0)
  {
  }

  lemma AttachEffect(t: Table, id: Id, user: nat, txid: Txid, now: int)
    requires TableInv(t)
    ensures TableInv(AttachWrite(t, id, user, txid, now).0) && Moves(t, AttachWrite(t, id, user, txid, now).0)
  {
    if AttachWrite(t, id, user, txid, now).1.Changed? {
      RowEffect(t, id, t.rows[id].(status := Awaiting, txid := Some(txid), updatedAt := now));
    }
  }

  lemma ConfsEffect(t: Table, id: Id, confs: nat, now: int)
    requires TableInv(t)
    ensures TableInv(ConfsWrite(t, id, confs, now)) && Moves(t, ConfsWrite(t, id, confs, now))
  {
    if id in t.rows { RowEffect(t, id, t.rows[id].(confs := confs, updatedAt := now)); }
  }

  lemma SubmittedEffect(t: Table, id: Id, hash: Hash, now: int)
    requires TableInv(t)
    ensures TableInv(SubmittedWrite(t, id, hash, now).0) && Moves(t, SubmittedWrite(t, id, hash, now).0)
  {
    if SubmittedWrite(t, id, hash, now).1.Changed? {
      RowEffect(t, id, t.rows[id].(status := Submitted, gov := Some(hash), updatedAt := now));
    }
  }

  lemma FailedEffect(t: Table, id: Id, reason: Reason, now: int)
    requires TableInv(t)
    ensures TableInv(FailedWrite(t, id, reason, now).0) && Moves(t, FailedWrite(t, id, reason, now).0)
  {
    if FailedWrite(t, id, reason, now).1.Changed? {
      RowEffect(t, id, t.rows[id].(status := Failed, reason := Some(reason), updatedAt := now));
    }
  }

  lemma DeleteEffect(t: Table, id: Id, user: nat)
    requires TableInv(t)
    ensures TableInv(Delete(t, id, user).0) && Moves(t, Delete(t, id, user).0)
  {
  }
}
