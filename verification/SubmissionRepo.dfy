/** The submissions repository and one uninterrupted call of the dispatcher, in place. */
module SubmissionRepo {
  import opened Answers
  import opened SubmissionTable
  import D = DispatcherRuns

  datatype MarkResult = Marked(row: Row) | NullRow | StatusNotAwaiting | StatusTerminal | HashClash

  class Submissions {
    var rows: map<Id, Row>
    var nextId: Id
    ghost var hooks: seq<(Id, Status)>

    function View(): Table
      reads this
    {
      Table(rows, nextId)
    }

    constructor ()
      ensures View() == Table(map[], 1) && TableInv(View()) && hooks == []
    {
      rows, nextId, hooks := map[], 1, [];
    }

    /** A second prepared row of one user with the same payload is refused. */
    method Create(user: nat, frozen: Frozen, now: int) returns (id: Option<Id>)
      requires TableInv(View())
      modifies this
      ensures View() == Insert(old(View()), user, frozen, now).0 && TableInv(View()) && hooks == old(hooks)
      ensures id.None? <==> TakenPayload(old(View()), user, frozen.data)
      ensures id.None? <==> exists o :: o in old(rows) && old(rows)[o].user == user && old(rows)[o].frozen.data == frozen.data && old(rows)[o].status == Prepared
      ensures id.Some? ==> id.value !in old(rows) && rows == old(rows)[id.value := Row(user, frozen, Prepared, None, 0, None, None, now)]
    {
      InsertEffect(View(), user, frozen, now);
      if TakenPayload(View(), user, frozen.data) { return None; }
      id := Some(nextId);
      rows, nextId := rows[nextId := Row(user, frozen, Prepared, None, 0, None, None, now)], nextId + 1;
    }

    method AttachCollateral(id: Id, user: nat, txid: Txid, now: int) returns (r: D.AttachResult)
      requires TableInv(View())
      modifies this
      ensures View() == AttachWrite(old(View()), id, user, txid, now).0 && TableInv(View()) && hooks == old(hooks)
      ensures r == D.Attached <==> old(View()) != View()
      ensures r == D.Gone <==> !(id in old(rows) && old(rows)[id].user == user)
      ensures r == D.NotPrepared <==> id in old(rows) && old(rows)[id].user == user && old(rows)[id].status != Prepared
      ensures r in {D.Attached, D.Gone, D.NotPrepared, D.TxidUsed}
      ensures r == D.TxidUsed <==> id in old(rows) && old(rows)[id].user == user && old(rows)[id].status == Prepared
                                   && exists o :: o in old(rows) && old(rows)[o].txid == Some(txid)
      ensures r == D.Attached ==> rows == old(rows)[id := old(rows)[id].(status := Awaiting, txid := Some(txid), updatedAt := now)]
    {
      AttachEffect(View(), id, user, txid, now);
      if id !in rows || rows[id].user != user { return D.Gone; }
      if rows[id].status != Prepared { return D.NotPrepared; }
      if exists o :: o in rows && rows[o].txid == Some(txid) {
        assert rows[id].txid.None?;
        return D.TxidUsed;
      }
      rows := rows[id := rows[id].(status := Awaiting, txid := Some(txid), updatedAt := now)];
      return D.Attached;
    }

    method UpdateConfirmations(id: Id, confs: nat, now: int)
      requires TableInv(View())
      modifies this
      ensures View() == ConfsWrite(old(View()), id, confs, now) && TableInv(View()) && hooks == old(hooks)
      ensures rows == if id in old(rows) then old(rows)[id := old(rows)[id].(confs := confs, updatedAt := now)] else old(rows)
    {
      ConfsEffect(View(), id, confs, now);
      if id in rows { rows := rows[id := rows[id].(confs := confs, updatedAt := now)]; }
    }

    method MarkSubmitted(id: Id, hash: Hash, now: int) returns (r: MarkResult)
      requires TableInv(View())
      modifies this
      ensures View() == SubmittedWrite(old(View()), id, hash, now).0 && TableInv(View()) && hooks == old(hooks)
      ensures r.Marked? <==> SubmittedWrite(old(View()), id, hash, now).1.Changed?
      ensures r.Marked? ==> id in rows && r.row == rows[id] && r.row.status == Submitted && r.row.gov == Some(hash)
      ensures r == HashClash <==> id in old(rows) && old(rows)[id].status == Awaiting && TakenGov(old(View()), hash, id)
      ensures r == HashClash <==> id in old(rows) && old(rows)[id].status == Awaiting
                                  && exists o :: o in old(rows) && o != id && old(rows)[o].gov == Some(hash)
      ensures r == StatusNotAwaiting <==> id in old(rows) && old(rows)[id].status != Awaiting
      ensures r == NullRow <==> id !in old(rows)
      ensures rows == if r.Marked? then old(rows)[id := old(rows)[id].(status := Submitted, gov := Some(hash), updatedAt := now)] else old(rows)
      ensures r != StatusTerminal
    {
      SubmittedEffect(View(), id, hash, now);
      if id !in rows { return NullRow; }
      if rows[id].status != Awaiting { return StatusNotAwaiting; }
      if exists o :: o in rows && o != id && rows[o].gov == Some(hash) { return HashClash; }
      rows := rows[id := rows[id].(status := Submitted, gov := Some(hash), updatedAt := now)];
      return Marked(rows[id]);
    }

    method MarkFailed(id: Id, reason: Reason, now: int) returns (r: MarkResult)
      requires TableInv(View())
      modifies this
      ensures View() == FailedWrite(old(View()), id, reason, now).0 && TableInv(View()) && hooks == old(hooks)
      ensures r.Marked? <==> id in old(rows) && !Terminal(old(rows)[id].status)
      ensures r.Marked? ==> id in rows && r.row == rows[id] && r.row.status == Failed && r.row.reason == Some(reason)
      ensures r == StatusTerminal <==> id in old(rows) && old(rows)[id].status in {Submitted, Failed}
      ensures rows == if r.Marked? then old(rows)[id := old(rows)[id].(status := Failed, reason := Some(reason), updatedAt := now)] else old(rows)
    {
      FailedEffect(View(), id, reason, now);
      if id !in rows { return NullRow; }
      if Terminal(rows[id].status) { return StatusTerminal; }
      rows := rows[id := rows[id].(status := Failed, reason := Some(reason), updatedAt := now)];
      return Marked(rows[id]);
    }

    method Remove(id: Id, user: nat) returns (changes: nat)
      requires TableInv(View())
      modifies this
      ensures View() == Delete(old(View()), id, user).0 && TableInv(View()) && hooks == old(hooks)
      ensures changes == 1 <==> id in old(rows) && old(rows)[id].user == user && !(old(rows)[id].status in {Awaiting, Submitted})
      ensures changes <= 1
      ensures rows.Keys == (if changes == 1 then old(rows).Keys - {id} else old(rows).Keys) && forall o :: o in rows ==> rows[o] == old(rows)[o]
    {
      DeleteEffect(View(), id, user);
      if id !in rows || rows[id].user != user || rows[id].status == Awaiting || rows[id].status == Submitted { return 0; }
      rows := map o | o in rows && o != id :: rows[o];
      return 1;
    }

    /** What an uninterrupted call leaves of a row: the state and reason that the answers decide. */
    function Verdict(copy: Row, tx: D.TxAnswer, answer: D.SubmitAnswer, id: Id, now: int, limits: D.Limits): (Status, Option<Reason>)
      reads this
    {
      match tx
      case TxError => (Awaiting, None)
      case TxUnknown => if now - copy.updatedAt > limits.timeout then (Failed, Some(CollateralNotFound)) else (Awaiting, None)
      case TxSeen(confs) =>
        if confs < limits.requiredConfs then (Awaiting, None) else Outcome(copy.frozen.proposalHash, answer, id)
    }

    function Outcome(known: Hash, answer: D.SubmitAnswer, id: Id): (Status, Option<Reason>)
      reads this
    {
      match answer
      case Transient => (Awaiting, None)
      case BadShape => (Awaiting, None)
      case RejectedForGood => (Failed, Some(SubmitRejected))
      case AlreadyExists => if TakenGov(View(), known, id) then (Failed, Some(DuplicateHash)) else (Submitted, None)
      case Accepted(hash) => if TakenGov(View(), hash, id) then (Failed, Some(DuplicateHash)) else (Submitted, None)
    }

    /** The hash that the object is known by: the one returned, or, if it exists already, the row's own. */
    function HashOf(answer: D.SubmitAnswer, row: Row): Hash { if answer.Accepted? then answer.hash else row.frozen.proposalHash }

    /** One call on an awaiting row that nobody else touches meanwhile. */
    method Advance(id: Id, tx: D.TxAnswer, answer: D.SubmitAnswer, now: int, limits: D.Limits)
      requires TableInv(View()) && id in rows && rows[id].status == Awaiting
      modifies this
      ensures TableInv(View()) && rows.Keys == old(rows).Keys && forall o :: o in rows && o != id ==> rows[o] == old(rows)[o]
      ensures Forward(old(rows)[id], rows[id])
      ensures (rows[id].status, rows[id].reason) == old(Verdict(rows[id], tx, answer, id, now, limits))
      ensures hooks == old(hooks) + if Terminal(rows[id].status) then [(id, rows[id].status)] else []
      ensures rows[id].reason == Some(CollateralNotFound) <==> tx.TxUnknown? && now - old(rows)[id].updatedAt > limits.timeout
      ensures rows[id].reason == Some(SubmitRejected) <==> tx.TxSeen? && limits.requiredConfs <= tx.confs && answer.RejectedForGood?
      ensures rows[id].reason == Some(DuplicateHash) <==>
                && tx.TxSeen? && limits.requiredConfs <= tx.confs && (answer.Accepted? || answer.AlreadyExists?)
                && exists o :: o in old(rows) && o != id && old(rows)[o].gov == Some(HashOf(answer, old(rows)[id]))
      ensures rows[id].status == Submitted <==>
                && tx.TxSeen? && limits.requiredConfs <= tx.confs && (answer.Accepted? || answer.AlreadyExists?)
                && !exists o :: o in old(rows) && o != id && old(rows)[o].gov == Some(HashOf(answer, old(rows)[id]))
      ensures rows[id].status == Submitted ==> rows[id].gov == Some(HashOf(answer, old(rows)[id]))
      ensures rows[id].status == Failed <==> rows[id].reason.Some?
      ensures tx.TxSeen? ==> rows[id].confs == tx.confs
    {
      var copy := rows[id];
      if tx.TxSeen? {
        Confirm(id, copy, tx.confs, answer, now, limits);
      } else if tx.TxUnknown? && now - copy.updatedAt > limits.timeout {
        Fail(id, CollateralNotFound, now);
      } else {
        assert RowFits(rows[id]);
      }
    }

    /** The confirmations are written down; enough of them, and the submission is sent. */
    method Confirm(id: Id, copy: Row, confs: nat, answer: D.SubmitAnswer, now: int, limits: D.Limits)
      requires TableInv(View()) && id in rows && rows[id].status == Awaiting && copy == rows[id]
      modifies this
      ensures TableInv(View()) && rows.Keys == old(rows).Keys && forall o :: o in rows && o != id ==> rows[o] == old(rows)[o]
      ensures Forward(old(rows)[id], rows[id])
      ensures (rows[id].status, rows[id].reason) ==
              if confs < limits.requiredConfs then (Awaiting, None) else old(Outcome(copy.frozen.proposalHash, answer, id))
      ensures rows[id].status == Submitted ==> rows[id].gov == Some(HashOf(answer, copy))
      ensures rows[id].confs == confs && RowFits(rows[id])
      ensures hooks == old(hooks) + if Terminal(rows[id].status) then [(id, rows[id].status)] else []
    {
      if confs != copy.confs { UpdateConfirmations(id, confs, now); }
      if confs < limits.requiredConfs {
        assert RowFits(rows[id]);
        return;
      }
      ConfsKeepTaken(old(View()), id, confs, now);
      Settle(id, copy.frozen.proposalHash, answer, now);
    }

    /** The node's answer to the submission, written down. */
    method Settle(id: Id, known: Hash, answer: D.SubmitAnswer, now: int)
      requires TableInv(View()) && id in rows && rows[id].status == Awaiting
      modifies this
      ensures TableInv(View()) && rows.Keys == old(rows).Keys && forall o :: o in rows && o != id ==> rows[o] == old(rows)[o]
      ensures Forward(old(rows)[id], rows[id])
      ensures (rows[id].status, rows[id].reason) == old(Outcome(known, answer, id))
      ensures rows[id].status == Submitted ==> rows[id].gov == Some(if answer.Accepted? then answer.hash else known)
      ensures rows[id].confs == old(rows)[id].confs && RowFits(rows[id])
      ensures hooks == old(hooks) + if Terminal(rows[id].status) then [(id, rows[id].status)] else []
    {
      match answer {
        case Transient => assert RowFits(rows[id]);
        case BadShape => assert RowFits(rows[id]);
        case RejectedForGood => Fail(id, SubmitRejected, now);
        case AlreadyExists => Promote(id, known, now);
        case Accepted(hash) => Promote(id, hash, now);
      }
    }

    method Fail(id: Id, reason: Reason, now: int)
      requires TableInv(View()) && id in rows && rows[id].status == Awaiting
      modifies this
      ensures View() == FailedWrite(old(View()), id, reason, now).0 && TableInv(View())
      ensures hooks == old(hooks) + [(id, Failed)]
    {
      var r := MarkFailed(id, reason, now);
      if r.Marked? { hooks := hooks + [(id, Failed)]; }
    }

    method Promote(id: Id, hash: Hash, now: int)
      requires TableInv(View()) && id in rows && rows[id].status == Awaiting
      modifies this
      ensures View() == if old(TakenGov(View(), hash, id)) then FailedWrite(old(View()), id, DuplicateHash, now).0
                        else SubmittedWrite(old(View()), id, hash, now).0
      ensures TableInv(View())
      ensures hooks == old(hooks) + [(id, if old(TakenGov(View(), hash, id)) then Failed else Submitted)]
    {
      var r := MarkSubmitted(id, hash, now);
      if r.Marked? { hooks := hooks + [(id, Submitted)]; }
      else if r == HashClash { Fail(id, DuplicateHash, now); }
    }
  }

  lemma ConfsKeepTaken(t: Table, id: Id, confs: nat, now: int)
    requires id in t.rows
    ensures forall h: Hash :: TakenGov(ConfsWrite(t, id, confs, now), h, id) == TakenGov(t, h, id)
  {
    forall h: Hash
      ensures TakenGov(ConfsWrite(t, id, confs, now), h, id) == TakenGov(t, h, id)
    {
      if TakenGov(t, h, id) {
        var o :| o in t.rows && o != id && t.rows[o].gov == Some(h);
        assert ConfsWrite(t, id, confs, now).rows[o].gov == Some(h);
      }
    }
  }
}
