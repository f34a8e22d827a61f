/** The row check of one scanned chunk: the whole chunk is validated before any of it
    reaches the checkpoint. */
module PoolRows {
  import opened Answers
  import opened PoolChain
  import opened PoolStore

  /** What a chunk is checked against: its block range, the header read for its last
      block, the leaf count the pool reports at the target, and what is already indexed. */
  datatype Chunk = Chunk(first: int, last: int, boundary: Header, nextIndex: nat, leaves: seq<nat>, nullifiers: seq<nat>)

  predicate Follows(previous: Row, row: Row) {
    || previous.blockNumber < row.blockNumber
    || (&& previous.blockNumber == row.blockNumber
        && previous.logIndex < row.logIndex
        && previous.txIndex <= row.txIndex
        && previous.blockHash == row.blockHash
        && (previous.txIndex == row.txIndex ==> previous.txHash == row.txHash))
  }

  predicate Placed(row: Row, c: Chunk) {
    && c.first <= row.blockNumber <= c.last
    && (row.blockNumber == c.boundary.number ==> row.blockHash == c.boundary.hash)
  }

  /** Row k extends the index consistently, given the rows before it. */
  ghost predicate Admissible(rows: seq<Row>, k: nat, c: Chunk)
    requires k < |rows|
  {
    var row, before := rows[k], rows[..k];
    var next := |c.leaves| + |Deposits(before)|;
    && Placed(row, c)
    && (0 < k ==> Follows(rows[k - 1], row))
    && match row.event
       case Deposit(leaf, leafIndex) =>
         leaf < FIELD_SIZE && leafIndex == next && next < c.nextIndex && next < MAX_LEAVES
         && leaf !in c.leaves && leaf !in Deposits(before)
       case Withdrawal(nullifierHash) =>
         nullifierHash < FIELD_SIZE && nullifierHash !in c.nullifiers && nullifierHash !in Withdrawals(before)
         && |c.nullifiers| + |Withdrawals(before)| < next
       case UnknownKind => false
  }

  ghost predicate AllAdmissible(rows: seq<Row>, c: Chunk) {
    forall k :: 0 <= k < |rows| ==> Admissible(rows, k, c)
  }

  lemma AdmissiblePrefix(rows: seq<Row>, c: Chunk, n: nat)
    requires n <= |rows| && AllAdmissible(rows, c)
    ensures AllAdmissible(rows[..n], c)
  {
    forall k | 0 <= k < n
      ensures Admissible(rows[..n], k, c)
    {
      assert Admissible(rows, k, c);
      assert rows[..n][..k] == rows[..k];
    }
  }

  /** Appending an admissible chunk keeps every condition that the loaders check. */
  lemma {:induction false} AppendKeepsValid(rows: seq<Row>, c: Chunk)
    requires AllAdmissible(rows, c)
    requires |c.leaves| <= MAX_LEAVES && Distinct(c.leaves) && FieldWords(c.leaves)
    requires ValidNullifiers(c.nullifiers, |c.leaves|)
    ensures |c.leaves + Deposits(rows)| <= MAX_LEAVES
    ensures Distinct(c.leaves + Deposits(rows)) && FieldWords(c.leaves + Deposits(rows))
    ensures ValidNullifiers(c.nullifiers + Withdrawals(rows), |c.leaves + Deposits(rows)|)
  {
    if rows == [] {
      assert c.leaves + Deposits(rows) == c.leaves;
      assert c.nullifiers + Withdrawals(rows) == c.nullifiers;
    } else {
      var n := |rows| - 1;
      AdmissiblePrefix(rows, c, n);
      AppendKeepsValid(rows[..n], c);
      assert Admissible(rows, n, c);
      if rows[n].event.Deposit? {
        assert c.leaves + Deposits(rows) == (c.leaves + Deposits(rows[..n])) + [rows[n].event.leaf];
      } else if rows[n].event.Withdrawal? {
        assert c.nullifiers + Withdrawals(rows) == (c.nullifiers + Withdrawals(rows[..n])) + [rows[n].event.nullifierHash];
      }
    }
  }

  /** What has been accepted of a chunk so far; the sets grow with the sequences so that a
      repeated leaf or nullifier is found without searching. */
  datatype Progress = Progress(next: nat, leaves: seq<nat>, nullifiers: seq<nat>, leafSet: set<nat>, withdrawnSet: set<nat>)

  ghost predicate Tracks(p: Progress, rows: seq<Row>, c: Chunk) {
    && p.leaves == Deposits(rows) && p.nullifiers == Withdrawals(rows)
    && p.next == |c.leaves| + |p.leaves|
    && p.leafSet == Members(c.leaves + p.leaves)
    && p.withdrawnSet == Members(c.nullifiers + p.nullifiers)
    && |p.withdrawnSet| == |c.nullifiers| + |p.nullifiers|
  }

  /** One row: refused exactly when it is not admissible, otherwise recorded. */
  method CheckRow(rows: seq<Row>, i: nat, c: Chunk, p: Progress) returns (r: Answer<Progress>)
    requires i < |rows| && Tracks(p, rows[..i], c)
    ensures r.Ok? <==> Admissible(rows, i, c)
    ensures r.Ok? ==> Tracks(r.value, rows[..i + 1], c)
    ensures r.Fail? ==> r.code == IndexGap || r.code == InvalidField
  {
    var row := rows[i];
    assert rows[..i + 1][..i] == rows[..i];
    if !Placed(row, c) || (0 < i && !Follows(rows[i - 1], row)) {
      return Fail(IndexGap);
    }
    match row.event
    case Deposit(leaf, leafIndex) =>
      if FIELD_SIZE <= leaf {
        return Fail(InvalidField);
      }
      if leafIndex != p.next || c.nextIndex <= p.next || MAX_LEAVES <= p.next || leaf in p.leafSet {
        return Fail(IndexGap);
      }
      r := Ok(p.(next := p.next + 1, leaves := p.leaves + [leaf], leafSet := p.leafSet + {leaf}));
      assert c.leaves + (p.leaves + [leaf]) == (c.leaves + p.leaves) + [leaf];
    case Withdrawal(nullifierHash) =>
      if FIELD_SIZE <= nullifierHash {
        return Fail(InvalidField);
      }
      if nullifierHash in p.withdrawnSet || p.next <= |p.withdrawnSet| {
        return Fail(IndexGap);
      }
      r := Ok(p.(nullifiers := p.nullifiers + [nullifierHash], withdrawnSet := p.withdrawnSet + {nullifierHash}));
      assert c.nullifiers + (p.nullifiers + [nullifierHash]) == (c.nullifiers + p.nullifiers) + [nullifierHash];
    case UnknownKind =>
      return Fail(IndexGap);
  }

  /** Checks a chunk row by row; accepts it exactly when every row is admissible and then
      returns its deposits and withdrawals together with the extended membership sets. */
  method CheckRows(rows: seq<Row>, c: Chunk, leafSet: set<nat>, withdrawnSet: set<nat>) returns (r: Answer<Progress>)
    requires leafSet == Members(c.leaves) && withdrawnSet == Members(c.nullifiers)
    requires Distinct(c.nullifiers)
    ensures r.Ok? <==> AllAdmissible(rows, c)
    ensures r.Ok? ==> Tracks(r.value, rows, c)
    ensures r.Fail? ==> r.code == IndexGap || r.code == InvalidField
  {
    DistinctCount(c.nullifiers);
    var p := Progress(|c.leaves|, [], [], leafSet, withdrawnSet);
    assert c.leaves + [] == c.leaves && c.nullifiers + [] == c.nullifiers;
    for i := 0 to |rows|
      invariant forall k :: 0 <= k < i ==> Admissible(rows, k, c)
      invariant Tracks(p, rows[..i], c)
    {
      p :- CheckRow(rows, i, c, p);
    }
    assert rows[..|rows|] == rows;
    return Ok(p);
  }

  /** One row before another: by block, then within one block by log index, with transactions
      in order and every row of a block or transaction naming the same one. */
  predicate InOrder(a: Row, b: Row) {
    || a.blockNumber < b.blockNumber
    || (&& a.blockNumber == b.blockNumber && a.blockHash == b.blockHash && a.logIndex < b.logIndex
        && (a.txIndex < b.txIndex || (a.txIndex == b.txIndex && a.txHash == b.txHash)))
  }

  /** Comparing neighbours checks the order of all the rows. */
  lemma {:induction false} OrderedExactly(rows: seq<Row>)
    ensures (forall k :: 0 < k < |rows| ==> Follows(rows[k - 1], rows[k])) <==> (forall i, j :: 0 <= i < j < |rows| ==> InOrder(rows[i], rows[j]))
  {
    if forall k :: 0 < k < |rows| ==> Follows(rows[k - 1], rows[k]) {
      forall i, j | 0 <= i < j < |rows|
        ensures InOrder(rows[i], rows[j])
      {
        OrderCarries(rows, i, j);
      }
    }
    if forall i, j :: 0 <= i < j < |rows| ==> InOrder(rows[i], rows[j]) {
      assert forall k :: 0 < k < |rows| ==> InOrder(rows[k - 1], rows[k]);
    }
  }

  lemma {:induction false} OrderCarries(rows: seq<Row>, i: nat, j: nat)
    requires i < j < |rows| && forall k :: 0 < k < |rows| ==> Follows(rows[k - 1], rows[k])
    ensures InOrder(rows[i], rows[j])
    decreases j
  {
    assert Follows(rows[j - 1], rows[j]);
    if i < j - 1 { OrderCarries(rows, i, j - 1); }
  }
}
