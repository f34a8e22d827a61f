/** How saved work relates to the canonical history: when a snapshot is the one-shot fold
    of its own block's history, and when a checkpoint may still become one. */
module PoolBranch {
  import opened Answers
  import opened PoolChain
  import opened PoolStore

  /** The snapshot is the fold of all pool events in the history of its own block, with the
      pool's root at that block. */
  ghost predicate IsFold(chain: Chain, pool: Pool, s: Snapshot) {
    var rows := chain.LogsOf(s.asOfBlockHash, pool.deploymentBlock, s.asOfBlockNumber);
    s.leaves == Deposits(rows) && s.withdrawnNullifiers == Withdrawals(rows) && s.root == chain.root(s.asOfBlockHash)
  }

  /** The checkpoint is the fold of its target's history up to its scanned block. */
  ghost predicate Agrees(chain: Chain, pool: Pool, c: Checkpoint) {
    var rows := chain.LogsOf(c.targetHash, pool.deploymentBlock, c.scannedBlock);
    && c.leaves == Deposits(rows) && c.withdrawnNullifiers == Withdrawals(rows)
    && (pool.deploymentBlock <= c.scannedBlock ==> c.scannedHash == Some(chain.ancestor(c.targetHash, c.scannedBlock)))
  }

  ghost predicate Shown(chain: Chain, n: int, h: Hash, t: nat) {
    chain.canon(t, n) == Some(h)
  }

  /** The snapshot's block was seen canonical at some moment from t on, before u. */
  ghost predicate SeenWithin(chain: Chain, s: Option<Snapshot>, t: nat, u: nat) {
    s.Some? ==> exists seen: nat :: t <= seen < u && Shown(chain, s.value.asOfBlockNumber, s.value.asOfBlockHash, seen)
  }

  /** Unfinished work at moment t: its target has been shown, and whenever the target is
      shown again the work done so far lies wholly on the target's branch. */
  ghost predicate Pending(chain: Chain, pool: Pool, c: Checkpoint, t: nat) {
    && (exists seen: nat :: seen <= t && Shown(chain, c.targetBlock, c.targetHash, seen))
    && (forall u: nat :: t <= u && Shown(chain, c.targetBlock, c.targetHash, u) ==> Agrees(chain, pool, c))
  }

  lemma PendingLater(chain: Chain, pool: Pool, c: Checkpoint, t: nat, u: nat)
    requires Pending(chain, pool, c, t) && t <= u
    ensures Pending(chain, pool, c, u)
  {
    var seen: nat :| seen <= t && Shown(chain, c.targetBlock, c.targetHash, seen);
    assert seen <= u;
  }

  /** On a chain that never abandons a block, unfinished work always agrees with the fold. */
  lemma FixedChainAgrees(chain: Chain, pool: Pool, c: Checkpoint, t: nat)
    requires chain.Fixed() && Pending(chain, pool, c, t)
    ensures Agrees(chain, pool, c)
  {
    var seen: nat :| seen <= t && Shown(chain, c.targetBlock, c.targetHash, seen);
    assert Shown(chain, c.targetBlock, c.targetHash, t);
  }

  /** A block between two sightings of its descendant belongs to the descendant's history. */
  lemma SameBranch(chain: Chain, n: int, h: Hash, before: nat, t: nat, after: nat, m: int)
    requires chain.IsTree() && chain.NeverReturns() && 0 <= m <= n
    requires before <= t <= after
    requires Shown(chain, n, h, before) && Shown(chain, n, h, after)
    ensures Shown(chain, m, chain.ancestor(h, m), t)
  {
    assert chain.canon(t, n) == Some(h);
  }

  /** Starting from a verified snapshot (or from nothing) towards a shown head is sound. */
  lemma FreshIsPending(chain: Chain, pool: Pool, c: Checkpoint, base: Option<Snapshot>, seen: nat, verified: nat, t: nat)
    requires chain.IsTree() && chain.NeverReturns() && seen <= verified <= t
    requires Shown(chain, c.targetBlock, c.targetHash, seen)
    requires base.None? ==> c.scannedBlock == pool.deploymentBlock - 1 && c.leaves == [] && c.withdrawnNullifiers == []
    requires base.Some? ==>
               var s := base.value;
               && IsFold(chain, pool, s) && pool.deploymentBlock <= s.asOfBlockNumber <= c.targetBlock
               && Shown(chain, s.asOfBlockNumber, s.asOfBlockHash, verified)
               && c.scannedBlock == s.asOfBlockNumber && c.scannedHash == Some(s.asOfBlockHash)
               && c.leaves == s.leaves && c.withdrawnNullifiers == s.withdrawnNullifiers
    ensures Pending(chain, pool, c, t)
  {
    forall u: nat | t <= u && Shown(chain, c.targetBlock, c.targetHash, u)
      ensures Agrees(chain, pool, c)
    {
      if base.Some? {
        var s := base.value;
        SameBranch(chain, c.targetBlock, c.targetHash, seen, verified, u, s.asOfBlockNumber);
        assert s.asOfBlockHash == chain.ancestor(c.targetHash, s.asOfBlockNumber);
        chain.LogsOfAncestor(c.targetHash, s.asOfBlockNumber, pool.deploymentBlock, s.asOfBlockNumber);
      }
    }
  }

  /** Were the target shown later, then it was shown throughout the reading of a chunk, so
      its boundary and its rows came from the target's own branch. */
  lemma ChunkAgrees(chain: Chain, node: Node, pool: Pool, c: Checkpoint, seen: nat, tBlock: nat, tRows: nat, u: nat,
                    last: int, rows: seq<Row>)
    requires Honest(chain, node) && Agrees(chain, pool, c) && seen <= tBlock <= tRows <= u
    requires Shown(chain, c.targetBlock, c.targetHash, seen) && Shown(chain, c.targetBlock, c.targetHash, u)
    requires pool.deploymentBlock - 1 <= c.scannedBlock < last <= c.targetBlock
    requires node.block(tBlock, last).Ok? && node.block(tBlock, last).value.number == last
    requires node.events(tRows, c.scannedBlock + 1, last) == Ok(rows)
    ensures Agrees(chain, pool, c.(leaves := c.leaves + Deposits(rows), withdrawnNullifiers := c.withdrawnNullifiers + Withdrawals(rows),
                                   scannedBlock := last, scannedHash := Some(node.block(tBlock, last).value.hash)))
  {
    var d, h := pool.deploymentBlock, c.targetHash;
    SameBranch(chain, c.targetBlock, h, seen, tBlock, u, last);
    SameBranch(chain, c.targetBlock, h, seen, tRows, u, last);
    chain.LogsOfAncestor(h, last, c.scannedBlock + 1, last);
    assert rows == chain.LogsOf(h, c.scannedBlock + 1, last);
    chain.LogsOfSplit(h, d, c.scannedBlock, last);
    FoldConcat(chain.LogsOf(h, d, c.scannedBlock), rows);
  }

  /** Committing a chunk keeps the work pending. */
  lemma ChunkKeepsPending(chain: Chain, node: Node, pool: Pool, c: Checkpoint, c': Checkpoint,
                          seen: nat, t: nat, tBlock: nat, tRows: nat, t': nat, last: int, rows: seq<Row>)
    requires Honest(chain, node) && Pending(chain, pool, c, t)
    requires seen <= t <= tBlock <= tRows <= t' && Shown(chain, c.targetBlock, c.targetHash, seen)
    requires pool.deploymentBlock - 1 <= c.scannedBlock < last <= c.targetBlock
    requires node.block(tBlock, last).Ok? && node.block(tBlock, last).value.number == last
    requires node.events(tRows, c.scannedBlock + 1, last) == Ok(rows)
    requires c' == c.(leaves := c.leaves + Deposits(rows),
                      withdrawnNullifiers := c.withdrawnNullifiers + Withdrawals(rows),
                      scannedBlock := last, scannedHash := Some(node.block(tBlock, last).value.hash),
                      blockSpan := c'.blockSpan)
    ensures Pending(chain, pool, c', t')
  {
    assert Shown(chain, c'.targetBlock, c'.targetHash, seen);
    forall u: nat | t' <= u && Shown(chain, c'.targetBlock, c'.targetHash, u)
      ensures Agrees(chain, pool, c')
    {
      ChunkAgrees(chain, node, pool, c, seen, tBlock, tRows, u, last, rows);
    }
  }

  /** The fence around a chunk: rows read between two sightings of its last block are that
      block's own history, whatever has happened to the target meanwhile. */
  lemma FencedChunkIsOneBranch(chain: Chain, node: Node, tBlock: nat, tRows: nat, tFence: nat, first: int, boundary: Header, rows: seq<Row>)
    requires Honest(chain, node) && tBlock <= tRows <= tFence && 0 <= boundary.number
    requires node.block(tBlock, boundary.number) == Ok(boundary) && node.block(tFence, boundary.number) == Ok(boundary)
    requires node.events(tRows, first, boundary.number) == Ok(rows)
    ensures rows == chain.LogsOf(boundary.hash, first, boundary.number)
  {
    assert Shown(chain, boundary.number, boundary.hash, tBlock) && Shown(chain, boundary.number, boundary.hash, tFence);
    SameBranch(chain, boundary.number, boundary.hash, tBlock, tRows, tFence, boundary.number);
    assert chain.canon(tRows, boundary.number) == Some(boundary.hash);
  }
}
