/** The saved forms of a pool: snapshots, checkpoints and the validators that every load
    and every save applies to them. */
module PoolStore {
  import opened Answers
  import opened PoolChain

  const MAX_SPAN := 5000

  datatype Snapshot = Snapshot(
    version: int, chainId: int, poolAddress: string,
    asOfBlockNumber: int, asOfBlockHash: Hash,
    leafCount: nat, root: nat,
    leaves: seq<nat>, withdrawnNullifiers: seq<nat>)

  datatype Checkpoint = Checkpoint(
    version: int, poolAddress: string,
    scannedBlock: int, scannedHash: Option<Hash>,
    targetBlock: int, targetHash: Hash,
    leaves: seq<nat>, withdrawnNullifiers: seq<nat>,
    blockSpan: Option<int>)

  ghost predicate Distinct(xs: seq<nat>) {
    forall i, j :: 0 <= i < j < |xs| ==> xs[i] != xs[j]
  }

  ghost predicate FieldWords(xs: seq<nat>) {
    forall i :: 0 <= i < |xs| ==> xs[i] < FIELD_SIZE
  }

  ghost predicate SafeInteger(n: int) {
    -MAX_SAFE_INTEGER <= n <= MAX_SAFE_INTEGER
  }

  ghost predicate ValidNullifiers(xs: seq<nat>, leafCount: int) {
    |xs| <= leafCount && Distinct(xs) && FieldWords(xs)
  }

  ghost predicate ValidSnapshot(s: Snapshot, pool: Pool) {
    && s.version == 1 && s.chainId == 1 && s.poolAddress == pool.address
    && SafeInteger(s.asOfBlockNumber) && pool.deploymentBlock <= s.asOfBlockNumber
    && |s.leaves| <= MAX_LEAVES && s.leafCount == |s.leaves|
    && s.root < FIELD_SIZE && FieldWords(s.leaves) && Distinct(s.leaves)
    && ValidNullifiers(s.withdrawnNullifiers, s.leafCount)
  }

  ghost predicate ValidCheckpoint(c: Checkpoint, pool: Pool) {
    && c.version == 2 && c.poolAddress == pool.address
    && SafeInteger(c.scannedBlock) && pool.deploymentBlock - 1 <= c.scannedBlock
    && SafeInteger(c.targetBlock) && c.scannedBlock <= c.targetBlock
    && |c.leaves| <= MAX_LEAVES
    && (pool.deploymentBlock <= c.scannedBlock ==> c.scannedHash.Some?)
    && (c.blockSpan.Some? ==> 1 <= c.blockSpan.value <= MAX_SPAN)
    && (c.scannedBlock == pool.deploymentBlock - 1 ==> c.leaves == [])
    && FieldWords(c.leaves) && Distinct(c.leaves)
    && ValidNullifiers(c.withdrawnNullifiers, |c.leaves|)
  }

  function Members(xs: seq<nat>): set<nat> {
    set x | x in xs
  }

  /** The set of the values has as many members as the sequence exactly if no value repeats:
      the validators' test by size is the test for distinct values. */
  lemma {:induction false} DistinctCount(xs: seq<nat>)
    ensures |Members(xs)| <= |xs|
    ensures |Members(xs)| == |xs| <==> Distinct(xs)
  {
    if xs != [] {
      var last := xs[|xs| - 1];
      var rest := xs[..|xs| - 1];
      DistinctCount(rest);
      assert xs == rest + [last];
      assert Members(xs) == Members(rest) + {last};
      if last in rest {
        var i :| 0 <= i < |rest| && rest[i] == last;
        assert xs[i] == xs[|xs| - 1];
      }
    }
  }
}
