/** A node that serves: every request of a stretch of time is answered, large log ranges may be
    refused, nothing is reorganised, and the pool's own logs are in order. What a job achieves
    is promised for such stretches. */
module PoolService {
  import opened Answers
  import opened PoolChain
  import opened PoolStore
  import opened PoolRows
  import opened PoolBranch

  /** Errors on which a smaller range is tried. */
  predicate MayShrink(code: Code) { code == RpcUnavailable || code == RpcRejected || code == LogsTooLarge }

  function History(chain: Chain, pool: Pool, h: Hash, n: int): seq<Row> { chain.LogsOf(h, pool.deploymentBlock, n) }

  /** Every row names the block that it is in. */
  ghost predicate Genuine(chain: Chain, pool: Pool, h: Hash, n: int) {
    forall b: int, i: nat :: pool.deploymentBlock <= b <= n && i < |chain.logs(chain.ancestor(h, b))| ==>
      var row := chain.logs(chain.ancestor(h, b))[i]; row.blockNumber == b && row.blockHash == chain.ancestor(h, b)
  }

  /** The whole history up to a block, as one chunk on top of nothing. */
  function Whole(chain: Chain, pool: Pool, h: Hash, n: BlockNumber): Chunk {
    Chunk(pool.deploymentBlock, n, Header(n, h), |Deposits(History(chain, pool, h, n))|, [], [])
  }

  /** The pool's events up to a block are in order: leaves and nullifiers in the field and not
      repeated, leaf indices counting up, no more withdrawals than deposits. */
  ghost predicate Sound(chain: Chain, pool: Pool, h: Hash, n: BlockNumber) {
    Genuine(chain, pool, h, n) && AllAdmissible(History(chain, pool, h, n), Whole(chain, pool, h, n))
  }

  /** Moment t is served. */
  ghost predicate ServedAt(chain: Chain, node: Node, pool: Pool, t: nat) {
    && !node.closed(t) && !node.expired(t) && node.stores(t)
    && node.head(t).Ok? && pool.deploymentBlock <= node.head(t).value.number
    && (forall n: BlockNumber :: chain.canon(t, n).Some? ==> node.block(t, n).Ok? && node.block(t, n).value.number == n)
    && (forall h: Header :: chain.canon(t, h.number) == Some(h.hash) ==>
          node.state(t, h).Ok? && node.state(t, h).value.nextIndex == |Deposits(History(chain, pool, h.hash, h.number))|)
    && (forall first: int, last: int :: 0 <= first <= last && chain.canon(t, last).Some? ==>
          node.events(t, first, last).Ok? || (first < last && MayShrink(node.events(t, first, last).code)))
    && (forall n: BlockNumber :: pool.deploymentBlock <= n && chain.canon(t, n).Some? ==> Sound(chain, pool, chain.canon(t, n).value, n))
  }

  /** No block shown in this stretch of time is replaced in it. */
  ghost predicate Steady(chain: Chain, from: nat, until: nat) {
    forall t: nat, u: nat, n: int :: from <= t <= u <= until && chain.canon(t, n).Some? ==> chain.canon(u, n) == chain.canon(t, n)
  }

  ghost predicate Serves(chain: Chain, node: Node, pool: Pool, from: nat, until: nat) {
    && Honest(chain, node) && Steady(chain, from, until)
    && forall t: nat :: from <= t <= until ==> ServedAt(chain, node, pool, t)
  }

  lemma Narrow(chain: Chain, node: Node, pool: Pool, from: nat, until: nat, from': nat, until': nat)
    requires Serves(chain, node, pool, from, until) && from <= from' && until' <= until
    ensures Serves(chain, node, pool, from', until')
  {
  }

  /** A block below a shown one is answered, and with its ancestor at that height. */
  lemma BlockIsAnswered(chain: Chain, node: Node, pool: Pool, from: nat, until: nat, top: BlockNumber, h: Hash, t: nat, n: BlockNumber)
    requires Serves(chain, node, pool, from, until) && Shown(chain, top, h, from) && from <= t <= until && n <= top
    ensures node.block(t, n) == Ok(Header(n, chain.ancestor(h, n))) && chain.canon(t, n) == Some(chain.ancestor(h, n))
  {
    assert chain.canon(t, top) == Some(h);
    assert ServedAt(chain, node, pool, t);
  }

  lemma {:induction false} RowsAreInRange(chain: Chain, pool: Pool, h: Hash, n: int, first: int, last: int, i: nat)
    requires Genuine(chain, pool, h, n) && pool.deploymentBlock <= first && last <= n && i < |chain.LogsOf(h, first, last)|
    ensures var row := chain.LogsOf(h, first, last)[i];
            first <= row.blockNumber <= last && row.blockHash == chain.ancestor(h, row.blockNumber)
    decreases last - first + 1
  {
    if first <= last {
      var before := chain.LogsOf(h, first, last - 1);
      if i < |before| { RowsAreInRange(chain, pool, h, n, first, last - 1, i); }
      else { assert chain.LogsOf(h, first, last)[i] == chain.logs(chain.ancestor(h, last))[i - |before|]; }
    }
  }

  /** A part of an admissible history is admissible on top of what comes before it. */
  lemma PartIsAdmissible(before: seq<Row>, part: seq<Row>, after: seq<Row>, whole: Chunk, c: Chunk, k: nat)
    requires AllAdmissible(before + part + after, whole) && k < |part|
    requires whole.leaves == [] && whole.nullifiers == []
    requires c.leaves == Deposits(before) && c.nullifiers == Withdrawals(before) && c.nextIndex == whole.nextIndex
    requires Placed(part[k], c)
    ensures Admissible(part, k, c)
  {
    var rows, j := before + part + after, |before| + k;
    assert Admissible(rows, j, whole) && rows[j] == part[k];
    assert rows[..j] == before + part[..k];
    FoldConcat(before, part[..k]);
    if 0 < k { assert rows[j - 1] == part[k - 1]; }
  }

  /** Every chunk of a sound history passes the row check, on top of the index so far. */
  lemma ChunkIsAdmissible(chain: Chain, pool: Pool, h: Hash, n: BlockNumber, first: int, last: BlockNumber, c: Chunk)
    requires chain.IsTree() && Sound(chain, pool, h, n) && pool.deploymentBlock <= first <= last <= n
    requires c.first == first && c.last == last && c.boundary == Header(last, chain.ancestor(h, last))
    requires c.nextIndex == |Deposits(History(chain, pool, h, n))|
    requires c.leaves == Deposits(History(chain, pool, h, first - 1)) && c.nullifiers == Withdrawals(History(chain, pool, h, first - 1))
    ensures AllAdmissible(chain.LogsOf(h, first, last), c)
  {
    var before, part, after := History(chain, pool, h, first - 1), chain.LogsOf(h, first, last), chain.LogsOf(h, last + 1, n);
    chain.LogsOfSplit(h, pool.deploymentBlock, last, n);
    chain.LogsOfSplit(h, pool.deploymentBlock, first - 1, last);
    assert History(chain, pool, h, n) == before + part + after;
    forall k | 0 <= k < |part|
      ensures Admissible(part, k, c)
    {
      RowsAreInRange(chain, pool, h, n, first, last, k);
      PartIsAdmissible(before, part, after, Whole(chain, pool, h, n), c, k);
    }
  }

  /** Fewer blocks have no more deposits. */
  lemma FewerDeposits(chain: Chain, pool: Pool, h: Hash, m: int, n: int)
    requires pool.deploymentBlock - 1 <= m <= n
    ensures |Deposits(History(chain, pool, h, m))| <= |Deposits(History(chain, pool, h, n))|
  {
    chain.LogsOfSplit(h, pool.deploymentBlock, m, n);
    FoldConcat(History(chain, pool, h, m), chain.LogsOf(h, m + 1, n));
  }

  // ---------------------------------------------------------------- the same, seen through the requests

  /** The one history that a steady node shows: hashes, rows, and the pool's count and root. */
  datatype View = View(top: BlockNumber, hash: int -> Hash, rows: (int, int) -> seq<Row>, count: int -> nat, root: int -> FieldElement)

  /** Every request of moment t about blocks up to the top is answered from the view. */
  ghost predicate Shows(node: Node, v: View, t: nat) {
    && !node.closed(t) && !node.expired(t) && node.stores(t)
    && (forall n: BlockNumber :: n <= v.top ==> node.block(t, n) == Ok(Header(n, v.hash(n))))
    && (forall n: BlockNumber :: n <= v.top ==> node.state(t, Header(n, v.hash(n))) == Ok(PoolState(v.count(n), v.root(n))))
    && (forall first: int, last: int :: 0 <= first <= last <= v.top ==>
          node.events(t, first, last) == Ok(v.rows(first, last))
          || (first < last && node.events(t, first, last).Fail? && MayShrink(node.events(t, first, last).code)))
  }

  ghost predicate ShowsDuring(node: Node, v: View, from: nat, until: nat) { forall t: nat :: from <= t <= until ==> Shows(node, v, t) }

  function Expected(v: View, first: int, last: BlockNumber, target: int, deployment: int): Chunk {
    Chunk(first, last, Header(last, v.hash(last)), v.count(target), Deposits(v.rows(deployment, first - 1)), Withdrawals(v.rows(deployment, first - 1)))
  }

  ghost predicate SplitsAt(v: View, first: int, mid: int, last: int) { v.rows(first, last) == v.rows(first, mid) + v.rows(mid + 1, last) }

  ghost predicate CountsAt(v: View, first: int, n: int) { v.count(n) == |Deposits(v.rows(first, n))| }

  ghost predicate PassesCheck(v: View, deployment: int, first: int, last: BlockNumber, target: int) {
    AllAdmissible(v.rows(first, last), Expected(v, first, last, target, deployment))
  }

  /** The rows of consecutive ranges follow each other and pass the row check, and the pool
      counts their deposits. */
  ghost predicate Ordered(v: View, pool: Pool) {
    var d := pool.deploymentBlock;
    && v.rows(d, d - 1) == []
    && (forall mid: int, last: int :: d - 1 <= mid <= last <= v.top ==> SplitsAt(v, d, mid, last))
    && (forall n: int :: d <= n <= v.top ==> CountsAt(v, d, n))
    && (forall first: int, last: BlockNumber, target: int :: d <= first <= last <= target <= v.top ==> PassesCheck(v, d, first, last, target))
  }

  /** The index so far is that of the view. */
  predicate FollowsView(v: View, pool: Pool, c: Checkpoint) {
    && c.leaves == Deposits(v.rows(pool.deploymentBlock, c.scannedBlock)) && c.withdrawnNullifiers == Withdrawals(v.rows(pool.deploymentBlock, c.scannedBlock))
    && (pool.deploymentBlock <= c.scannedBlock ==> c.scannedHash == Some(v.hash(c.scannedBlock)))
    && c.targetBlock <= v.top && c.targetHash == v.hash(c.targetBlock)
  }

  /** The snapshot is that of the view, with the pool's own count and root. */
  predicate InView(v: View, pool: Pool, s: Snapshot) {
    && s.asOfBlockNumber <= v.top && s.asOfBlockHash == v.hash(s.asOfBlockNumber)
    && s.leafCount == v.count(s.asOfBlockNumber) && s.root == v.root(s.asOfBlockNumber)
    && s.leaves == Deposits(v.rows(pool.deploymentBlock, s.asOfBlockNumber))
    && s.withdrawnNullifiers == Withdrawals(v.rows(pool.deploymentBlock, s.asOfBlockNumber))
  }

  /** Every file operation of this stretch of time succeeds. */
  ghost predicate Stores(node: Node, from: nat, until: nat) { forall t: nat :: from <= t <= until ==> node.stores(t) }

  lemma RowsFollow(v: View, pool: Pool, c: Checkpoint, c': Checkpoint, last: int)
    requires Ordered(v, pool) && FollowsView(v, pool, c) && pool.deploymentBlock - 1 <= c.scannedBlock <= last <= c.targetBlock
    requires c'.leaves == c.leaves + Deposits(v.rows(c.scannedBlock + 1, last))
    requires c'.withdrawnNullifiers == c.withdrawnNullifiers + Withdrawals(v.rows(c.scannedBlock + 1, last))
    requires c'.scannedBlock == last && c'.scannedHash == Some(v.hash(last)) && c'.targetBlock == c.targetBlock && c'.targetHash == c.targetHash
    ensures FollowsView(v, pool, c')
  {
    assert SplitsAt(v, pool.deploymentBlock, c.scannedBlock, last);
    FoldConcat(v.rows(pool.deploymentBlock, c.scannedBlock), v.rows(c.scannedBlock + 1, last));
  }

  lemma CountIsEnough(v: View, pool: Pool, c: Checkpoint)
    requires Ordered(v, pool) && FollowsView(v, pool, c) && pool.deploymentBlock - 1 <= c.scannedBlock <= c.targetBlock && pool.deploymentBlock <= c.targetBlock
    ensures |c.leaves| <= v.count(c.targetBlock) && (c.scannedBlock == c.targetBlock ==> |c.leaves| == v.count(c.targetBlock))
  {
    assert SplitsAt(v, pool.deploymentBlock, c.scannedBlock, c.targetBlock) && CountsAt(v, pool.deploymentBlock, c.targetBlock);
    FoldConcat(v.rows(pool.deploymentBlock, c.scannedBlock), v.rows(c.scannedBlock + 1, c.targetBlock));
  }

  /** The history below a shown block, as a view. */
  function ViewBelow(chain: Chain, pool: Pool, top: BlockNumber, h: Hash): View {
    View(top, (n: int) => chain.ancestor(h, n), (a: int, b: int) => chain.LogsOf(h, a, b),
         (n: int) => |Deposits(History(chain, pool, h, n))|, (n: int) => chain.root(chain.ancestor(h, n)))
  }

  lemma ServedShows(chain: Chain, node: Node, pool: Pool, from: nat, until: nat, top: BlockNumber, h: Hash, t: nat)
    requires Serves(chain, node, pool, from, until) && Shown(chain, top, h, from) && from <= t <= until && 0 <= pool.deploymentBlock
    ensures Shows(node, ViewBelow(chain, pool, top, h), t)
  {
    var v := ViewBelow(chain, pool, top, h);
    assert ServedAt(chain, node, pool, t);
    forall n: BlockNumber | n <= top
      ensures node.block(t, n) == Ok(Header(n, v.hash(n))) && node.state(t, Header(n, v.hash(n))) == Ok(PoolState(v.count(n), v.root(n)))
    {
      BlockIsAnswered(chain, node, pool, from, until, top, h, t, n);
      chain.LogsOfAncestor(h, n, pool.deploymentBlock, n);
      assert chain.canon(t, Header(n, v.hash(n)).number) == Some(v.hash(n));
    }
    forall first: int, last: int | 0 <= first <= last <= top
      ensures node.events(t, first, last) == Ok(v.rows(first, last))
              || (first < last && node.events(t, first, last).Fail? && MayShrink(node.events(t, first, last).code))
    {
      BlockIsAnswered(chain, node, pool, from, until, top, h, t, last);
      chain.LogsOfAncestor(h, last, first, last);
    }
  }

  lemma {:induction false} HistorySplits(chain: Chain, pool: Pool, top: BlockNumber, h: Hash)
    ensures var v, d := ViewBelow(chain, pool, top, h), pool.deploymentBlock;
            forall mid: int, last: int :: d - 1 <= mid <= last <= top ==> SplitsAt(v, d, mid, last)
  {
    var v, d := ViewBelow(chain, pool, top, h), pool.deploymentBlock;
    forall mid: int, last: int | d - 1 <= mid <= last <= top
      ensures SplitsAt(v, d, mid, last)
    {
      chain.LogsOfSplit(h, d, mid, last);
    }
  }

  lemma ServedIsOrdered(chain: Chain, node: Node, pool: Pool, from: nat, until: nat, top: BlockNumber, h: Hash)
    requires Serves(chain, node, pool, from, until) && from <= until && Shown(chain, top, h, from)
    ensures Ordered(ViewBelow(chain, pool, top, h), pool)
  {
    var v, d := ViewBelow(chain, pool, top, h), pool.deploymentBlock;
    HistorySplits(chain, pool, top, h);
    forall first: int, last: BlockNumber, target: int | d <= first <= last <= target <= top
      ensures PassesCheck(v, d, first, last, target)
    {
      SoundBelow(chain, node, pool, from, until, top, h, target);
      PartOfSound(chain, pool, top, h, first, last, target);
    }
  }

  lemma SoundBelow(chain: Chain, node: Node, pool: Pool, from: nat, until: nat, top: BlockNumber, h: Hash, target: BlockNumber)
    requires Serves(chain, node, pool, from, until) && from <= until && Shown(chain, top, h, from) && pool.deploymentBlock <= target <= top
    ensures chain.IsTree() && Sound(chain, pool, chain.ancestor(h, target), target)
  {
    BlockIsAnswered(chain, node, pool, from, until, top, h, from, target);
    assert ServedAt(chain, node, pool, from);
  }

  lemma PartOfSound(chain: Chain, pool: Pool, top: BlockNumber, h: Hash, first: int, last: BlockNumber, target: BlockNumber)
    requires chain.IsTree() && Sound(chain, pool, chain.ancestor(h, target), target) && pool.deploymentBlock <= first <= last <= target <= top
    ensures var v := ViewBelow(chain, pool, top, h); AllAdmissible(v.rows(first, last), Expected(v, first, last, target, pool.deploymentBlock))
  {
    var g := chain.ancestor(h, target);
    chain.LogsOfAncestor(h, target, first, last);
    chain.LogsOfAncestor(h, target, pool.deploymentBlock, first - 1);
    chain.LogsOfAncestor(h, target, pool.deploymentBlock, target);
    assert chain.ancestor(g, last) == chain.ancestor(h, last);
    ChunkIsAdmissible(chain, pool, g, target, first, last, Expected(ViewBelow(chain, pool, top, h), first, last, target, pool.deploymentBlock));
  }

  lemma FoldIsInView(chain: Chain, pool: Pool, s: Snapshot, top: BlockNumber, h: Hash, t: nat)
    requires chain.IsTree() && Shown(chain, top, h, t) && Shown(chain, s.asOfBlockNumber, s.asOfBlockHash, t)
    requires 0 <= s.asOfBlockNumber <= top && IsFold(chain, pool, s) && s.leafCount == |s.leaves|
    ensures InView(ViewBelow(chain, pool, top, h), pool, s)
  {
    assert s.asOfBlockHash == chain.ancestor(h, s.asOfBlockNumber);
    chain.LogsOfAncestor(h, s.asOfBlockNumber, pool.deploymentBlock, s.asOfBlockNumber);
  }

  lemma AgreedFollowsView(chain: Chain, pool: Pool, c: Checkpoint, top: BlockNumber, h: Hash, t: nat)
    requires chain.IsTree() && Shown(chain, top, h, t) && Shown(chain, c.targetBlock, c.targetHash, t)
    requires c.scannedBlock <= c.targetBlock && 0 <= c.targetBlock <= top && Pending(chain, pool, c, t)
    ensures FollowsView(ViewBelow(chain, pool, top, h), pool, c)
  {
    assert c.targetHash == chain.ancestor(h, c.targetBlock);
    chain.LogsOfAncestor(h, c.targetBlock, pool.deploymentBlock, c.scannedBlock);
  }
}
