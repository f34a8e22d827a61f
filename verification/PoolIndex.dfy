/** The pool indexer: one class per indexed pool, holding what lives in memory and what
    lives in its two files. A job is a sequence of requests; each request and each file
    operation takes one tick of the clock, and the node answers by tick. */
module PoolIndex {
  import opened Answers
  import opened PoolChain
  import opened PoolStore
  import opened PoolRows
  import opened PoolBranch
  import opened PoolService

  const REFRESH_MS := 60000
  const RETRY_MS := 30000
  const CONTINUE_MS := 1000
  const SHRINKABLE: set<Code> := {RpcUnavailable, RpcRejected, LogsTooLarge}

  function Min(a: int, b: int): int { if a < b then a else b }

  /** What the chunk loop carries from chunk to chunk besides the checkpoint. */
  datatype Scan = Scan(span: int, sparse: nat, leafSet: set<nat>, withdrawnSet: set<nat>)

  /** A chunk as read: its last block, the header of that block and the rows. */
  datatype Fetched = Fetched(last: int, boundary: Header, rows: seq<Row>, span: int, sparse: nat)

  function Pow2(n: nat): nat { if n == 0 then 1 else 2 * Pow2(n - 1) }

  class Index {
    const pool: Pool
    const chunkBlocks: int
    const maxChunks: nat

    var snapshot: Option<Snapshot>
    var candidate: Option<Snapshot>
    var checkpoint: Option<Checkpoint>
    var blockSpan: Option<int>
    var error: bool
    var retryAt: int

    var savedSnapshot: Option<Snapshot>
    var savedCheckpoint: Option<Checkpoint>
    var clock: nat

    constructor (pool: Pool, chunkBlocks: int, maxChunks: nat)
      requires 1 <= chunkBlocks <= MAX_SPAN && 1 <= maxChunks <= 16
      ensures Valid() && this.pool == pool && this.chunkBlocks == chunkBlocks && this.maxChunks == maxChunks
      ensures snapshot == candidate == savedSnapshot == None && checkpoint == savedCheckpoint == None
    {
      this.pool, this.chunkBlocks, this.maxChunks := pool, chunkBlocks, maxChunks;
      snapshot, candidate, checkpoint, blockSpan := None, None, None, None;
      savedSnapshot, savedCheckpoint := None, None;
      error, retryAt, clock := false, 0, 0;
    }

    ghost predicate GoodSnapshot(s: Option<Snapshot>) { s.Some? ==> ValidSnapshot(s.value, pool) }

    ghost predicate GoodCheckpoint(c: Option<Checkpoint>) {
      c.Some? ==> ValidCheckpoint(c.value, pool) && pool.deploymentBlock <= c.value.targetBlock
    }

    /** Everything in memory and on disk passes the loader's validators. */
    ghost predicate Valid()
      reads this
    {
      && 1 <= chunkBlocks <= MAX_SPAN && 1 <= maxChunks <= 16
      && (blockSpan.Some? ==> 1 <= blockSpan.value <= MAX_SPAN)
      && GoodSnapshot(snapshot) && GoodSnapshot(candidate) && GoodSnapshot(savedSnapshot)
      && GoodCheckpoint(checkpoint) && GoodCheckpoint(savedCheckpoint)
    }

    ghost predicate FoldOf(chain: Chain, s: Option<Snapshot>) { s.Some? ==> IsFold(chain, pool, s.value) }

    ghost predicate PendingAt(chain: Chain, c: Option<Checkpoint>, t: nat) { c.Some? ==> Pending(chain, pool, c.value, t) }

    ghost predicate FaithfulAt(chain: Chain, t: nat)
      reads this
    {
      && FoldOf(chain, snapshot) && FoldOf(chain, candidate) && FoldOf(chain, savedSnapshot)
      && PendingAt(chain, checkpoint, t) && PendingAt(chain, savedCheckpoint, t)
    }

    /** Every snapshot, served or saved, is the fold of one branch, and every checkpoint is
        either on its target's branch or will be found out when it is resumed. */
    ghost predicate Faithful(chain: Chain)
      reads this
    {
      FaithfulAt(chain, clock)
    }

    lemma Later(chain: Chain, t: nat, u: nat)
      requires FaithfulAt(chain, t) && t <= u
      ensures FaithfulAt(chain, u)
    {
      if checkpoint.Some? { PendingLater(chain, pool, checkpoint.value, t, u); }
      if savedCheckpoint.Some? { PendingLater(chain, pool, savedCheckpoint.value, t, u); }
    }

    // -------------------------------------------------------------- requests

    /** The answer to a request at moment t: nothing is asked of the node once the index is
        closed or the budget is used up. */
    function Gated<T>(node: Node, t: nat, answer: Answer<T>): Answer<T> {
      if node.closed(t) then Fail(IndexClosed) else if node.expired(t) then Fail(BudgetExhausted) else answer
    }

    /** A block is refused if the node answers with another one. */
    function Numbered(answer: Answer<Header>, n: int): Answer<Header> {
      if answer.Ok? && answer.value.number != n then Fail(Other) else answer
    }

    /** Runs before every request: a closed index or an exhausted budget stops the job. */
    method BeforeRequest(node: Node) returns (r: Answer<Done>)
      ensures r == Gated(node, clock, Ok(Done.Done))
    {
      if node.closed(clock) {
        return Fail(IndexClosed);
      }
      if node.expired(clock) {
        return Fail(BudgetExhausted);
      }
      return Ok(Done.Done);
    }

    method AskHead(node: Node) returns (r: Answer<Header>)
      modifies this`clock
      ensures clock == old(clock) + 1
      ensures r == Gated(node, old(clock), node.head(old(clock)))
      ensures r.Ok? <==> !node.closed(old(clock)) && !node.expired(old(clock)) && node.head(old(clock)).Ok?
    {
      var ready := BeforeRequest(node);
      clock := clock + 1;
      r := if ready.Fail? then Fail(ready.code) else node.head(clock - 1);
    }

    method AskBlock(node: Node, n: int) returns (r: Answer<Header>)
      modifies this`clock
      ensures clock == old(clock) + 1
      ensures r.Ok? ==> node.block(old(clock), n) == r && r.value.number == n
      ensures r == Gated(node, old(clock), Numbered(node.block(old(clock), n), n))
      ensures r.Ok? <==> !node.closed(old(clock)) && !node.expired(old(clock)) && HashAt(node, old(clock), n).Some?
    {
      var ready := BeforeRequest(node);
      clock := clock + 1;
      r := if ready.Fail? then Fail(ready.code) else node.block(clock - 1, n);
      if r.Ok? && r.value.number != n {
        r := Fail(Other);
      }
    }

    /** The block must still be canonical. */
    method AssertBlock(node: Node, header: Header) returns (r: Answer<Done>)
      modifies this`clock
      ensures clock == old(clock) + 1
      ensures r.Ok? <==> !node.closed(old(clock)) && !node.expired(old(clock)) && node.block(old(clock), header.number) == Ok(header)
    {
      var now :- AskBlock(node, header.number);
      if now.hash != header.hash {
        return Fail(Reorg);
      }
      return Ok(Done.Done);
    }

    method AskState(node: Node, header: Header) returns (r: Answer<PoolState>)
      modifies this`clock
      ensures clock == old(clock) + 1
      ensures r == Gated(node, old(clock), node.state(old(clock), header))
      ensures r.Ok? <==> !node.closed(old(clock)) && !node.expired(old(clock)) && node.state(old(clock), header).Ok?
    {
      var ready := BeforeRequest(node);
      clock := clock + 1;
      r := if ready.Fail? then Fail(ready.code) else node.state(clock - 1, header);
    }

    method AskEvents(node: Node, first: int, last: int) returns (r: Answer<seq<Row>>)
      modifies this`clock
      ensures clock == old(clock) + 1
      ensures r == Gated(node, old(clock), node.events(old(clock), first, last))
      ensures r.Ok? <==> !node.closed(old(clock)) && !node.expired(old(clock)) && node.events(old(clock), first, last).Ok?
    {
      var ready := BeforeRequest(node);
      clock := clock + 1;
      r := if ready.Fail? then Fail(ready.code) else node.events(clock - 1, first, last);
    }

    // -------------------------------------------------------------- files

    /** Replaces the checkpoint file atomically; the validator that guards the file never
        refuses what the indexer saves, so only the disk can fail. */
    method SaveCheckpoint(node: Node, c: Checkpoint) returns (r: Answer<Done>)
      requires ValidCheckpoint(c, pool)
      modifies this`clock, this`savedCheckpoint
      ensures clock == old(clock) + 1
      ensures r == if node.stores(old(clock)) then Ok(Done.Done) else Fail(Storage)
      ensures savedCheckpoint == if r.Ok? then Some(c) else old(savedCheckpoint)
    {
      clock := clock + 1;
      if !node.stores(clock - 1) {
        return Fail(Storage);
      }
      savedCheckpoint := Some(c);
      return Ok(Done.Done);
    }

    method SaveSnapshot(node: Node, s: Snapshot) returns (r: Answer<Done>)
      requires ValidSnapshot(s, pool)
      modifies this`clock, this`savedSnapshot
      ensures clock == old(clock) + 1
      ensures r == if node.stores(old(clock)) then Ok(Done.Done) else Fail(Storage)
      ensures savedSnapshot == if r.Ok? then Some(s) else old(savedSnapshot)
    {
      clock := clock + 1;
      if !node.stores(clock - 1) {
        return Fail(Storage);
      }
      savedSnapshot := Some(s);
      return Ok(Done.Done);
    }

    method RemoveCheckpoint(node: Node) returns (r: Answer<Done>)
      modifies this`clock, this`savedCheckpoint
      ensures clock == old(clock) + 1
      ensures r == if node.stores(old(clock)) then Ok(Done.Done) else Fail(Storage)
      ensures savedCheckpoint == if r.Ok? then None else old(savedCheckpoint)
    {
      clock := clock + 1;
      if !node.stores(clock - 1) {
        return Fail(Storage);
      }
      savedCheckpoint := None;
      return Ok(Done.Done);
    }

    method RemoveSnapshot(node: Node) returns (r: Answer<Done>)
      modifies this`clock, this`savedSnapshot
      ensures clock == old(clock) + 1
      ensures r == if node.stores(old(clock)) then Ok(Done.Done) else Fail(Storage)
      ensures savedSnapshot == if r.Ok? then None else old(savedSnapshot)
    {
      clock := clock + 1;
      if !node.stores(clock - 1) {
        return Fail(Storage);
      }
      savedSnapshot := None;
      return Ok(Done.Done);
    }

    /** After an abandoned block nothing is kept. The snapshot file goes first; a disk fault
        leaves files behind, and these are checked again before they are used. */
    method Reset(node: Node) returns (r: Answer<Done>)
      modifies this
      ensures snapshot == candidate == None && checkpoint == None && blockSpan == old(blockSpan)
      ensures error == old(error) && retryAt == old(retryAt)
      ensures savedSnapshot == None || savedSnapshot == old(savedSnapshot)
      ensures savedCheckpoint == None || savedCheckpoint == old(savedCheckpoint)
      ensures r.Ok? ==> savedSnapshot == None && savedCheckpoint == None
      ensures old(clock) <= clock <= old(clock) + 2
    {
      snapshot, candidate, checkpoint := None, None, None;
      var _ :- RemoveSnapshot(node);
      var _ :- RemoveCheckpoint(node);
      return Ok(Done.Done);
    }

    /** The process dies: memory is lost and the files are read back. An unreadable file
        counts as absent. */
    method Restart(snapshotReadable: bool, checkpointReadable: bool, ghost chain: Chain)
      requires Valid()
      modifies this
      ensures Valid() && clock == old(clock)
      ensures snapshot == None && candidate == (if snapshotReadable then old(savedSnapshot) else None)
      ensures checkpoint == if checkpointReadable then old(savedCheckpoint) else None
      ensures savedSnapshot == old(savedSnapshot) && savedCheckpoint == old(savedCheckpoint)
      ensures old(Faithful(chain)) ==> Faithful(chain)
    {
      snapshot, blockSpan, error, retryAt := None, None, false, 0;
      candidate := if snapshotReadable then savedSnapshot else None;
      checkpoint := if checkpointReadable then savedCheckpoint else None;
    }

    // -------------------------------------------------------------- one job

    predicate Open(node: Node, t: nat) { !node.closed(t) && !node.expired(t) }

    /** From moment t on the two requests that check a snapshot find its block, leaf count and root. */
    predicate SnapshotStands(node: Node, s: Snapshot, head: Header, t: nat) {
      && s.asOfBlockNumber <= head.number && Open(node, t) && Open(node, t + 1)
      && HashAt(node, t, s.asOfBlockNumber) == Some(s.asOfBlockHash)
      && var observed := node.state(t + 1, node.block(t, s.asOfBlockNumber).value);
         observed.Ok? && observed.value.nextIndex == s.leafCount && observed.value.root == s.root
    }

    /** From moment t on the requests that check unfinished work find its target and its scanned block. */
    predicate CheckpointStands(node: Node, c: Checkpoint, head: Header, t: nat) {
      && c.targetBlock <= head.number && Open(node, t) && HashAt(node, t, c.targetBlock) == Some(c.targetHash)
      && (pool.deploymentBlock <= c.scannedBlock ==>
            Open(node, t + 1) && c.scannedHash.Some? && HashAt(node, t + 1, c.scannedBlock) == c.scannedHash)
    }

    /** The snapshot that a job checks first: the one served, otherwise the one read at the start. */
    function Saved(): Option<Snapshot>
      reads this
    {
      if snapshot.Some? then snapshot else candidate
    }

    /** Unfinished work counts unless its target is older than the checked snapshot. */
    function Unfinished(base: Option<Snapshot>): Option<Checkpoint>
      reads this
    {
      if checkpoint.Some? && base.Some? && checkpoint.value.targetBlock < base.value.asOfBlockNumber then None else checkpoint
    }

    /** A snapshot may be extended or served only after its block is seen canonical. */
    method VerifySaved(node: Node, s: Snapshot, head: Header) returns (r: Answer<Done>, ghost verified: nat)
      modifies this`clock
      ensures old(clock) <= clock <= old(clock) + 2
      ensures r.Ok? <==> SnapshotStands(node, s, head, old(clock))
      ensures r.Ok? ==> clock == old(clock) + 2
      ensures verified == old(clock)
    {
      verified := clock;
      if head.number < s.asOfBlockNumber {
        return Fail(Reorg), verified;
      }
      var header := AskBlock(node, s.asOfBlockNumber);
      if header.Fail? {
        return Fail(header.code), verified;
      }
      if header.value.hash != s.asOfBlockHash {
        return Fail(Reorg), verified;
      }
      var observed := AskState(node, header.value);
      if observed.Fail? {
        return Fail(observed.code), verified;
      }
      if observed.value.nextIndex != s.leafCount || observed.value.root != s.root {
        return Fail(Reorg), verified;
      }
      return Ok(Done.Done), verified;
    }

    function HashAt(node: Node, t: nat, n: int): Option<Hash> {
      if node.block(t, n).Ok? && node.block(t, n).value.number == n then Some(node.block(t, n).value.hash) else None
    }

    /** The saved checkpoint resumes only while both its target and its scanned block are canonical. */
    method VerifyCheckpoint(node: Node, c: Checkpoint, head: Header) returns (r: Answer<Done>)
      modifies this`clock
      ensures old(clock) <= clock <= old(clock) + 2
      ensures r.Ok? <==> CheckpointStands(node, c, head, old(clock))
    {
      if head.number < c.targetBlock {
        return Fail(Reorg);
      }
      var target :- AskBlock(node, c.targetBlock);
      if target.hash != c.targetHash {
        return Fail(Reorg);
      }
      if pool.deploymentBlock <= c.scannedBlock {
        var scanned :- AskBlock(node, c.scannedBlock);
        if Some(scanned.hash) != c.scannedHash {
          return Fail(Reorg);
        }
      }
      return Ok(Done.Done);
    }

    /** New work towards the head, on top of the verified snapshot if there is one. */
    function FreshCheckpoint(base: Option<Snapshot>, head: Header): (c: Checkpoint)
    {
      if base.Some? then
        Checkpoint(2, pool.address, base.value.asOfBlockNumber, Some(base.value.asOfBlockHash), head.number, head.hash,
                   base.value.leaves, base.value.withdrawnNullifiers, None)
      else
        Checkpoint(2, pool.address, pool.deploymentBlock - 1, None, head.number, head.hash, [], [], None)
    }

    /** Decides what to work on. Ok(false) means that the snapshot is already at the head.
        Only a node that closes, fails or contradicts what is saved makes it fail. */
    method Prepare(node: Node, ghost chain: Chain) returns (r: Answer<bool>)
      requires Valid()
      modifies this
      ensures Valid() && old(clock) <= clock <= old(clock) + 5 && (r.Ok? ==> old(clock) < clock)
      ensures r == Ok(true) ==> checkpoint.Some?
      ensures r == Ok(false) ==> snapshot.Some? && !error && retryAt == node.now(clock) + 60_000
      ensures r != Ok(false) ==> error == old(error) && retryAt == old(retryAt)
      ensures r.Ok? <==>
                && Open(node, old(clock)) && node.head(old(clock)).Ok?
                && var head := node.head(old(clock)).value;
                && pool.deploymentBlock <= head.number
                && (old(Saved()).Some? ==> SnapshotStands(node, old(Saved()).value, head, old(clock) + 1))
                && (old(Unfinished(Saved())).Some? ==>
                      CheckpointStands(node, old(Unfinished(Saved())).value, head, old(clock) + if old(Saved()).Some? then 3 else 1))
      ensures r.Ok? ==> snapshot == old(Saved()) && (candidate == old(candidate) || snapshot.Some?)
                        && Chosen(r.value, old(checkpoint), old(Unfinished(Saved())), node.head(old(clock)).value)
      ensures Honest(chain, node) && old(Faithful(chain)) ==> Faithful(chain)
      ensures savedSnapshot == old(savedSnapshot) && savedCheckpoint == old(savedCheckpoint) && blockSpan == old(blockSpan)
      ensures snapshot == old(snapshot) || (snapshot == old(candidate) && (Honest(chain, node) ==> SeenWithin(chain, snapshot, old(clock), clock)))
    {
      ghost var began, base, unfinished := clock, Saved(), Unfinished(Saved());
      var head := AskHead(node);
      KeepFaithful(node, chain, began);
      if head.Fail? {
        return Fail(head.code);
      }
      if head.value.number < pool.deploymentBlock {
        return Fail(NotDeployed);
      }
      r := Select(node, head.value, base, unfinished, began, chain);
    }

    /** First the snapshot is checked, then the work is chosen. */
    method Select(node: Node, head: Header, ghost base: Option<Snapshot>, ghost unfinished: Option<Checkpoint>, ghost began: nat, ghost chain: Chain)
        returns (r: Answer<bool>)
      requires Valid() && began < clock && pool.deploymentBlock <= head.number && node.head(began) == Ok(head)
      requires base == Saved() && unfinished == Unfinished(base)
      modifies this`clock, this`snapshot, this`candidate, this`checkpoint, this`error, this`retryAt
      ensures Valid() && old(clock) <= clock <= old(clock) + 4
      ensures r == Ok(true) ==> checkpoint.Some?
      ensures r == Ok(false) ==> snapshot.Some? && !error && retryAt == node.now(clock) + 60_000
      ensures r != Ok(false) ==> error == old(error) && retryAt == old(retryAt)
      ensures r.Ok? <==>
                && (base.Some? ==> SnapshotStands(node, base.value, head, old(clock)))
                && (unfinished.Some? ==>
                      CheckpointStands(node, unfinished.value, head, old(clock) + if base.Some? then 2 else 0))
      ensures r.Ok? ==> snapshot == base && (candidate == old(candidate) || snapshot.Some?)
                        && Chosen(r.value, old(checkpoint), unfinished, head)
      ensures Honest(chain, node) && old(FaithfulAt(chain, began)) ==> Faithful(chain)
      ensures snapshot == old(snapshot) || (snapshot == old(candidate) && (Honest(chain, node) ==> SeenWithin(chain, snapshot, began, clock)))
    {
      var check, verified := ServeSaved(node, head, base, began, chain);
      if check.Fail? {
        return Fail(check.code);
      }
      r := Choose(node, head, unfinished, began, verified, chain);
    }

    /** Checks the snapshot that is served or that was read at the start, which is served from then on. */
    method ServeSaved(node: Node, top: Header, ghost base: Option<Snapshot>, ghost began: nat, ghost chain: Chain) returns (r: Answer<Done>, ghost verified: nat)
      requires Valid() && began < clock && pool.deploymentBlock <= top.number
      requires base == Saved()
      modifies this`clock, this`snapshot, this`candidate
      ensures Valid() && old(clock) <= clock <= old(clock) + 2
      ensures r.Ok? <==> (base.Some? ==> SnapshotStands(node, base.value, top, old(clock)))
      ensures r.Fail? ==> base.Some?
      ensures r.Ok? ==> snapshot == base && (candidate == old(candidate) || snapshot.Some?)
      ensures r.Ok? ==> clock == old(clock) + if snapshot.Some? then 2 else 0
      ensures r.Ok? && snapshot.Some? ==> HashAt(node, verified, snapshot.value.asOfBlockNumber) == Some(snapshot.value.asOfBlockHash)
      ensures r.Fail? ==> snapshot == old(snapshot)
      ensures verified == old(clock)
      ensures Honest(chain, node) && old(FaithfulAt(chain, began)) ==> FaithfulAt(chain, began) && Faithful(chain)
      ensures snapshot == old(snapshot) || (snapshot == old(candidate) && (Honest(chain, node) ==> SeenWithin(chain, snapshot, began, clock)))
    {
      verified := clock;
      var saved := if snapshot.Some? then snapshot else candidate;
      if saved.Some? {
        r, verified := VerifySaved(node, saved.value, top);
        if r.Fail? {
          KeepFaithful(node, chain, began);
          return;
        }
        snapshot, candidate := saved, if snapshot.Some? then candidate else None;
        assert Honest(chain, node) ==> Shown(chain, saved.value.asOfBlockNumber, saved.value.asOfBlockHash, verified);
      }
      KeepFaithful(node, chain, began);
      return Ok(Done.Done), verified;
    }

    /** What a job works on: unfinished work that counts, or new work from the snapshot to the
        head; nothing, and the old checkpoint stays, if the snapshot is at the head already. */
    ghost predicate Chosen(more: bool, before: Option<Checkpoint>, unfinished: Option<Checkpoint>, head: Header)
      reads this
    {
      && (more <==> unfinished.Some? || snapshot.None? || snapshot.value.asOfBlockNumber != head.number)
      && checkpoint == if !more then before else if unfinished.Some? then unfinished else Some(FreshCheckpoint(snapshot, head))
    }

    lemma KeepFaithful(node: Node, chain: Chain, t: nat)
      requires t <= clock
      ensures FaithfulAt(chain, t) ==> Faithful(chain)
    {
      if FaithfulAt(chain, t) { Later(chain, t, clock); }
    }

    method Choose(node: Node, top: Header, ghost unfinished: Option<Checkpoint>, ghost began: nat, ghost verified: nat, ghost chain: Chain) returns (r: Answer<bool>)
      requires Valid() && pool.deploymentBlock <= top.number
      requires began < clock && began <= verified <= clock && node.head(began) == Ok(top)
      requires snapshot.Some? ==>
                 && snapshot.value.asOfBlockNumber <= top.number
                 && HashAt(node, verified, snapshot.value.asOfBlockNumber) == Some(snapshot.value.asOfBlockHash)
      requires unfinished == Unfinished(snapshot)
      modifies this`clock, this`checkpoint, this`error, this`retryAt
      ensures Valid() && old(clock) <= clock <= old(clock) + 2
      ensures r == Ok(true) ==> checkpoint.Some?
      ensures r == Ok(false) ==> snapshot.Some? && !error && retryAt == node.now(clock) + 60_000
      ensures r != Ok(false) ==> error == old(error) && retryAt == old(retryAt)
      ensures r.Ok? <==> (unfinished.Some? ==> CheckpointStands(node, unfinished.value, top, old(clock)))
      ensures r.Ok? ==> Chosen(r.value, old(checkpoint), unfinished, top)
      ensures Honest(chain, node) && old(FaithfulAt(chain, began)) ==> Faithful(chain)
    {
      var resumed := checkpoint;
      if resumed.Some? && snapshot.Some? && resumed.value.targetBlock < snapshot.value.asOfBlockNumber {
        resumed := None;
      }
      if resumed.Some? {
        var check := VerifyCheckpoint(node, resumed.value, top);
        KeepFaithful(node, chain, began);
        if check.Fail? {
          return Fail(check.code);
        }
      } else if snapshot.Some? && snapshot.value.asOfBlockNumber == top.number {
        KeepFaithful(node, chain, began);
        error, retryAt := false, node.now(clock) + REFRESH_MS;
        return Ok(false);
      } else {
        KeepFaithful(node, chain, began);
        resumed := Some(FreshCheckpoint(snapshot, top));
        if Honest(chain, node) && FaithfulAt(chain, began) {
          FreshIsPending(chain, pool, resumed.value, snapshot, began, verified, clock);
        }
      }
      checkpoint := resumed;
      return Ok(true);
    }

    /** Reads the next chunk, halving the range while the provider refuses its size. From a
        span of at most 5000 blocks one block is reached after twelve halvings, so there are
        at most thirteen attempts of two requests each. */
    method FetchChunk(node: Node, first: int, target: BlockNumber, scan: Scan, ghost v: View) returns (r: Answer<Fetched>)
      requires 0 <= first <= target && 1 <= scan.span <= chunkBlocks <= MAX_SPAN
      modifies this`clock
      ensures old(clock) <= clock <= old(clock) + 26
      ensures r.Ok? ==>
                var f := r.value;
                && first <= f.last <= target && f.last <= first + f.span - 1 && 1 <= f.span <= chunkBlocks
                && (f.last < target ==> f.last == first + f.span - 1)
                && old(clock) + 2 <= clock
                && node.block(clock - 2, f.last) == Ok(f.boundary) && f.boundary.number == f.last
                && node.events(clock - 1, first, f.last) == Ok(f.rows)
      ensures r.Ok? && clock == old(clock) + 2 ==> r.value.span == scan.span && r.value.sparse == scan.sparse
      ensures r.Ok? && clock != old(clock) + 2 ==> r.value.span < scan.span && r.value.sparse == 0
      ensures ShowsDuring(node, v, old(clock), clock) && target <= v.top ==> r.Ok?
    {
      ghost var began := clock;
      var span, sparse := scan.span, scan.sparse;
      ghost var halvings := 0;
      while true
        invariant 1 <= span <= chunkBlocks && 0 <= halvings && span * Pow2(halvings) <= MAX_SPAN
        invariant old(clock) <= clock <= old(clock) + 2 * halvings
        invariant if halvings == 0 then clock == old(clock) && span == scan.span && sparse == scan.sparse else span < scan.span && sparse == 0 && old(clock) + 2 <= clock
        decreases span
      {
        HalvingsBounded(span, halvings);
        var last := Min(target, first + span - 1);
        ghost var asked := clock;
        var boundary := AskBlock(node, last);
        if boundary.Fail? {
          ShownChunk(node, v, began, clock, asked, first, last);
          return Fail(boundary.code);
        }
        var rows := AskEvents(node, first, last);
        if rows.Ok? {
          return Ok(Fetched(last, boundary.value, rows.value, span, sparse));
        }
        if rows.code !in SHRINKABLE || last == first || node.expired(clock) {
          ShownChunk(node, v, began, clock, asked + 1, first, last);
          ShownNow(node, v, began, clock, clock);
          return Fail(rows.code);
        }
        HalvingShrinks(span, (last - first + 1) / 2, halvings);
        span, sparse, halvings := (last - first + 1) / 2, 0, halvings + 1;
      }
    }

    /** While the node serves, the last block of a chunk is answered, and its rows unless the
        range is too large. */
    lemma ShownChunk(node: Node, v: View, from: nat, until: nat, t: nat, first: int, last: int)
      requires 0 <= first <= last && from <= t <= until
      ensures ShowsDuring(node, v, from, until) && last <= v.top ==>
                && Open(node, t) && node.block(t, last) == Ok(Header(last, v.hash(last))) && HashAt(node, t, last) == Some(v.hash(last))
                && (node.events(t, first, last) == Ok(v.rows(first, last))
                    || (first < last && node.events(t, first, last).Fail? && node.events(t, first, last).code in SHRINKABLE))
    {
      if ShowsDuring(node, v, from, until) && last <= v.top { assert Shows(node, v, t); }
    }

    lemma ShownNow(node: Node, v: View, from: nat, until: nat, t: nat)
      requires from <= t <= until
      ensures ShowsDuring(node, v, from, until) ==> Open(node, t) && node.stores(t)
    {
      if ShowsDuring(node, v, from, until) { assert Shows(node, v, t); }
    }

    lemma HalvingsBounded(span: int, halvings: nat)
      requires 1 <= span && span * Pow2(halvings) <= MAX_SPAN
      ensures halvings <= 12
    {
      if 13 <= halvings {
        ThirteenHalvings(span, halvings);
      }
    }

    lemma ThirteenHalvings(span: int, halvings: nat)
      requires 1 <= span && 13 <= halvings
      ensures 8192 <= span * Pow2(halvings)
    {
      Pow2Grows(13, halvings);
      assert Pow2(13) == 8192;
      assert Pow2(halvings) <= span * Pow2(halvings);
    }

    lemma {:induction false} Pow2Grows(a: nat, b: nat)
      requires a <= b
      ensures 1 <= Pow2(a) <= Pow2(b)
      decreases b
    {
      if a < b {
        Pow2Grows(a, b - 1);
      } else if 0 < a {
        Pow2Grows(a - 1, a - 1);
      }
    }

    lemma HalvingShrinks(span: int, half: int, halvings: nat)
      requires 0 <= half && 2 * half <= span && span * Pow2(halvings) <= MAX_SPAN
      ensures half * Pow2(halvings + 1) <= MAX_SPAN
    {
      assert half * Pow2(halvings + 1) == (2 * half) * Pow2(halvings);
      assert (2 * half) * Pow2(halvings) <= span * Pow2(halvings);
    }

    ghost predicate Scanning(c: Option<Checkpoint>, target: Header, scan: Scan)
      reads this
    {
      && Valid() && c.Some? && c.value.targetBlock == target.number && c.value.targetHash == target.hash
      && 1 <= scan.span <= chunkBlocks
      && scan.leafSet == Members(c.value.leaves) && scan.withdrawnSet == Members(c.value.withdrawnNullifiers)
    }

    /** The checkpoint after a chunk. */
    function Extended(c: Checkpoint, f: Fetched, p: Progress, span: int): Checkpoint {
      c.(leaves := c.leaves + p.leaves, withdrawnNullifiers := c.withdrawnNullifiers + p.nullifiers,
         scannedBlock := f.last, scannedHash := Some(f.boundary.hash), blockSpan := Some(span))
    }

    /** The node serves a view that has the target, with its count of leaves. */
    ghost predicate InService(node: Node, v: View, from: nat, until: nat, target: Header, nextIndex: nat) {
      && ShowsDuring(node, v, from, until) && Ordered(v, pool)
      && pool.deploymentBlock <= target.number <= v.top && target.hash == v.hash(target.number) && nextIndex == v.count(target.number)
    }

    /** Rows that a serving node answers pass the row check. */
    lemma ShownRows(node: Node, v: View, from: nat, until: nat, target: Header, c: Chunk, rows: seq<Row>)
      requires InService(node, v, from, until, target, c.nextIndex) && from + 2 <= until
      requires pool.deploymentBlock <= c.first <= c.last <= target.number
      requires c.leaves == Deposits(v.rows(pool.deploymentBlock, c.first - 1)) && c.nullifiers == Withdrawals(v.rows(pool.deploymentBlock, c.first - 1))
      requires node.block(until - 2, c.last) == Ok(c.boundary) && node.events(until - 1, c.first, c.last) == Ok(rows)
      ensures AllAdmissible(rows, c) && rows == v.rows(c.first, c.last) && c.boundary.hash == v.hash(c.last)
    {
      ShownChunk(node, v, from, until, until - 2, c.first, c.last);
      ShownChunk(node, v, from, until, until - 1, c.first, c.last);
      assert PassesCheck(v, pool.deploymentBlock, c.first, c.last, target.number);
      assert c == Expected(v, c.first, c.last, target.number, pool.deploymentBlock);
    }

    /** Reads one chunk and checks it against the checkpoint, which it leaves alone. */
    method ReadChunk(node: Node, target: Header, nextIndex: nat, scan: Scan, ghost v: View) returns (r: Answer<Fetched>, p: Progress)
      requires Scanning(checkpoint, target, scan) && checkpoint.value.scannedBlock < target.number
      modifies this`clock
      ensures old(clock) <= clock <= old(clock) + 26
      ensures r.Ok? ==>
                var c, f := checkpoint.value, r.value;
                && c.scannedBlock < f.last <= target.number && 1 <= f.span <= chunkBlocks
                && old(clock) + 2 <= clock
                && node.block(clock - 2, f.last) == Ok(f.boundary) && f.boundary.number == f.last
                && node.events(clock - 1, c.scannedBlock + 1, f.last) == Ok(f.rows)
                && p.leaves == Deposits(f.rows) && p.nullifiers == Withdrawals(f.rows)
                && p.leafSet == Members(c.leaves + p.leaves) && p.withdrawnSet == Members(c.withdrawnNullifiers + p.nullifiers)
                && forall span :: 1 <= span <= MAX_SPAN ==> GoodCheckpoint(Some(Extended(c, f, p, span)))
      ensures InService(node, v, old(clock), clock, target, nextIndex) && FollowsView(v, pool, checkpoint.value) ==>
                r.Ok? && r.value.rows == v.rows(checkpoint.value.scannedBlock + 1, r.value.last) && r.value.boundary.hash == v.hash(r.value.last)
    {
      ghost var began := clock;
      p := Progress(0, [], [], {}, {});
      var c := checkpoint.value;
      r := FetchChunk(node, c.scannedBlock + 1, target.number, scan, v);
      if r.Fail? {
        return;
      }
      var chunk := Chunk(c.scannedBlock + 1, r.value.last, r.value.boundary, nextIndex, c.leaves, c.withdrawnNullifiers);
      var checked := CheckRows(r.value.rows, chunk, scan.leafSet, scan.withdrawnSet);
      if InService(node, v, began, clock, target, nextIndex) && FollowsView(v, pool, c) {
        ShownRows(node, v, began, clock, target, chunk, r.value.rows);
      }
      if checked.Fail? {
        return Fail(checked.code), p;
      }
      p := checked.value;
      AppendKeepsValid(r.value.rows, chunk);
    }

    /** Reads and checks one chunk, and then sees its last block again. */
    method FenceChunk(node: Node, target: Header, nextIndex: nat, scan: Scan, ghost v: View) returns (r: Answer<Fetched>, p: Progress)
      requires Scanning(checkpoint, target, scan) && checkpoint.value.scannedBlock < target.number
      modifies this`clock
      ensures old(clock) <= clock <= old(clock) + 27
      ensures r.Ok? ==>
                var c, f := checkpoint.value, r.value;
                && c.scannedBlock < f.last <= target.number && 1 <= f.span <= chunkBlocks
                && old(clock) + 3 <= clock
                && node.block(clock - 3, f.last) == Ok(f.boundary) && f.boundary.number == f.last
                && node.events(clock - 2, c.scannedBlock + 1, f.last) == Ok(f.rows)
                && node.block(clock - 1, f.last) == Ok(f.boundary)
                && p.leaves == Deposits(f.rows) && p.nullifiers == Withdrawals(f.rows)
                && p.leafSet == Members(c.leaves + p.leaves) && p.withdrawnSet == Members(c.withdrawnNullifiers + p.nullifiers)
                && forall span :: 1 <= span <= MAX_SPAN ==> GoodCheckpoint(Some(Extended(c, f, p, span)))
      ensures InService(node, v, old(clock), clock, target, nextIndex) && FollowsView(v, pool, checkpoint.value) ==>
                r.Ok? && r.value.rows == v.rows(checkpoint.value.scannedBlock + 1, r.value.last) && r.value.boundary.hash == v.hash(r.value.last)
    {
      ghost var began := clock;
      r, p := ReadChunk(node, target, nextIndex, scan, v);
      if r.Fail? {
        return;
      }
      ghost var fenced := clock;
      var fence := AssertBlock(node, r.value.boundary);
      ShownLonger(node, v, began, fenced, clock);
      ShownChunk(node, v, began, clock, fenced, r.value.last, r.value.last);
      if fence.Fail? {
        return Fail(fence.code), p;
      }
    }

    /** The later checkpoint adds exactly the logs of its own scanned block's history. */
    ghost predicate AppendsOneBranch(chain: Chain, c: Checkpoint, c': Checkpoint) {
      && c'.scannedHash.Some?
      && var rows := chain.LogsOf(c'.scannedHash.value, c.scannedBlock + 1, c'.scannedBlock);
      && c'.leaves == c.leaves + Deposits(rows) && c'.withdrawnNullifiers == c.withdrawnNullifiers + Withdrawals(rows)
    }

    /** Commits a checked and fenced chunk in one step and adapts the span: three sparse
        full-span chunks in a row double it. */
    method Commit(f: Fetched, p: Progress) returns (scan: Scan)
      requires Valid() && checkpoint.Some? && 1 <= f.span <= chunkBlocks
      requires forall span :: 1 <= span <= MAX_SPAN ==> GoodCheckpoint(Some(Extended(checkpoint.value, f, p, span)))
      modifies this`checkpoint, this`blockSpan
      ensures Valid() && 1 <= scan.span <= chunkBlocks
      ensures blockSpan == Some(scan.span) && checkpoint == Some(Extended(old(checkpoint).value, f, p, scan.span))
      ensures scan.leafSet == p.leafSet && scan.withdrawnSet == p.withdrawnSet
      ensures var full := |f.rows| <= 128 && f.last - old(checkpoint).value.scannedBlock == f.span;
              && scan.span == (if full && 2 <= f.sparse then Min(chunkBlocks, 2 * f.span) else f.span)
              && scan.sparse == (if full && f.sparse < 2 then f.sparse + 1 else 0)
    {
      var sparse := if |f.rows| <= 128 && f.last - checkpoint.value.scannedBlock == f.span then f.sparse + 1 else 0;
      var span := f.span;
      if 3 <= sparse {
        span, sparse := Min(chunkBlocks, span * 2), 0;
      }
      checkpoint, blockSpan := Some(Extended(checkpoint.value, f, p, span)), Some(span);
      scan := Scan(span, sparse, p.leafSet, p.withdrawnSet);
    }

    /** Reads, checks, fences and then commits one chunk; nothing is committed in part. */
    method ScanChunk(node: Node, target: Header, nextIndex: nat, scan: Scan, ghost seen: nat, ghost chain: Chain, ghost v: View)
        returns (r: Answer<Scan>)
      requires Scanning(checkpoint, target, scan) && checkpoint.value.scannedBlock < target.number
      requires seen < clock && node.block(seen, target.number) == Ok(target)
      modifies this`clock, this`checkpoint, this`blockSpan
      ensures Valid() && old(clock) <= clock <= old(clock) + 27
      ensures r.Ok? ==> Scanning(checkpoint, target, r.value)
                        && old(checkpoint).value.scannedBlock < checkpoint.value.scannedBlock <= target.number
      ensures r.Fail? ==> checkpoint == old(checkpoint) && blockSpan == old(blockSpan)
      ensures r.Ok? && Honest(chain, node) ==> AppendsOneBranch(chain, old(checkpoint).value, checkpoint.value)
      ensures Honest(chain, node) && old(Faithful(chain)) ==> Faithful(chain)
      ensures InService(node, v, old(clock), clock, target, nextIndex) && FollowsView(v, pool, old(checkpoint).value) ==>
                r.Ok? && FollowsView(v, pool, checkpoint.value)
    {
      ghost var began := clock;
      var chunk, p := FenceChunk(node, target, nextIndex, scan, v);
      KeepFaithful(node, chain, began);
      if chunk.Fail? {
        return Fail(chunk.code);
      }
      ghost var c := checkpoint.value;
      var scan' := Commit(chunk.value, p);
      ServedChunk(node, v, began, clock, target, nextIndex, c, checkpoint.value, chunk.value);
      CommitKeepsFaithful(node, c, chunk.value, seen, began, chain);
      return Ok(scan');
    }

    /** A chunk read in service extends the index along the view. */
    lemma ServedChunk(node: Node, v: View, from: nat, until: nat, target: Header, nextIndex: nat, c: Checkpoint, c': Checkpoint, f: Fetched)
      requires pool.deploymentBlock - 1 <= c.scannedBlock < f.last <= c.targetBlock && f.last <= target.number
      requires c' == c.(leaves := c.leaves + Deposits(f.rows), withdrawnNullifiers := c.withdrawnNullifiers + Withdrawals(f.rows),
                        scannedBlock := f.last, scannedHash := Some(f.boundary.hash), blockSpan := c'.blockSpan)
      ensures InService(node, v, from, until, target, nextIndex) && FollowsView(v, pool, c) ==>
                f.rows == v.rows(c.scannedBlock + 1, f.last) && f.boundary.hash == v.hash(f.last) ==> FollowsView(v, pool, c')
    {
      if InService(node, v, from, until, target, nextIndex) && FollowsView(v, pool, c)
         && f.rows == v.rows(c.scannedBlock + 1, f.last) && f.boundary.hash == v.hash(f.last) {
        RowsFollow(v, pool, c, c', f.last);
      }
    }

    lemma ShownLonger(node: Node, v: View, from: nat, mid: nat, until: nat)
      requires from <= mid <= until
      ensures ShowsDuring(node, v, from, until) ==> ShowsDuring(node, v, from, mid) && ShowsDuring(node, v, mid, until)
    {
    }

    lemma CommitKeepsFaithful(node: Node, c: Checkpoint, f: Fetched, seen: nat, began: nat, chain: Chain)
      requires checkpoint.Some? && seen < began && began + 3 <= clock
      requires HashAt(node, seen, c.targetBlock) == Some(c.targetHash)
      requires pool.deploymentBlock - 1 <= c.scannedBlock < f.last <= c.targetBlock
      requires node.block(clock - 3, f.last) == Ok(f.boundary) && f.boundary.number == f.last
      requires node.events(clock - 2, c.scannedBlock + 1, f.last) == Ok(f.rows)
      requires node.block(clock - 1, f.last) == Ok(f.boundary)
      requires checkpoint.value == c.(leaves := c.leaves + Deposits(f.rows),
                                      withdrawnNullifiers := c.withdrawnNullifiers + Withdrawals(f.rows),
                                      scannedBlock := f.last, scannedHash := Some(f.boundary.hash),
                                      blockSpan := checkpoint.value.blockSpan)
      ensures Honest(chain, node) && Pending(chain, pool, c, began) ==> PendingAt(chain, checkpoint, clock)
      ensures Honest(chain, node) ==> AppendsOneBranch(chain, c, checkpoint.value)
    {
      if Honest(chain, node) {
        FencedChunkIsOneBranch(chain, node, clock - 3, clock - 2, clock - 1, c.scannedBlock + 1, f.boundary, f.rows);
      }
      if Honest(chain, node) && Pending(chain, pool, c, began) {
        ChunkKeepsPending(chain, node, pool, c, checkpoint.value, seen, began, clock - 3, clock - 2, clock, f.last, f.rows);
      }
    }

    /** The chunk loop: bounded by maxChunks, by the target and by the job's deadline. */
    method ScanAll(node: Node, target: Header, nextIndex: nat, ghost seen: nat, ghost chain: Chain, ghost v: View) returns (r: Answer<Done>)
      requires Valid() && checkpoint.Some?
      requires checkpoint.value.targetBlock == target.number && checkpoint.value.targetHash == target.hash
      requires seen < clock && node.block(seen, target.number) == Ok(target)
      modifies this`clock, this`checkpoint, this`blockSpan
      ensures Valid() && old(clock) <= clock <= old(clock) + 27 * maxChunks
      ensures checkpoint.Some? && checkpoint.value.targetBlock == target.number && checkpoint.value.targetHash == target.hash
      ensures old(checkpoint).value.scannedBlock <= checkpoint.value.scannedBlock <= target.number
      ensures r.Ok? && old(checkpoint.value.scannedBlock < target.number && !node.closed(clock) && !node.expired(clock)) ==>
                old(checkpoint).value.scannedBlock < checkpoint.value.scannedBlock
      ensures r.Ok? ==> checkpoint.value.scannedBlock == target.number || node.closed(clock) || node.expired(clock)
                        || old(checkpoint).value.scannedBlock + maxChunks <= checkpoint.value.scannedBlock
      ensures Honest(chain, node) && old(Faithful(chain)) ==> Faithful(chain)
      ensures InService(node, v, old(clock), clock, target, nextIndex) && FollowsView(v, pool, old(checkpoint).value) ==>
                r.Ok? && FollowsView(v, pool, checkpoint.value)
    {
      ghost var began := clock;
      var c := checkpoint.value;
      var span := if c.blockSpan.Some? then c.blockSpan.value else if blockSpan.Some? then blockSpan.value else chunkBlocks;
      var scan := Scan(Min(span, chunkBlocks), 0, Members(c.leaves), Members(c.withdrawnNullifiers));
      var chunk := 0;
      while !node.closed(clock) && checkpoint.value.scannedBlock < target.number && chunk < maxChunks && !node.expired(clock)
        invariant 0 <= chunk <= maxChunks && Scanning(checkpoint, target, scan)
        invariant old(clock) <= clock <= old(clock) + 27 * chunk
        invariant if chunk == 0 then clock == old(clock) else old(checkpoint).value.scannedBlock < checkpoint.value.scannedBlock
        invariant old(checkpoint).value.scannedBlock + chunk <= checkpoint.value.scannedBlock <= target.number
        invariant Honest(chain, node) && old(Faithful(chain)) ==> Faithful(chain)
        invariant InService(node, v, began, clock, target, nextIndex) && FollowsView(v, pool, c) ==> FollowsView(v, pool, checkpoint.value)
        decreases maxChunks - chunk
      {
        ghost var started := clock;
        var next := ScanChunk(node, target, nextIndex, scan, seen, chain, v);
        ShownLonger(node, v, began, started, clock);
        if next.Fail? {
          return Fail(next.code);
        }
        scan, chunk := next.value, chunk + 1;
      }
      return Ok(Done.Done);
    }

    /** The scan has reached the target, which has just been seen canonical at moment
        fenced: save the snapshot, then serve it, then drop the checkpoint. */
    method Publish(node: Node, target: Header, root: FieldElement, ghost fenced: nat, ghost chain: Chain) returns (r: Answer<Done>)
      requires Valid() && checkpoint.Some? && checkpoint.value.scannedBlock == target.number
      requires checkpoint.value.targetBlock == target.number && checkpoint.value.targetHash == target.hash
      requires fenced + 1 == clock && node.block(fenced, target.number) == Ok(target)
      requires Honest(chain, node) ==> root == chain.root(target.hash)
      modifies this`clock, this`snapshot, this`candidate, this`checkpoint, this`savedSnapshot, this`savedCheckpoint
      ensures Valid() && old(clock) <= clock <= old(clock) + 2
      ensures r.Ok? ==>
                && snapshot.Some? && snapshot == savedSnapshot && checkpoint == savedCheckpoint == None
                && snapshot.value.asOfBlockNumber == target.number && snapshot.value.asOfBlockHash == target.hash
                && snapshot.value.root == root && snapshot.value.leafCount == |snapshot.value.leaves|
                && snapshot.value.leaves == old(checkpoint).value.leaves
                && snapshot.value.withdrawnNullifiers == old(checkpoint).value.withdrawnNullifiers
      ensures r.Ok? <==> node.stores(old(clock)) && node.stores(old(clock) + 1)
      ensures Stores(node, old(clock), clock) ==> r.Ok?
      ensures snapshot == old(snapshot) || (Honest(chain, node) ==> SeenWithin(chain, snapshot, fenced, clock))
      ensures Honest(chain, node) && old(FaithfulAt(chain, fenced)) ==> Faithful(chain)
    {
      var c := checkpoint.value;
      var s := Snapshot(1, 1, pool.address, target.number, target.hash, |c.leaves|, root, c.leaves, c.withdrawnNullifiers);
      if Honest(chain, node) {
        assert Shown(chain, target.number, target.hash, fenced);
        assert FaithfulAt(chain, fenced) ==> Agrees(chain, pool, c);
      }
      r := SaveSnapshot(node, s);
      KeepFaithful(node, chain, fenced);
      if r.Ok? {
        snapshot, candidate, checkpoint := Some(s), None, None;
        r := RemoveCheckpoint(node);
        KeepFaithful(node, chain, fenced);
      }
    }

    /** Publishes a finished scan, or saves it for the next job. */
    method Finish(node: Node, target: Header, expected: PoolState, ghost fenced: nat, ghost chain: Chain) returns (r: Answer<Done>)
      requires Valid() && checkpoint.Some?
      requires checkpoint.value.targetBlock == target.number && checkpoint.value.targetHash == target.hash
      requires fenced + 1 == clock && node.block(fenced, target.number) == Ok(target)
      requires Honest(chain, node) ==> expected.root == chain.root(target.hash)
      modifies this
      ensures Valid() && old(clock) <= clock <= old(clock) + 2
      ensures old(checkpoint).value.scannedBlock == target.number && r.Ok? ==>
                && snapshot.Some? && |old(checkpoint).value.leaves| == expected.nextIndex == snapshot.value.leafCount
                && snapshot == savedSnapshot && checkpoint == savedCheckpoint == None
                && snapshot.value.asOfBlockNumber == target.number && snapshot.value.asOfBlockHash == target.hash
                && snapshot.value.root == expected.root
                && snapshot.value.leaves == old(checkpoint).value.leaves
                && snapshot.value.withdrawnNullifiers == old(checkpoint).value.withdrawnNullifiers
      ensures r.Ok? <==> if old(checkpoint).value.scannedBlock == target.number
                         then |old(checkpoint).value.leaves| == expected.nextIndex && node.stores(old(clock)) && node.stores(old(clock) + 1)
                         else node.stores(old(clock))
      ensures (old(checkpoint).value.scannedBlock == target.number ==> |old(checkpoint).value.leaves| == expected.nextIndex) ==>
                Stores(node, old(clock), clock) ==> r.Ok?
      ensures old(checkpoint).value.scannedBlock < target.number && r.Ok? ==>
                checkpoint == savedCheckpoint == old(checkpoint)
                && snapshot == old(snapshot) && candidate == old(candidate) && savedSnapshot == old(savedSnapshot)
      ensures r.Ok? ==> !error && retryAt == node.now(clock) + if old(checkpoint).value.scannedBlock == target.number then 60_000 else 1_000
      ensures r.Fail? ==> error == old(error) && retryAt == old(retryAt)
      ensures snapshot == old(snapshot) || (Honest(chain, node) ==> SeenWithin(chain, snapshot, fenced, clock))
      ensures Honest(chain, node) && old(FaithfulAt(chain, fenced)) ==> Faithful(chain)
    {
      if checkpoint.value.scannedBlock == target.number {
        if |checkpoint.value.leaves| != expected.nextIndex {
          KeepFaithful(node, chain, fenced);
          return Fail(IndexGap);
        }
        r := Publish(node, target, expected.root, fenced, chain);
        if r.Fail? {
          return;
        }
        retryAt := node.now(clock) + REFRESH_MS;
      } else {
        r := SaveCheckpoint(node, checkpoint.value);
        KeepFaithful(node, chain, fenced);
        if r.Fail? {
          return;
        }
        retryAt := node.now(clock) + CONTINUE_MS;
      }
      error := false;
    }

    /** Where a served job ends that had to scan from a block to a target: the target is published,
        or the work is saved, and at least one block further for every chunk. */
    ghost predicate Achieved(node: Node, v: View, from: int, target: int)
      reads this
    {
      if checkpoint.None? then
        && snapshot.Some? && snapshot == savedSnapshot && savedCheckpoint.None? && retryAt == node.now(clock) + 60_000
        && InView(v, pool, snapshot.value) && snapshot.value.asOfBlockNumber == target
      else
        && checkpoint == savedCheckpoint && FollowsView(v, pool, checkpoint.value) && retryAt == node.now(clock) + 1_000
        && checkpoint.value.targetBlock == target && from + maxChunks <= checkpoint.value.scannedBlock < target
    }

    /** Scans towards a target seen canonical at moment seen, and sees it again at the end:
        a reorganisation during any read cannot publish a mixed view. */
    method ScanTo(node: Node, target: Header, expected: PoolState, ghost seen: nat, ghost chain: Chain, ghost v: View) returns (r: Answer<Done>)
      requires Valid() && checkpoint.Some?
      requires checkpoint.value.targetBlock == target.number && checkpoint.value.targetHash == target.hash
      requires seen + 1 < clock && node.block(seen, target.number) == Ok(target) && node.state(seen + 1, target) == Ok(expected)
      modifies this
      ensures Valid() && old(clock) <= clock <= old(clock) + 3 + 27 * maxChunks
      ensures r.Ok? ==> snapshot.Some? || (checkpoint.Some? && checkpoint == savedCheckpoint)
      ensures r.Ok? ==> !error && retryAt - node.now(clock) in {60_000, 1_000}
      ensures r.Ok? && checkpoint.Some? ==> snapshot == old(snapshot) && candidate == old(candidate) && savedSnapshot == old(savedSnapshot)
      ensures r.Fail? ==> error == old(error) && retryAt == old(retryAt)
      ensures snapshot == old(snapshot) || (Honest(chain, node) ==> SeenWithin(chain, snapshot, old(clock), clock))
      ensures Honest(chain, node) && old(Faithful(chain)) ==> Faithful(chain)
      ensures InService(node, v, old(clock), clock, target, expected.nextIndex) && FollowsView(v, pool, old(checkpoint).value) ==>
                expected.root == v.root(target.number) ==> r.Ok? && Achieved(node, v, old(checkpoint).value.scannedBlock, target.number)
    {
      ghost var began := clock;
      var _ :- ScanAll(node, target, expected.nextIndex, seen, chain, v);
      ghost var fenced, c := clock, checkpoint.value;
      var fence := AssertBlock(node, target);
      ServedFence(node, v, began, fenced, clock, target, expected.nextIndex, c);
      if fence.Fail? {
        KeepFaithful(node, chain, fenced);
        return Fail(fence.code);
      }
      if Honest(chain, node) { RootAtTarget(chain, node, target, expected, seen, fenced); }
      r := Finish(node, target, expected, fenced, chain);
      ServedFence(node, v, began, fenced, clock, target, expected.nextIndex, c);
    }

    /** In service the target is seen again, files are written, and a finished scan has the
        pool's own count. */
    lemma ServedFence(node: Node, v: View, from: nat, fenced: nat, until: nat, target: Header, nextIndex: nat, c: Checkpoint)
      requires from <= fenced <= until && pool.deploymentBlock - 1 <= c.scannedBlock <= c.targetBlock
      requires c.targetBlock == target.number && c.targetHash == target.hash
      ensures InService(node, v, from, until, target, nextIndex) ==>
                && InService(node, v, from, fenced, target, nextIndex)
                && Open(node, fenced) && Open(node, until) && node.block(fenced, target.number) == Ok(target) && Stores(node, from, until)
                && (FollowsView(v, pool, c) && c.scannedBlock == c.targetBlock ==> |c.leaves| == nextIndex)
    {
      if InService(node, v, from, until, target, nextIndex) {
        ShownChunk(node, v, from, until, fenced, target.number, target.number);
        ShownNow(node, v, from, until, until);
        forall t: nat | from <= t <= until
          ensures node.stores(t)
        {
          ShownNow(node, v, from, until, t);
        }
        if FollowsView(v, pool, c) { CountIsEnough(v, pool, c); }
      }
    }

    /** The state was read while the target was canonical, as it was before and is afterwards. */
    lemma RootAtTarget(chain: Chain, node: Node, target: Header, expected: PoolState, seen: nat, fenced: nat)
      requires Honest(chain, node) && seen + 1 <= fenced
      requires node.block(seen, target.number) == Ok(target) && node.block(fenced, target.number) == Ok(target)
      requires node.state(seen + 1, target) == Ok(expected)
      ensures expected.root == chain.root(target.hash)
    {
      assert Shown(chain, target.number, target.hash, seen) && Shown(chain, target.number, target.hash, fenced);
      assert chain.canon(seen + 1, target.number) == Some(target.hash);
    }

    /** What there is to do at this head: go on with unfinished work that counts, or scan from
        the snapshot to the head; nothing if the snapshot is there already. */
    ghost function Todo(top: int): Option<Work>
      reads this
    {
      if Unfinished(Saved()).Some? then Some(Work(Unfinished(Saved()).value.scannedBlock, Unfinished(Saved()).value.targetBlock))
      else if Saved().Some? && Saved().value.asOfBlockNumber == top then None
      else Some(Work(if Saved().Some? then Saved().value.asOfBlockNumber else pool.deploymentBlock - 1, top))
    }

    /** What is saved belongs to the view. */
    ghost predicate StartsInView(v: View)
      reads this
    {
      && (Saved().Some? ==> InView(v, pool, Saved().value))
      && (Unfinished(Saved()).Some? ==> FollowsView(v, pool, Unfinished(Saved()).value))
    }

    /** No job makes more requests and file operations than this. */
    const LIMIT: nat := 12 + 27 * maxChunks

    /** From moment t on, for as long as a job may last, the node serves the view up to its head. */
    ghost predicate Served(node: Node, v: View, t: nat) {
      && ShowsDuring(node, v, t, t + LIMIT) && Ordered(v, pool)
      && node.head(t) == Ok(Header(v.top, v.hash(v.top))) && pool.deploymentBlock <= v.top
    }

    lemma SnapshotIsConfirmed(node: Node, v: View, t: nat, s: Snapshot, u: nat)
      requires Served(node, v, t) && InView(v, pool, s) && t <= u && u + 1 <= t + LIMIT && 0 <= s.asOfBlockNumber
      ensures SnapshotStands(node, s, Header(v.top, v.hash(v.top)), u)
    {
      assert Shows(node, v, u) && Shows(node, v, u + 1);
    }

    lemma CheckpointIsConfirmed(node: Node, v: View, t: nat, c: Checkpoint, u: nat)
      requires Served(node, v, t) && FollowsView(v, pool, c) && t <= u && u + 1 <= t + LIMIT && c.scannedBlock <= c.targetBlock && 0 <= c.targetBlock
      ensures CheckpointStands(node, c, Header(v.top, v.hash(v.top)), u)
    {
      assert Shows(node, v, u) && Shows(node, v, u + 1);
    }

    lemma FreshFollows(v: View, base: Option<Snapshot>)
      requires Ordered(v, pool) && (base.Some? ==> InView(v, pool, base.value))
      ensures FollowsView(v, pool, FreshCheckpoint(base, Header(v.top, v.hash(v.top))))
    {
    }
    /** The part of a job that may fail: verify what is saved, choose the work, do it. */
    method Attempt(node: Node, ghost chain: Chain, ghost v: View) returns (r: Answer<Done>)
      requires Valid()
      modifies this
      ensures Valid() && old(clock) <= clock <= old(clock) + 10 + 27 * maxChunks
      ensures r.Ok? ==> snapshot.Some? || (checkpoint.Some? && checkpoint == savedCheckpoint)
      ensures r.Ok? ==> !error && retryAt - node.now(clock) in {60_000, 1_000}
      ensures r.Ok? && checkpoint.Some? ==> Saved() == old(Saved()) && savedSnapshot == old(savedSnapshot)
      ensures r.Fail? ==> error == old(error) && retryAt == old(retryAt)
      ensures snapshot == old(snapshot) || (Honest(chain, node) ==> SeenWithin(chain, snapshot, old(clock), clock))
      ensures Honest(chain, node) && old(Faithful(chain)) ==> Faithful(chain)
      ensures Served(node, v, old(clock)) && old(StartsInView(v)) ==>
                r.Ok? && Outcome(node, v, old(Todo(v.top)), old(Saved()), old(checkpoint), old(savedSnapshot), old(savedCheckpoint))
    {
      ghost var began := clock;
      var more := Begin(node, chain, v);
      if more.Fail? {
        return Fail(more.code);
      }
      if !more.value {
        return Ok(Done.Done);
      }
      ghost var resumed := clock;
      r := Resume(node, chain, v);
      ServedMeanwhile(node, v, began, resumed, clock);
    }

    /** A serving node lets the job begin, with the work that there is to do. */
    method Begin(node: Node, ghost chain: Chain, ghost v: View) returns (r: Answer<bool>)
      requires Valid()
      modifies this
      ensures Valid() && old(clock) <= clock <= old(clock) + 5
      ensures r == Ok(true) ==> checkpoint.Some?
      ensures r == Ok(false) ==> snapshot.Some? && !error && retryAt == node.now(clock) + 60_000
      ensures r == Ok(false) ==> snapshot == old(Saved()) && checkpoint == old(checkpoint)
      ensures r != Ok(false) ==> error == old(error) && retryAt == old(retryAt)
      ensures r.Ok? ==> Saved() == old(Saved())
      ensures savedSnapshot == old(savedSnapshot) && savedCheckpoint == old(savedCheckpoint)
      ensures snapshot == old(snapshot) || (Honest(chain, node) ==> SeenWithin(chain, snapshot, old(clock), clock))
      ensures Honest(chain, node) && old(Faithful(chain)) ==> Faithful(chain)
      ensures Served(node, v, old(clock)) && old(StartsInView(v)) ==> r == Ok(old(Todo(v.top)).Some?) && (r.value ==> Doing(v, old(Todo(v.top))))
    {
      ghost var began, base, unfinished := clock, Saved(), Unfinished(Saved());
      r := Prepare(node, chain);
      StartIsConfirmed(node, v, began, base, unfinished);
    }

    /** The checkpoint stands for this work and belongs to the view. */
    ghost predicate Doing(v: View, todo: Option<Work>)
      reads this
    {
      checkpoint.Some? && FollowsView(v, pool, checkpoint.value) && todo == Some(Work(checkpoint.value.scannedBlock, checkpoint.value.targetBlock))
    }

    lemma ServedMeanwhile(node: Node, v: View, t: nat, from: nat, until: nat)
      requires t <= from && until <= t + LIMIT
      ensures Served(node, v, t) ==> ShowsDuring(node, v, from, until) && Ordered(v, pool)
    {
    }

    /** How a served job ends. With nothing to do the checked snapshot is served and everything
        else stays as it was. */
    ghost predicate Outcome(node: Node, v: View, todo: Option<Work>, base: Option<Snapshot>, before: Option<Checkpoint>,
                            file: Option<Snapshot>, work: Option<Checkpoint>)
      reads this
    {
      if todo.Some? then Achieved(node, v, todo.value.from, todo.value.target)
      else snapshot == base && checkpoint == before && savedSnapshot == file && savedCheckpoint == work && retryAt == node.now(clock) + 60_000
    }

    /** A serving node confirms what is saved, and new work starts in its view. */
    lemma StartIsConfirmed(node: Node, v: View, t: nat, base: Option<Snapshot>, unfinished: Option<Checkpoint>)
      requires GoodSnapshot(base) && GoodCheckpoint(unfinished)
      ensures Served(node, v, t) && (base.Some? ==> InView(v, pool, base.value)) && (unfinished.Some? ==> FollowsView(v, pool, unfinished.value)) ==>
                var head := Header(v.top, v.hash(v.top));
                && Open(node, t) && node.head(t) == Ok(head) && pool.deploymentBlock <= head.number
                && (base.Some? ==> SnapshotStands(node, base.value, head, t + 1))
                && (unfinished.Some? ==> CheckpointStands(node, unfinished.value, head, t + if base.Some? then 3 else 1))
                && FollowsView(v, pool, FreshCheckpoint(base, head))
    {
      if Served(node, v, t) && (base.Some? ==> InView(v, pool, base.value)) && (unfinished.Some? ==> FollowsView(v, pool, unfinished.value)) {
        ShownNow(node, v, t, t + LIMIT, t);
        FreshFollows(v, base);
        if base.Some? { SnapshotIsConfirmed(node, v, t, base.value, t + 1); }
        if unfinished.Some? { CheckpointIsConfirmed(node, v, t, unfinished.value, t + if base.Some? then 3 else 1); }
      }
    }

    /** Sees the target, reads the pool's state there and scans to it. */
    method Resume(node: Node, ghost chain: Chain, ghost v: View) returns (r: Answer<Done>)
      requires Valid() && checkpoint.Some?
      modifies this
      ensures Valid() && old(clock) <= clock <= old(clock) + 5 + 27 * maxChunks
      ensures r.Ok? ==> snapshot.Some? || (checkpoint.Some? && checkpoint == savedCheckpoint)
      ensures r.Ok? ==> !error && retryAt - node.now(clock) in {60_000, 1_000}
      ensures r.Ok? && checkpoint.Some? ==> snapshot == old(snapshot) && candidate == old(candidate) && savedSnapshot == old(savedSnapshot)
      ensures r.Fail? ==> error == old(error) && retryAt == old(retryAt)
      ensures snapshot == old(snapshot) || (Honest(chain, node) ==> SeenWithin(chain, snapshot, old(clock), clock))
      ensures Honest(chain, node) && old(Faithful(chain)) ==> Faithful(chain)
      ensures Ordered(v, pool) && FollowsView(v, pool, old(checkpoint).value) ==> ShowsDuring(node, v, old(clock), clock) ==>
                r.Ok? && Achieved(node, v, old(checkpoint).value.scannedBlock, old(checkpoint).value.targetBlock)
    {
      ghost var seen, c := clock, checkpoint.value;
      var target := AskBlock(node, checkpoint.value.targetBlock);
      ServedTarget(node, v, seen, seen, clock, c);
      if target.Fail? || target.value.hash != checkpoint.value.targetHash {
        KeepFaithful(node, chain, seen);
        return Fail(if target.Fail? then target.code else Reorg);
      }
      var expected := AskState(node, target.value);
      KeepFaithful(node, chain, seen);
      ServedTarget(node, v, seen, seen + 1, clock, c);
      if expected.Fail? || expected.value.nextIndex < |checkpoint.value.leaves| {
        return Fail(if expected.Fail? then expected.code else IndexGap);
      }
      ghost var ready := clock;
      r := ScanTo(node, target.value, expected.value, seen, chain, v);
      ShownLonger(node, v, seen, ready, clock);
    }

    /** In service the target is found, and the pool counts no fewer leaves there than are indexed. */
    lemma ServedTarget(node: Node, v: View, from: nat, t: nat, until: nat, c: Checkpoint)
      requires from <= t <= until && pool.deploymentBlock - 1 <= c.scannedBlock <= c.targetBlock && pool.deploymentBlock <= c.targetBlock
      ensures Ordered(v, pool) && FollowsView(v, pool, c) ==> ShowsDuring(node, v, from, until) ==>
                && Open(node, t) && node.block(t, c.targetBlock) == Ok(Header(c.targetBlock, c.targetHash))
                && node.state(t, Header(c.targetBlock, c.targetHash)) == Ok(PoolState(v.count(c.targetBlock), v.root(c.targetBlock)))
                && |c.leaves| <= v.count(c.targetBlock)
    {
      if Ordered(v, pool) && FollowsView(v, pool, c) && ShowsDuring(node, v, from, until) {
        CountIsEnough(v, pool, c);
        assert Shows(node, v, t);
      }
    }

    /** What a failed attempt leaves behind, by error code. */
    method Recover(node: Node, code: Code, ghost chain: Chain) returns (r: Answer<Done>)
      requires Valid()
      modifies this
      ensures Valid() && old(clock) <= clock <= old(clock) + 2
      ensures code == Reorg ==> snapshot == candidate == None && checkpoint == None
      ensures code == IndexGap ==> checkpoint == None && snapshot == old(snapshot) && savedSnapshot == old(savedSnapshot)
      ensures code in {BudgetExhausted, IndexClosed} && r.Ok? && checkpoint.Some? ==> savedCheckpoint == checkpoint
      ensures code !in {Reorg, IndexGap} ==>
                snapshot == old(snapshot) && candidate == old(candidate) && checkpoint == old(checkpoint)
      ensures r.Ok? && code in {BudgetExhausted, IndexClosed} ==> error == old(error) && retryAt == node.now(clock) + 1_000
      ensures r.Ok? && code !in {BudgetExhausted, IndexClosed} ==> error && retryAt == node.now(clock) + 30_000
      ensures r.Fail? ==> error == old(error) && retryAt == old(retryAt)
      ensures Honest(chain, node) && old(Faithful(chain)) ==> Faithful(chain)
    {
      ghost var began := clock;
      if code == BudgetExhausted || code == IndexClosed {
        if checkpoint.Some? {
          r := SaveCheckpoint(node, checkpoint.value);
          KeepFaithful(node, chain, began);
          if r.Fail? {
            return;
          }
        }
        retryAt := node.now(clock) + CONTINUE_MS;
        return Ok(Done.Done);
      }
      if code == Reorg {
        r := Reset(node);
        KeepFaithful(node, chain, began);
        if r.Fail? {
          return;
        }
      }
      if code == IndexGap {
        checkpoint := None;
        r := RemoveCheckpoint(node);
        KeepFaithful(node, chain, began);
        if r.Fail? {
          return;
        }
      }
      error, retryAt := true, node.now(clock) + RETRY_MS;
      return Ok(Done.Done);
    }

    /** One queued job. It always ends, after a bounded number of requests. */
    method Sync(node: Node, ghost chain: Chain, ghost v: View)
      requires Valid()
      modifies this
      ensures Valid() && old(clock) <= clock <= old(clock) + 12 + 27 * maxChunks
      ensures retryAt - node.now(clock) in {60_000, 30_000, 1_000}
      ensures error && !old(error) ==> retryAt == node.now(clock) + 30_000
      ensures snapshot == old(snapshot) || (Honest(chain, node) ==> SeenWithin(chain, snapshot, old(clock), clock))
      ensures Honest(chain, node) && old(Faithful(chain)) ==> Faithful(chain)
      ensures Served(node, v, old(clock)) && old(StartsInView(v)) ==>
                && !error && (checkpoint.Some? ==> Saved() == old(Saved()) && savedSnapshot == old(savedSnapshot))
                && Outcome(node, v, old(Todo(v.top)), old(Saved()), old(checkpoint), old(savedSnapshot), old(savedCheckpoint))
    {
      var r := Attempt(node, chain, v);
      if r.Fail? {
        r := Recover(node, r.code, chain);
        if r.Fail? {
          error, retryAt := true, node.now(clock) + RETRY_MS;
        }
      }
    }

    /** Jobs that a scan of this many blocks needs at most: each job gets at least one block
        further for every chunk, and a scan without blocks left is still to be published. */
    function Jobs(blocks: int): nat
      requires 1 <= maxChunks
      decreases blocks
    {
      if blocks <= maxChunks then 1 else 1 + Jobs(blocks - maxChunks)
    }

    function JobsFor(todo: Option<Work>, top: int): nat
      requires 1 <= maxChunks
    {
      if todo.None? then 0
      else Jobs(todo.value.target - todo.value.from) + if todo.value.target < top then Jobs(top - todo.value.target) else 0
    }

    /** While the node serves and the head stays, jobs end with a snapshot at the head, within
        a number of jobs that the blocks left to scan determine. */
    method CatchUp(node: Node, chain: Chain, v: View, jobs: nat)
      requires Valid() && StartsInView(v) && 1 <= jobs && JobsFor(Todo(v.top), v.top) <= jobs
      requires forall t: nat :: clock <= t ==> Served(node, v, t)
      modifies this
      ensures Valid() && !error
      ensures snapshot.Some? && snapshot.value.asOfBlockNumber == v.top && InView(v, pool, snapshot.value)
      ensures Honest(chain, node) && old(Faithful(chain)) ==> Faithful(chain)
    {
      ghost var began := clock;
      for i := 0 to jobs
        invariant Valid() && began <= clock && StartsInView(v) && JobsFor(Todo(v.top), v.top) <= jobs - i
        invariant 0 < i ==> !error && (Todo(v.top).None? ==> snapshot.Some?)
        invariant Honest(chain, node) && old(Faithful(chain)) ==> Faithful(chain)
      {
        assert Served(node, v, clock);
        ServedJob(node, chain, v);
      }
    }

    /** One served job: what is kept stays in the view, and fewer jobs are left. */
    method ServedJob(node: Node, chain: Chain, v: View)
      requires Valid() && StartsInView(v) && Served(node, v, clock)
      modifies this
      ensures Valid() && !error && StartsInView(v) && old(clock) <= clock
      ensures if old(Todo(v.top)).None? then Todo(v.top).None? else JobsFor(Todo(v.top), v.top) < JobsFor(old(Todo(v.top)), v.top)
      ensures Todo(v.top).None? ==> snapshot.Some?
      ensures Honest(chain, node) && old(Faithful(chain)) ==> Faithful(chain)
    {
      ghost var todo, base := Todo(v.top), Saved();
      Sync(node, chain, v);
      if todo.Some? { AfterWork(node, v, todo.value, base); }
    }

    lemma AfterWork(node: Node, v: View, w: Work, base: Option<Snapshot>)
      requires Valid() && Achieved(node, v, w.from, w.target) && w.from <= w.target <= v.top
      requires checkpoint.Some? ==> Saved() == base
      requires base.Some? ==> InView(v, pool, base.value) && base.value.asOfBlockNumber <= w.target
      ensures StartsInView(v) && JobsFor(Todo(v.top), v.top) < JobsFor(Some(w), v.top)
      ensures Todo(v.top).None? ==> snapshot.Some?
    {
      if checkpoint.Some? { FewerJobs(w, checkpoint.value.scannedBlock); }
    }

    lemma {:induction false} JobsGrow(a: int, b: int)
      requires 1 <= maxChunks && a <= b
      ensures 1 <= Jobs(a) <= Jobs(b)
      decreases b
    {
      if maxChunks < a { JobsGrow(a - maxChunks, b - maxChunks); }
    }

    lemma FewerJobs(w: Work, scanned: int)
      requires 1 <= maxChunks && w.from + maxChunks <= scanned < w.target
      ensures Jobs(w.target - scanned) < Jobs(w.target - w.from)
    {
      JobsGrow(w.target - scanned, w.target - w.from - maxChunks);
    }

    /** A node that serves the chain serves the view below its head, and what was kept from the
        branch of that head belongs to this view. */
    lemma ServedStart(node: Node, chain: Chain, head: Header)
      requires Valid() && Faithful(chain) && Serves(chain, node, pool, clock, clock + LIMIT) && node.head(clock) == Ok(head)
      requires Saved().Some? ==> Saved().value.asOfBlockNumber <= head.number
                                 && Shown(chain, Saved().value.asOfBlockNumber, Saved().value.asOfBlockHash, clock)
      requires Unfinished(Saved()).Some? ==> Unfinished(Saved()).value.targetBlock <= head.number
                                             && Shown(chain, Unfinished(Saved()).value.targetBlock, Unfinished(Saved()).value.targetHash, clock)
      ensures Served(node, ViewBelow(chain, pool, head.number, head.hash), clock)
      ensures StartsInView(ViewBelow(chain, pool, head.number, head.hash))
    {
      var v := ViewBelow(chain, pool, head.number, head.hash);
      assert Shown(chain, head.number, head.hash, clock);
      forall t: nat | clock <= t <= clock + LIMIT
        ensures Shows(node, v, t)
      {
        ServedShows(chain, node, pool, clock, clock + LIMIT, head.number, head.hash, t);
      }
      ServedIsOrdered(chain, node, pool, clock, clock + LIMIT, head.number, head.hash);
      assert ServedAt(chain, node, pool, clock);
      if Saved().Some? { FoldIsInView(chain, pool, Saved().value, head.number, head.hash, clock); }
      if Unfinished(Saved()).Some? { AgreedFollowsView(chain, pool, Unfinished(Saved()).value, head.number, head.hash, clock); }
    }

    const NOTHING := View(0, (n: int) => 0, (a: int, b: int) => [], (n: int) => 0, (n: int) => 0)

    /** Any life of the index: jobs and process restarts in any order. A crash in the middle
        of a job is a job whose remaining requests and file operations fail, followed by a
        restart. */
    method Life(node: Node, script: seq<Happening>, ghost chain: Chain)
      requires Valid()
      modifies this
      ensures Valid()
      ensures Honest(chain, node) && old(Faithful(chain)) ==> Faithful(chain)
      ensures Honest(chain, node) && old(Faithful(chain)) && chain.Fixed() && checkpoint.Some? ==>
                Agrees(chain, pool, checkpoint.value)
      ensures Honest(chain, node) && old(Faithful(chain)) && chain.Fixed() && savedCheckpoint.Some? ==>
                Agrees(chain, pool, savedCheckpoint.value)
      ensures Honest(chain, node) && old(Faithful(chain)) ==>
                FoldOf(chain, snapshot) && FoldOf(chain, candidate) && FoldOf(chain, savedSnapshot)
    {
      for i := 0 to |script|
        invariant Valid()
        invariant Honest(chain, node) && old(Faithful(chain)) ==> Faithful(chain)
      {
        match script[i]
        case Job => Sync(node, chain, NOTHING);
        case Crash(snapshotReadable, checkpointReadable) => Restart(snapshotReadable, checkpointReadable, chain);
      }
      if Honest(chain, node) && old(Faithful(chain)) && chain.Fixed() {
        if checkpoint.Some? { FixedChainAgrees(chain, pool, checkpoint.value, clock); }
        if savedCheckpoint.Some? { FixedChainAgrees(chain, pool, savedCheckpoint.value, clock); }
      }
    }
  }

  /** A stretch of blocks to scan: everything behind from, up to target. */
  datatype Work = Work(from: int, target: int)

  datatype Happening = Job | Crash(snapshotReadable: bool, checkpointReadable: bool)
}
