/** What the pool indexer reads: log rows, block headers and the node that answers for
    them. A node is a family of answers indexed by the moment of the request, so one
    value of type Node is one arbitrary environment: reorganisations, outages, budget
    exhaustion, storage faults and crashes included. */
module PoolChain {
  import opened Answers

  const MAX_LEAVES: int := 0x10_0000
  const FIELD_SIZE: int := 21888242871839275222246405745257275088548364400416034343698204186575808495617
  const MAX_SAFE_INTEGER: int := 0x1F_FFFF_FFFF_FFFF

  type Hash = nat
  /** Block numbers leave the RPC layer only as non-negative safe integers. */
  type BlockNumber = n: int | 0 <= n <= MAX_SAFE_INTEGER

  datatype Event =
    | Deposit(leaf: nat, leafIndex: nat)
    | Withdrawal(nullifierHash: nat)
    | UnknownKind

  datatype Row = Row(blockNumber: nat, blockHash: Hash, txIndex: nat, txHash: Hash, logIndex: nat, event: Event)

  datatype Header = Header(number: BlockNumber, hash: Hash)

  /** The RPC layer rejects a root outside the field before it is returned. */
  type FieldElement = w: int | 0 <= w < FIELD_SIZE

  datatype PoolState = PoolState(nextIndex: nat, root: FieldElement)

  datatype Pool = Pool(address: string, deploymentBlock: BlockNumber)

  /** Answers by moment. stores(t) tells whether the file operation issued at t succeeds. */
  datatype Node = Node(
    head: nat -> Answer<Header>,
    block: (nat, int) -> Answer<Header>,
    state: (nat, Header) -> Answer<PoolState>,
    events: (nat, int, int) -> Answer<seq<Row>>,
    stores: nat -> bool,
    closed: nat -> bool,
    expired: nat -> bool,
    now: nat -> int)

  // ---------------------------------------------------------------- the simple fold

  function Deposits(rows: seq<Row>): seq<nat> {
    if rows == [] then []
    else
      var last := rows[|rows| - 1];
      var before := Deposits(rows[..|rows| - 1]);
      if last.event.Deposit? then before + [last.event.leaf] else before
  }

  function Withdrawals(rows: seq<Row>): seq<nat> {
    if rows == [] then []
    else
      var last := rows[|rows| - 1];
      var before := Withdrawals(rows[..|rows| - 1]);
      if last.event.Withdrawal? then before + [last.event.nullifierHash] else before
  }

  lemma {:induction false} FoldConcat(a: seq<Row>, b: seq<Row>)
    ensures Deposits(a + b) == Deposits(a) + Deposits(b)
    ensures Withdrawals(a + b) == Withdrawals(a) + Withdrawals(b)
  {
    if b == [] {
      assert a + b == a;
    } else {
      var prefix := b[..|b| - 1];
      assert (a + b)[..|a + b| - 1] == a + prefix;
      FoldConcat(a, prefix);
    }
  }

  // ---------------------------------------------------------------- the canonical history

  /** A block tree and its canonical branch over time: parentage, logs and the pool's root are
      fixed by the block hash; canon(t, n) is the hash the node shows at height n at moment t. */
  datatype Chain = Chain(
    ancestor: (Hash, int) -> Hash,
    logs: Hash -> seq<Row>,
    root: Hash -> FieldElement,
    canon: (nat, int) -> Option<Hash>)
  {
    /** A block hash fixes its whole history, and the branch shown at any moment is one history. */
    ghost predicate IsTree() {
      && (forall t: nat, n: int, m: int :: 0 <= m <= n && canon(t, n).Some? ==>
            canon(t, m) == Some(ancestor(canon(t, n).value, m)))
      && (forall h: Hash, n: int, m: int :: 0 <= m <= n ==> ancestor(ancestor(h, n), m) == ancestor(h, m))
    }

    /** A block that has been abandoned is never shown again. */
    ghost predicate NeverReturns() {
      forall t1: nat, t2: nat, t3: nat, n: int, h: Hash ::
        t1 <= t2 <= t3 && canon(t1, n) == Some(h) && canon(t3, n) == Some(h) ==> canon(t2, n) == Some(h)
    }

    /** A block once shown stays. */
    ghost predicate Fixed() {
      forall t: nat, u: nat, n: int :: t <= u && canon(t, n).Some? ==> canon(u, n) == canon(t, n)
    }

    /** All log rows of blocks first..last in the history of block h. */
    function LogsOf(h: Hash, first: int, last: int): seq<Row>
      decreases last - first + 1
    {
      if last < first then [] else LogsOf(h, first, last - 1) + logs(ancestor(h, last))
    }

    lemma {:induction false} LogsOfSplit(h: Hash, first: int, mid: int, last: int)
      requires first - 1 <= mid <= last
      ensures LogsOf(h, first, last) == LogsOf(h, first, mid) + LogsOf(h, mid + 1, last)
      decreases last - mid
    {
      if mid < last {
        LogsOfSplit(h, first, mid, last - 1);
      } else {
        assert LogsOf(h, first, mid) + [] == LogsOf(h, first, mid);
      }
    }

    /** Logs below a block are the same seen from any of its descendants. */
    lemma {:induction false} LogsOfAncestor(h: Hash, n: int, first: int, last: int)
      requires IsTree() && 0 <= first && last <= n
      ensures LogsOf(ancestor(h, n), first, last) == LogsOf(h, first, last)
      decreases last - first + 1
    {
      if first <= last {
        LogsOfAncestor(h, n, first, last - 1);
        assert ancestor(ancestor(h, n), last) == ancestor(h, last);
      }
    }
  }

  /** The node shows the chain: every header it returns is canonical at that moment, and
      a log query up to a shown block returns exactly the rows of that history, and the state
      read at a shown block has that block's root. */
  ghost predicate Honest(chain: Chain, node: Node) {
    && chain.IsTree()
    && chain.NeverReturns()
    && (forall t: nat, n: int :: 0 <= n && node.block(t, n).Ok? && node.block(t, n).value.number == n ==>
          chain.canon(t, n) == Some(node.block(t, n).value.hash))
    && (forall t: nat :: node.head(t).Ok? ==> chain.canon(t, node.head(t).value.number) == Some(node.head(t).value.hash))
    && (forall t: nat, h: Header :: node.state(t, h).Ok? && chain.canon(t, h.number) == Some(h.hash) ==>
          node.state(t, h).value.root == chain.root(h.hash))
    && (forall t: nat, first: int, last: int :: node.events(t, first, last).Ok? && chain.canon(t, last).Some? ==>
          node.events(t, first, last).value == chain.LogsOf(chain.canon(t, last).value, first, last))
  }
}
