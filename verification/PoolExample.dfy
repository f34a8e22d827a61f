/** An environment that meets the assumptions of the branch theorems: a chain that grows with
    the clock and, if wanted, replaces all blocks from the fifth on at moment ten. */
module PoolExample {
  import opened Answers
  import opened PoolChain
  import opened PoolRows
  import PoolService

  const FORK := 5
  const SWITCH := 10

  function Example(reorganises: bool): Chain {
    Chain((h: Hash, n: int) => if n < 0 then 0 else if h % 2 == 1 && FORK <= n then 2 * n + 1 else 2 * n,
          (h: Hash) => [Row(h / 2, h, 0, h, 0, Deposit(h, h / 2))],
          (h: Hash) => h % FIELD_SIZE,
          (t: nat, n: int) => if n < 0 || t < n then None
                              else if reorganises && SWITCH <= t && FORK <= n then Some(2 * n + 1) else Some(2 * n))
  }

  function Limit(t: nat): BlockNumber { if t <= MAX_SAFE_INTEGER then t else MAX_SAFE_INTEGER }

  function Hashed(chain: Chain, t: nat, n: int): Answer<Header> {
    if 0 <= n <= MAX_SAFE_INTEGER && chain.canon(t, n).Some? then Ok(Header(n, chain.canon(t, n).value)) else Fail(RpcRejected)
  }

  /** A node that shows this chain and never fails. */
  function Shows(chain: Chain): Node {
    Node((t: nat) => Hashed(chain, t, Limit(t)),
         (t: nat, n: int) => Hashed(chain, t, n),
         (t: nat, h: Header) => Ok(PoolState(h.number + 1, chain.root(h.hash))),
         (t: nat, first: int, last: int) =>
           if chain.canon(t, last).Some? then Ok(chain.LogsOf(chain.canon(t, last).value, first, last)) else Fail(RpcRejected),
         (t: nat) => true, (t: nat) => false, (t: nat) => false, (t: nat) => t)
  }

  lemma ExampleIsTree(reorganises: bool)
    ensures Example(reorganises).IsTree() && Example(reorganises).NeverReturns()
  {
  }

  lemma ExampleIsHonest(reorganises: bool)
    ensures Honest(Example(reorganises), Shows(Example(reorganises)))
  {
    ExampleIsTree(reorganises);
  }

  /** The assumptions are met both with and without a reorganisation, by a node that answers
      every request; and a reorganisation changes the events of blocks already shown. */
  lemma HonestIsPossible(reorganises: bool)
    ensures var chain, node := Example(reorganises), Shows(Example(reorganises));
            && Honest(chain, node)
            && (chain.Fixed() <==> !reorganises)
            && (forall t: nat :: node.head(t).Ok?)
            && (reorganises ==> node.events(9, 6, 6).Ok? && node.events(10, 6, 6).Ok?
                                && node.events(9, 6, 6).value != node.events(10, 6, 6).value)
  {
    ExampleIsHonest(reorganises);
    var chain := Example(reorganises);
    if reorganises {
      assert chain.canon(9, 6) == Some(12) && chain.canon(10, 6) == Some(13);
      assert chain.LogsOf(12, 6, 6) == chain.LogsOf(12, 6, 5) + chain.logs(12);
      assert chain.LogsOf(13, 6, 6) == chain.LogsOf(13, 6, 5) + chain.logs(13);
      assert chain.LogsOf(12, 6, 6)[0].blockHash == 12 && chain.LogsOf(13, 6, 6)[0].blockHash == 13;
    }
  }

  // ---------------------------------------------------------------- a node that serves

  function RowAt(i: nat): Row { Row(i, 2 * i, 0, 2 * i, 0, Deposit(2 * i, i)) }

  lemma {:induction false} HistoryOf(h: Hash, n: nat)
    requires h % 2 == 0
    ensures var rows := Example(false).LogsOf(h, 0, n); |rows| == n + 1 && forall i :: 0 <= i <= n ==> rows[i] == RowAt(i)
  {
    var chain := Example(false);
    assert chain.logs(chain.ancestor(h, n)) == [RowAt(n)];
    if 0 < n { HistoryOf(h, n - 1); } else { assert chain.LogsOf(h, 0, -1) == []; }
  }

  lemma {:induction false} LeavesOf(rows: seq<Row>)
    requires forall i :: 0 <= i < |rows| ==> rows[i] == RowAt(i)
    ensures Withdrawals(rows) == [] && |Deposits(rows)| == |rows| && forall i :: 0 <= i < |rows| ==> Deposits(rows)[i] == 2 * i
  {
    if rows != [] { LeavesOf(rows[..|rows| - 1]); }
  }

  lemma HistoryIsSound(pool: Pool, n: BlockNumber)
    requires pool.deploymentBlock == 0 && n < MAX_LEAVES
    ensures PoolService.Sound(Example(false), pool, 2 * n, n) && |Deposits(PoolService.History(Example(false), pool, 2 * n, n))| == n + 1
  {
    var rows := Example(false).LogsOf(2 * n, 0, n);
    HistoryOf(2 * n, n);
    LeavesOf(rows);
    var whole := PoolService.Whole(Example(false), pool, 2 * n, n);
    forall k: nat | k < |rows|
      ensures Admissible(rows, k, whole)
    {
      LeavesOf(rows[..k]);
      assert rows[k] == RowAt(k) && (0 < k ==> rows[k - 1] == RowAt(k - 1));
    }
  }

  /** The assumptions on a node that serves are met, for as long as the pool's tree has room for
      one deposit a block. */
  lemma ServiceIsPossible(address: string, until: nat)
    requires until < MAX_LEAVES
    ensures PoolService.Serves(Example(false), Shows(Example(false)), Pool(address, 0), 0, until)
  {
    ExampleIsHonest(false);
    var chain, node, pool := Example(false), Shows(Example(false)), Pool(address, 0);
    forall t: nat | t <= until
      ensures PoolService.ServedAt(chain, node, pool, t)
    {
      forall n: BlockNumber | chain.canon(t, n).Some?
        ensures chain.canon(t, n).value == 2 * n && PoolService.Sound(chain, pool, 2 * n, n)
        ensures |Deposits(PoolService.History(chain, pool, 2 * n, n))| == n + 1
      {
        HistoryIsSound(pool, n);
      }
    }
  }
}
