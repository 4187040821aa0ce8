/**
 * computeTxEnv: rebuilding the state a transaction of a block runs against,
 * by replaying the transactions before it on the parent block's state.
 */
module TxEnv {
  import opened Common
  import opened Wrappers
  import opened Tries
  import opened Errors
  import opened Chain

  /** The outcome of executing one transaction: the state after it, or the VM's error text. */
  datatype Applied<S> = Applied(state: S) | Failed(reason: string)

  /**
   * The state-transition collaborators, as functions of the state S:
   * apply stands for tx.AsMessage, core.NewEVMContext, vm.NewEVM and
   * core.ApplyMessage with a gas pool of tx.Gas(); deleteSuicides for
   * StateDB.DeleteSuicides; storageTrie for StateDB.StorageTrie.
   */
  datatype Executor<!S> = Executor(
    apply: (Header, S, Transaction) -> Applied<S>,
    deleteSuicides: S -> S,
    storageTrie: (S, Address) -> Option<Trie>)

  /** Replaying a list of transactions: the final state, or the first failing transaction. */
  datatype Replayed<S> = Replayed(state: S) | Aborted(txHash: Hash, reason: string)

  /** Executes txs in order from s, purging self-destructed accounts after each, stopping at the first failure. */
  function Replay<S>(ex: Executor<S>, header: Header, s: S, txs: seq<Transaction>): Replayed<S>
  {
    if txs == [] then Replayed(s)
    else match ex.apply(header, s, txs[0])
      case Failed(why) => Aborted(txs[0].hash, why)
      case Applied(s1) => Replay(ex, header, ex.deleteSuicides(s1), txs[1..])
  }

  /** One more transaction: replaying a + [t] is replaying a, then executing and purging t. */
  lemma {:induction false} ReplaySnoc<S>(ex: Executor<S>, header: Header, s: S, a: seq<Transaction>, t: Transaction)
    ensures Replay(ex, header, s, a + [t]) ==
      match Replay(ex, header, s, a)
      case Aborted(h, why) => Aborted(h, why)
      case Replayed(s1) =>
        match ex.apply(header, s1, t)
        case Failed(why) => Aborted(t.hash, why)
        case Applied(s2) => Replayed(ex.deleteSuicides(s2))
  {
    if a == [] {
      assert a + [t] == [t];
    } else {
      assert (a + [t])[0] == a[0] && (a + [t])[1..] == a[1..] + [t];
      match ex.apply(header, s, a[0])
      case Failed(why) =>
      case Applied(s1) => ReplaySnoc(ex, header, ex.deleteSuicides(s1), a[1..], t);
    }
  }

  /** Once a replay has aborted, the transactions after the failing one change nothing. */
  lemma {:induction false} ReplayAbortSticks<S>(ex: Executor<S>, header: Header, s: S, a: seq<Transaction>, b: seq<Transaction>)
    requires Replay(ex, header, s, a).Aborted?
    ensures Replay(ex, header, s, a + b) == Replay(ex, header, s, a)
  {
    assert (a + b)[0] == a[0] && (a + b)[1..] == a[1..] + b;
    match ex.apply(header, s, a[0])
    case Failed(why) =>
    case Applied(s1) => ReplayAbortSticks(ex, header, ex.deleteSuicides(s1), a[1..], b);
  }

  /** An aborted replay names the first transaction that failed, after every earlier one succeeded. */
  lemma {:induction false} ReplayAbortIsFirstFailure<S>(ex: Executor<S>, header: Header, s: S, txs: seq<Transaction>)
    requires Replay(ex, header, s, txs).Aborted?
    ensures exists j ::
              && 0 <= j < |txs|
              && txs[j].hash == Replay(ex, header, s, txs).txHash
              && Replay(ex, header, s, txs[..j]).Replayed?
              && ex.apply(header, Replay(ex, header, s, txs[..j]).state, txs[j]) == Failed(Replay(ex, header, s, txs).reason)
  {
    var r := Replay(ex, header, s, txs);
    assert txs[..0] == [];
    match ex.apply(header, s, txs[0])
    case Failed(why) =>
      assert txs[0].hash == r.txHash && Replay(ex, header, s, txs[..0]) == Replayed(s);
    case Applied(s1) =>
      var rest := txs[1..];
      var s2 := ex.deleteSuicides(s1);
      ReplayAbortIsFirstFailure(ex, header, s2, rest);
      var j :| 0 <= j < |rest| && rest[j].hash == r.txHash
        && Replay(ex, header, s2, rest[..j]).Replayed?
        && ex.apply(header, Replay(ex, header, s2, rest[..j]).state, rest[j]) == Failed(r.reason);
      assert txs[..j + 1][0] == txs[0] && txs[..j + 1][1..] == rest[..j];
      assert txs[j + 1] == rest[j];
  }

  /**
   * The environment of a transaction: its message (the transaction itself,
   * AsMessage being an opaque conversion), the header its EVM context is
   * derived from, and the state it executes against.
   */
  datatype TxEnv<S> = TxEnv(msg: Transaction, context: Header, state: S)

  /**
   * The state database: the state snapshots it can open by root, and the
   * empty state, which a state over an empty account trie is.
   */
  datatype StateStore<S> = StateStore(snapshots: map<Hash, S>, empty: S)

  /**
   * BlockChain.StateAt: the state rooted at a state root. Its account trie is
   * opened by trie.New, so the zero hash and the empty-trie root open as the
   * empty state without a lookup; any other root must be stored.
   */
  function StateAt<S>(states: StateStore<S>, root: Hash): (r: Result<S>)
    ensures IsEmptyRoot(root) ==> r == Ok(states.empty)
    ensures !IsEmptyRoot(root) ==> (r.Ok? <==> root in states.snapshots)
    ensures !IsEmptyRoot(root) && r.Ok? ==> r.value == states.snapshots[root]
    ensures r.Err? ==> r.error == MissingRoot(root)
  {
    if IsEmptyRoot(root) then Ok(states.empty)
    else if root in states.snapshots then Ok(states.snapshots[root])
    else Err(MissingRoot(root))
  }

  /**
   * What computeTxEnv returns for (blockHash, txIndex): the block and its
   * parent must exist and the parent's state be available; for an index inside
   * the block, the state after replaying the transactions before it; for any
   * other index, out-of-range once every transaction has replayed. A failing
   * replay reports the failing transaction.
   */
  function TxEnvAt<S>(chain: ChainView, states: StateStore<S>, ex: Executor<S>, blockHash: Hash, txIndex: int): Result<TxEnv<S>>
  {
    match chain.GetBlockByHash(blockHash)
    case None => Err(BlockNotFound(blockHash))
    case Some(block) =>
      match chain.GetBlock(block.header.parentHash, Pred64(block.header.number))
      case None => Err(ParentNotFound(block.header.parentHash))
      case Some(parent) =>
        match StateAt(states, parent.header.root)
        case Err(e) => Err(e)
        case Ok(s0) =>
          var txs := block.txs;
          if 0 <= txIndex < |txs| then
            match Replay(ex, block.header, s0, txs[..txIndex])
            case Aborted(h, why) => Err(TxFailed(h, why))
            case Replayed(s) => Ok(TxEnv(txs[txIndex], block.header, s))
          else
            match Replay(ex, block.header, s0, txs)
            case Aborted(h, why) => Err(TxFailed(h, why))
            case Replayed(_) => Err(TxIndexOutOfRange(txIndex, blockHash))
  }

  method ComputeTxEnv<S>(chain: ChainView, states: StateStore<S>, ex: Executor<S>, blockHash: Hash, txIndex: int)
    returns (r: Result<TxEnv<S>>)
    ensures r == TxEnvAt(chain, states, ex, blockHash, txIndex)
  {
    var block := chain.GetBlockByHash(blockHash);
    if block.None? {
      return Err(BlockNotFound(blockHash));
    }
    var header := block.value.header;
    var parent := chain.GetBlock(header.parentHash, Pred64(header.number));
    if parent.None? {
      return Err(ParentNotFound(header.parentHash));
    }
    var st := StateAt(states, parent.value.header.root);
    if st.Err? {
      return Err(st.error);
    }
    ghost var s0 := st.value;
    var statedb := st.value;
    var txs := block.value.txs;

    var idx := 0;
    while idx < |txs|
      invariant 0 <= idx <= |txs|
      invariant !(0 <= txIndex < idx)
      invariant Replay(ex, header, s0, txs[..idx]) == Replayed(statedb)
    {
      var tx := txs[idx];
      if idx == txIndex {
        return Ok(TxEnv(tx, header, statedb));
      }
      ReplaySnoc(ex, header, s0, txs[..idx], tx);
      assert txs[..idx + 1] == txs[..idx] + [tx];
      var res := ex.apply(header, statedb, tx);
      if res.Failed? {
        var rest := if 0 <= txIndex < |txs| then txs[idx + 1..txIndex] else txs[idx + 1..];
        ReplayAbortSticks(ex, header, s0, txs[..idx + 1], rest);
        assert txs[..idx + 1] + rest == if 0 <= txIndex < |txs| then txs[..txIndex] else txs;
        return Err(TxFailed(tx.hash, res.reason));
      }
      statedb := ex.deleteSuicides(res.state);
      idx := idx + 1;
    }
    assert txs[..idx] == txs;
    return Err(TxIndexOutOfRange(txIndex, blockHash));
  }

  /**
   * The environment of transaction k+1 is the environment of transaction k
   * with transaction k executed and self-destructed accounts purged.
   */
  lemma TxEnvAdvance<S>(chain: ChainView, states: StateStore<S>, ex: Executor<S>, blockHash: Hash, k: nat, s1: S)
    requires TxEnvAt(chain, states, ex, blockHash, k).Ok?
    requires k + 1 < |chain.blocks[blockHash].txs|
    requires ex.apply(chain.blocks[blockHash].header, TxEnvAt(chain, states, ex, blockHash, k).value.state,
                      chain.blocks[blockHash].txs[k]) == Applied(s1)
    ensures TxEnvAt(chain, states, ex, blockHash, k + 1)
         == Ok(TxEnv(chain.blocks[blockHash].txs[k + 1], chain.blocks[blockHash].header, ex.deleteSuicides(s1)))
  {
    var block := chain.blocks[blockHash];
    var parent := chain.GetBlock(block.header.parentHash, Pred64(block.header.number)).value;
    var s0 := StateAt(states, parent.header.root).value;
    var txs := block.txs;
    ReplaySnoc(ex, block.header, s0, txs[..k], txs[k]);
    assert txs[..k + 1] == txs[..k] + [txs[k]];
  }

  /**
   * Out of range is reported exactly for an index outside the block, and only
   * once every transaction of the block has replayed successfully.
   */
  lemma TxEnvOutOfRange<S>(chain: ChainView, states: StateStore<S>, ex: Executor<S>, blockHash: Hash, txIndex: int, parent: Block)
    requires blockHash in chain.blocks
    requires chain.GetBlock(chain.blocks[blockHash].header.parentHash, Pred64(chain.blocks[blockHash].header.number)) == Some(parent)
    requires StateAt(states, parent.header.root).Ok?
    ensures TxEnvAt(chain, states, ex, blockHash, txIndex) == Err(TxIndexOutOfRange(txIndex, blockHash))
        <==> (txIndex < 0 || txIndex >= |chain.blocks[blockHash].txs|)
             && Replay(ex, chain.blocks[blockHash].header, StateAt(states, parent.header.root).value,
                       chain.blocks[blockHash].txs).Replayed?
  {
  }
}
