/**
 * debug_getModifiedAccountsByNumber / debug_getModifiedAccountsByHash: the
 * addresses of the accounts whose state leaf differs between the state
 * tries of two blocks, recovered from the hashed trie keys through the
 * preimage table.
 */
module ModifiedAccounts {
  import opened Common
  import opened Wrappers
  import opened Tries
  import opened Errors
  import opened Chain

  /**
   * The addresses of the changed leaves, in iteration order, or the error
   * for the first hashed key whose preimage is unknown.
   */
  function Dirty(db: TrieDb, diff: seq<Entry>): Result<seq<Address>>
  {
    if diff == [] then Ok([])
    else match Preimage(db, diff[0].key)
      case None => Err(NoPreimage(diff[0].key))
      case Some(p) =>
        match Dirty(db, diff[1..])
        case Err(e) => Err(e)
        case Ok(rest) => Ok([BytesToAddress(p)] + rest)
  }

  /** Addresses already collected in front of what remains to be collected. */
  function Prefixed(xs: seq<Address>, r: Result<seq<Address>>): Result<seq<Address>>
  {
    match r
    case Ok(ys) => Ok(xs + ys)
    case Err(e) => Err(e)
  }

  /** The collection succeeds exactly when every changed key has a known preimage. */
  lemma {:induction false} DirtyOk(db: TrieDb, diff: seq<Entry>)
    ensures Dirty(db, diff).Ok? <==> forall k :: 0 <= k < |diff| ==> diff[k].key in db.preimages
  {
    if diff != [] {
      DirtyOk(db, diff[1..]);
      assert forall k :: 1 <= k < |diff| ==> diff[k] == diff[1..][k - 1];
    }
  }

  /** On success the k-th address is the preimage of the k-th changed key, cut to 20 bytes. */
  lemma {:induction false} DirtyElements(db: TrieDb, diff: seq<Entry>)
    requires Dirty(db, diff).Ok?
    ensures |Dirty(db, diff).value| == |diff|
    ensures forall k :: 0 <= k < |diff| ==>
      diff[k].key in db.preimages && Dirty(db, diff).value[k] == BytesToAddress(db.preimages[diff[k].key])
  {
    if diff != [] {
      DirtyElements(db, diff[1..]);
      var r := Dirty(db, diff).value;
      assert r == [BytesToAddress(db.preimages[diff[0].key])] + Dirty(db, diff[1..]).value;
      forall k | 1 <= k < |diff|
        ensures diff[k].key in db.preimages && r[k] == BytesToAddress(db.preimages[diff[k].key])
      {
        assert diff[k] == diff[1..][k - 1];
      }
    }
  }

  /** On failure the error names the first changed key without a preimage, and no partial list is returned. */
  lemma {:induction false} DirtyError(db: TrieDb, diff: seq<Entry>)
    requires Dirty(db, diff).Err?
    ensures exists k :: (0 <= k < |diff| && diff[k].key !in db.preimages
      && Dirty(db, diff).error == NoPreimage(diff[k].key)
      && forall j :: 0 <= j < k ==> diff[j].key in db.preimages)
  {
    if diff[0].key in db.preimages {
      DirtyError(db, diff[1..]);
      var k :| 0 <= k < |diff[1..]| && diff[1..][k].key !in db.preimages
        && Dirty(db, diff[1..]).error == NoPreimage(diff[1..][k].key)
        && forall j :: 0 <= j < k ==> diff[1..][j].key in db.preimages;
      forall j | 0 <= j < k + 1 ensures diff[j].key in db.preimages {
        if j > 0 { assert diff[j] == diff[1..][j - 1]; }
      }
      assert diff[k + 1] == diff[1..][k];
    }
  }

  /**
   * getModifiedAccounts: the start block must be lower than the end block,
   * both state tries must open, and the changed leaves are collected.
   */
  function AccountsBetween(db: TrieDb, start: Header, end: Header): Result<seq<Address>>
  {
    if start.number >= end.number then Err(HeightOrder(start.number, end.number))
    else match OpenTrie(db, start.root)
      case Err(e) => Err(e)
      case Ok(oldTrie) =>
        match OpenTrie(db, end.root)
        case Err(e) => Err(e)
        case Ok(newTrie) => Dirty(db, Difference(oldTrie, newTrie))
  }

  /**
   * The reported addresses are exactly those of the leaves the newer state
   * holds that the older one lacks or holds with another value.
   */
  lemma AccountsBetweenMeaning(db: TrieDb, start: Header, end: Header)
    requires AccountsBetween(db, start, end).Ok?
    ensures start.number < end.number && HasTrie(db, start.root) && HasTrie(db, end.root)
    ensures forall a :: a in AccountsBetween(db, start, end).value <==>
      exists e :: e in TrieAt(db, end.root) && Get(TrieAt(db, start.root), e.key) != Some(e.value)
        && e.key in db.preimages && a == BytesToAddress(db.preimages[e.key])
  {
    var oldTrie, newTrie := TrieAt(db, start.root), TrieAt(db, end.root);
    var diff := Difference(oldTrie, newTrie);
    var r := AccountsBetween(db, start, end).value;
    assert Dirty(db, diff).Ok? && r == Dirty(db, diff).value;
    DirtyElements(db, diff);
    DifferenceMembers(oldTrie, newTrie);
    forall a ensures a in r <==>
      exists e :: e in newTrie && Get(oldTrie, e.key) != Some(e.value)
        && e.key in db.preimages && a == BytesToAddress(db.preimages[e.key])
    {
      if a in r {
        var k :| 0 <= k < |r| && r[k] == a;
        assert diff[k] in diff;
      }
      if exists e :: (e in newTrie && Get(oldTrie, e.key) != Some(e.value)
        && e.key in db.preimages && a == BytesToAddress(db.preimages[e.key]))
      {
        var e :| e in newTrie && Get(oldTrie, e.key) != Some(e.value)
          && e.key in db.preimages && a == BytesToAddress(db.preimages[e.key]);
        assert e in diff;
        var k :| 0 <= k < |diff| && diff[k] == e;
        assert r[k] == a;
      }
    }
  }

  /** Two blocks with the same state root differ in no account. */
  lemma AccountsSameRoot(db: TrieDb, start: Header, end: Header)
    requires start.number < end.number && start.root == end.root && HasTrie(db, start.root)
    ensures AccountsBetween(db, start, end) == Ok([])
  {
    DifferenceOfSame(TrieAt(db, start.root));
  }

  /**
   * An account whose leaf the newer state no longer holds is not reported:
   * every address comes from a leaf of another key.
   */
  lemma AccountsOmitDeleted(db: TrieDb, start: Header, end: Header, k: Hash)
    requires AccountsBetween(db, start, end).Ok?
    requires HasTrie(db, start.root) && HasTrie(db, end.root)
    requires Get(TrieAt(db, start.root), k).Some? && Get(TrieAt(db, end.root), k).None?
    ensures forall i :: 0 <= i < |AccountsBetween(db, start, end).value| ==>
      exists e :: e in TrieAt(db, end.root) && e.key != k && e.key in db.preimages
        && AccountsBetween(db, start, end).value[i] == BytesToAddress(db.preimages[e.key])
  {
    var oldTrie, newTrie := TrieAt(db, start.root), TrieAt(db, end.root);
    var diff := Difference(oldTrie, newTrie);
    var r := AccountsBetween(db, start, end).value;
    assert r == Dirty(db, diff).value;
    DirtyElements(db, diff);
    DifferenceMembers(oldTrie, newTrie);
    DifferenceOmitsDeleted(oldTrie, newTrie, k);
    forall i | 0 <= i < |r|
      ensures exists e :: (e in newTrie && e.key != k && e.key in db.preimages
        && r[i] == BytesToAddress(db.preimages[e.key]))
    {
      assert diff[i] in diff;
    }
  }

  /** The leaves the difference iterator yields between the state tries of two headers. */
  function ChangedLeaves(db: TrieDb, start: Header, end: Header): seq<Entry>
    requires HasTrie(db, start.root) && HasTrie(db, end.root)
  {
    Difference(TrieAt(db, start.root), TrieAt(db, end.root))
  }

  /** The first missing preimage, in trie order, is the one reported. */
  lemma AccountsMissingPreimage(db: TrieDb, start: Header, end: Header)
    requires start.number < end.number && HasTrie(db, start.root) && HasTrie(db, end.root)
    requires AccountsBetween(db, start, end).Err?
    ensures exists k :: (0 <= k < |ChangedLeaves(db, start, end)|
      && ChangedLeaves(db, start, end)[k].key !in db.preimages
      && AccountsBetween(db, start, end).error == NoPreimage(ChangedLeaves(db, start, end)[k].key)
      && forall j :: 0 <= j < k ==> ChangedLeaves(db, start, end)[j].key in db.preimages)
  {
    var diff := ChangedLeaves(db, start, end);
    assert AccountsBetween(db, start, end) == Dirty(db, diff);
    DirtyError(db, diff);
  }

  /**
   * The leaf loop of getModifiedAccounts: walk the difference iterator and
   * collect the preimage of every key, failing at the first unknown one.
   */
  method CollectDirty(db: TrieDb, it: Iterator) returns (r: Result<seq<Address>>)
    modifies it
    ensures r == Dirty(db, old(it.rest))
  {
    ghost var diff := it.rest;
    ghost var i := 0;
    var dirty: seq<Address> := [];
    assert diff[i..] == diff;
    assert Dirty(db, diff).Ok? ==> [] + Dirty(db, diff).value == Dirty(db, diff).value;
    while true
      invariant 0 <= i <= |diff| && it.rest == diff[i..]
      invariant Dirty(db, diff) == Prefixed(dirty, Dirty(db, diff[i..]))
      decreases |it.rest|
    {
      var more := it.Next();
      if !more {
        assert dirty + [] == dirty;
        return Ok(dirty);
      }
      var key := Preimage(db, it.Key);
      if key.None? {
        return Err(NoPreimage(it.Key));
      }
      assert diff[i..][1..] == diff[i + 1..];
      ghost var a, tail := BytesToAddress(key.value), Dirty(db, diff[i + 1..]);
      if tail.Ok? {
        assert dirty + ([a] + tail.value) == (dirty + [a]) + tail.value;
      }
      dirty := dirty + [BytesToAddress(key.value)];
      i := i + 1;
    }
  }

  /** getModifiedAccounts between two resolved blocks. */
  method GetModifiedAccounts(db: TrieDb, startBlock: Block, endBlock: Block) returns (r: Result<seq<Address>>)
    ensures r == AccountsBetween(db, startBlock.header, endBlock.header)
  {
    if startBlock.header.number >= endBlock.header.number {
      return Err(HeightOrder(startBlock.header.number, endBlock.header.number));
    }
    var oldTrie := OpenTrie(db, startBlock.header.root);
    if oldTrie.Err? {
      return Err(oldTrie.error);
    }
    var newTrie := OpenTrie(db, endBlock.header.root);
    if newTrie.Err? {
      return Err(newTrie.error);
    }
    var it := new Iterator.Over(Difference(oldTrie.value, newTrie.value));
    r := CollectDirty(db, it);
  }

  /**
   * The block pair GetModifiedAccountsByNumber compares: the canonical
   * blocks at both heights, or, with no end height, the canonical block at
   * the start height and its parent.
   */
  function SelectByNumber(chain: ChainView, startNum: u64, endNum: Option<u64>): (r: Result<(Block, Block)>)
    ensures chain.GetBlockByNumber(startNum).None? ==> r == Err(StartNumberNotFound(startNum))
    ensures chain.GetBlockByNumber(startNum).Some? && endNum.None? ==>
      var b := chain.GetBlockByNumber(startNum).value;
      (r.Err? <==> chain.GetBlockByHash(b.header.parentHash).None?)
      && (r.Err? ==> r.error == NoParent(b.header.number))
    ensures chain.GetBlockByNumber(startNum).Some? && endNum.Some? ==>
      (r.Err? <==> chain.GetBlockByNumber(endNum.value).None?)
      && (r.Err? ==> r.error == EndNumberNotFound(endNum.value))
    ensures r.Ok? ==> startNum in chain.canonical && chain.canonical[startNum] in chain.blocks
    ensures r.Ok? && endNum.Some? ==>
      endNum.value in chain.canonical && chain.canonical[endNum.value] in chain.blocks
      && r.value == (chain.blocks[chain.canonical[startNum]], chain.blocks[chain.canonical[endNum.value]])
      && r.value.0.header.number == startNum && r.value.1.header.number == endNum.value
    ensures r.Ok? && endNum.None? ==>
      r.value.1 == chain.blocks[chain.canonical[startNum]]
      && r.value.1.header.number == startNum && r.value.1.header.parentHash in chain.blocks
      && r.value.0 == chain.blocks[r.value.1.header.parentHash]
  {
    match chain.GetBlockByNumber(startNum)
    case None => Err(StartNumberNotFound(startNum))
    case Some(b) =>
      match endNum
      case None =>
        (match chain.GetBlockByHash(b.header.parentHash)
         case None => Err(NoParent(b.header.number))
         case Some(p) => Ok((p, b)))
      case Some(n) =>
        (match chain.GetBlockByNumber(n)
         case None => Err(EndNumberNotFound(n))
         case Some(e) => Ok((b, e)))
  }

  /** The block pair GetModifiedAccountsByHash compares, looked up by hash. */
  function SelectByHash(chain: ChainView, startHash: Hash, endHash: Option<Hash>): (r: Result<(Block, Block)>)
    ensures chain.GetBlockByHash(startHash).None? ==> r == Err(StartHashNotFound(startHash))
    ensures chain.GetBlockByHash(startHash).Some? && endHash.None? ==>
      var b := chain.GetBlockByHash(startHash).value;
      (r.Err? <==> chain.GetBlockByHash(b.header.parentHash).None?)
      && (r.Err? ==> r.error == NoParent(b.header.number))
    ensures chain.GetBlockByHash(startHash).Some? && endHash.Some? ==>
      (r.Err? <==> chain.GetBlockByHash(endHash.value).None?)
      && (r.Err? ==> r.error == EndHashNotFound(endHash.value))
    ensures r.Ok? && endHash.Some? ==>
      startHash in chain.blocks && endHash.value in chain.blocks
      && r.value == (chain.blocks[startHash], chain.blocks[endHash.value])
    ensures r.Ok? && endHash.None? ==>
      startHash in chain.blocks && r.value.1 == chain.blocks[startHash]
      && r.value.1.header.parentHash in chain.blocks
      && r.value.0 == chain.blocks[r.value.1.header.parentHash]
  {
    match chain.GetBlockByHash(startHash)
    case None => Err(StartHashNotFound(startHash))
    case Some(b) =>
      match endHash
      case None =>
        (match chain.GetBlockByHash(b.header.parentHash)
         case None => Err(NoParent(b.header.number))
         case Some(p) => Ok((p, b)))
      case Some(h) =>
        (match chain.GetBlockByHash(h)
         case None => Err(EndHashNotFound(h))
         case Some(e) => Ok((b, e)))
  }

  /** The accounts modified between the selected blocks, or the selection's error. */
  function AccountsOfSelection(db: TrieDb, sel: Result<(Block, Block)>): Result<seq<Address>>
  {
    match sel
    case Err(e) => Err(e)
    case Ok(pair) => AccountsBetween(db, pair.0.header, pair.1.header)
  }

  /**
   * Resolving by number and by the canonical hashes at those heights picks
   * the same blocks, so both entry points report the same accounts.
   */
  lemma SelectByNumberIsByCanonicalHash(chain: ChainView, startNum: u64, endNum: Option<u64>)
    requires SelectByNumber(chain, startNum, endNum).Ok?
    ensures startNum in chain.canonical
    ensures endNum.Some? ==> endNum.value in chain.canonical
    ensures SelectByHash(chain, chain.canonical[startNum],
      if endNum.Some? then Some(chain.canonical[endNum.value]) else None)
      == SelectByNumber(chain, startNum, endNum)
  {
    var b := chain.GetBlockByNumber(startNum).value;
    assert chain.GetBlockByHash(chain.canonical[startNum]) == Some(b);
    if endNum.Some? {
      var e := chain.GetBlockByNumber(endNum.value).value;
      assert chain.GetBlockByHash(chain.canonical[endNum.value]) == Some(e);
    }
  }

  /**
   * With one argument, a block whose parent sits at a lower height never
   * hits the height check: the result is the accounts that block changed.
   */
  lemma SingleBlockAccounts(chain: ChainView, db: TrieDb, startNum: u64)
    requires chain.GetBlockByNumber(startNum).Some?
    requires chain.GetBlockByNumber(startNum).value.header.parentHash in chain.blocks
    requires chain.blocks[chain.GetBlockByNumber(startNum).value.header.parentHash].header.number < startNum
    ensures var b := chain.GetBlockByNumber(startNum).value;
      var p := chain.blocks[b.header.parentHash];
      AccountsOfSelection(db, SelectByNumber(chain, startNum, None)) == AccountsBetween(db, p.header, b.header)
      && !(AccountsBetween(db, p.header, b.header).Err? && AccountsBetween(db, p.header, b.header).error.HeightOrder?)
  {
    var b := chain.GetBlockByNumber(startNum).value;
    var p := chain.blocks[b.header.parentHash];
    assert SelectByNumber(chain, startNum, None) == Ok((p, b));
    var r := AccountsBetween(db, p.header, b.header);
    if r.Err? && HasTrie(db, p.header.root) && HasTrie(db, b.header.root) {
      AccountsMissingPreimage(db, p.header, b.header);
    }
  }

  /** GetModifiedAccountsByNumber. */
  method GetModifiedAccountsByNumber(chain: ChainView, db: TrieDb, startNum: u64, endNum: Option<u64>)
    returns (r: Result<seq<Address>>)
    ensures r == AccountsOfSelection(db, SelectByNumber(chain, startNum, endNum))
  {
    var startBlock := chain.GetBlockByNumber(startNum);
    if startBlock.None? {
      return Err(StartNumberNotFound(startNum));
    }
    var endBlock: Option<Block>;
    if endNum.None? {
      endBlock := startBlock;
      startBlock := chain.GetBlockByHash(endBlock.value.header.parentHash);
      if startBlock.None? {
        return Err(NoParent(endBlock.value.header.number));
      }
    } else {
      endBlock := chain.GetBlockByNumber(endNum.value);
      if endBlock.None? {
        return Err(EndNumberNotFound(endNum.value));
      }
    }
    r := GetModifiedAccounts(db, startBlock.value, endBlock.value);
  }

  /** GetModifiedAccountsByHash. */
  method GetModifiedAccountsByHash(chain: ChainView, db: TrieDb, startHash: Hash, endHash: Option<Hash>)
    returns (r: Result<seq<Address>>)
    ensures r == AccountsOfSelection(db, SelectByHash(chain, startHash, endHash))
  {
    var startBlock := chain.GetBlockByHash(startHash);
    if startBlock.None? {
      return Err(StartHashNotFound(startHash));
    }
    var endBlock: Option<Block>;
    if endHash.None? {
      endBlock := startBlock;
      startBlock := chain.GetBlockByHash(endBlock.value.header.parentHash);
      if startBlock.None? {
        return Err(NoParent(endBlock.value.header.number));
      }
    } else {
      endBlock := chain.GetBlockByHash(endHash.value);
      if endBlock.None? {
        return Err(EndHashNotFound(endHash.value));
      }
    }
    r := GetModifiedAccounts(db, startBlock.value, endBlock.value);
  }
}
