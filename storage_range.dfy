/**
 * debug_storageRangeAt: one page of a contract's storage trie from a start
 * key, with preimages where the table knows them and a cursor to continue.
 */
module StorageRange {
  import opened Common
  import opened Wrappers
  import opened Tries
  import opened Errors
  import opened Chain
  import opened TxEnv

  /** One storage slot: the slot's preimage if known (Key) and its value as a hash (Value). */
  datatype StorageEntry = StorageEntry(key: Option<Hash>, value: Hash)

  /** A page of storage keyed by hashed slot, and the key to continue from (nil after the last key). */
  datatype StorageRangeResult = StorageRangeResult(storage: map<Hash, StorageEntry>, nextKey: Option<Hash>)

  /** How many leaves a page holds: maxResult of them, fewer when the trie runs out first. */
  function PageSize(t: Trie, start: Bytes, maxResult: int): (n: nat)
    ensures n <= |From(t, start)|
    ensures maxResult >= 0 ==> n <= maxResult
    ensures maxResult <= 0 ==> n == 0
    ensures maxResult > 0 ==> n == Min(maxResult, |From(t, start)|)
  {
    if maxResult <= 0 then 0 else Min(maxResult, |From(t, start)|)
  }

  /** The leaves a page covers: the first PageSize leaves at or after start. */
  function Page(t: Trie, start: Bytes, maxResult: int): seq<Entry>
  {
    From(t, start)[..PageSize(t, start, maxResult)]
  }

  /** The continuation cursor: the first leaf after the page, if there is one. */
  function NextKey(t: Trie, start: Bytes, maxResult: int): Option<Hash>
  {
    var n := PageSize(t, start, maxResult);
    if n < |From(t, start)| then Some(From(t, start)[n].key) else None
  }

  /** The row for one leaf: its preimage when the table has one, and its value fitted to a hash. */
  function EntryFor(preimages: map<Hash, Bytes>, e: Entry): StorageEntry
  {
    StorageEntry(if e.key in preimages then Some(BytesToHash(preimages[e.key])) else None, BytesToHash(e.value))
  }

  /** The storage map built by inserting the rows of the given leaves in order. */
  function StorageOf(preimages: map<Hash, Bytes>, es: seq<Entry>): map<Hash, StorageEntry>
  {
    if es == [] then map[]
    else StorageOf(preimages, es[..|es| - 1])[es[|es| - 1].key := EntryFor(preimages, es[|es| - 1])]
  }

  /** What storageRangeAt returns. */
  function StorageRange(t: Trie, preimages: map<Hash, Bytes>, start: Bytes, maxResult: int): StorageRangeResult
  {
    StorageRangeResult(StorageOf(preimages, Page(t, start, maxResult)), NextKey(t, start, maxResult))
  }

  /**
   * The loop of storageRangeAt: moves the iterator over at most maxResult of
   * the leaves it has left, entering each one's row into the storage map.
   */
  method FillPage(it: Iterator, preimages: map<Hash, Bytes>, maxResult: int) returns (storage: map<Hash, StorageEntry>)
    modifies it
    ensures var n := if maxResult <= 0 then 0 else Min(maxResult, |old(it.rest)|);
            && storage == StorageOf(preimages, old(it.rest)[..n])
            && it.rest == old(it.rest)[n..]
  {
    ghost var all := it.rest;
    storage := map[];
    var i := 0;
    while i < maxResult
      invariant 0 <= i <= |all|
      invariant i == 0 || i <= maxResult
      invariant it.rest == all[i..]
      invariant storage == StorageOf(preimages, all[..i])
    {
      var more := it.Next();
      if !more {
        break;
      }
      var e := StorageEntry(None, BytesToHash(it.Value));
      if it.Key in preimages {
        e := e.(key := Some(BytesToHash(preimages[it.Key])));
      }
      assert all[i] == Entry(it.Key, it.Value);
      assert e == EntryFor(preimages, all[i]);
      StorageOfSnoc(preimages, all, i);
      storage := storage[BytesToHash(it.Key) := e];
      i := i + 1;
    }
    assert i == if maxResult <= 0 then 0 else Min(maxResult, |all|);
  }

  /** storageRangeAt over the trie st, reading preimages through st.GetKey. */
  method StorageRangeAt(st: Trie, preimages: map<Hash, Bytes>, start: Bytes, maxResult: int)
    returns (result: StorageRangeResult)
    ensures result == StorageRange(st, preimages, start, maxResult)
  {
    var it := new Iterator(st, start);
    ghost var all, n := it.rest, PageSize(st, start, maxResult);
    assert n == if maxResult <= 0 then 0 else Min(maxResult, |all|);
    var storage := FillPage(it, preimages, maxResult);
    assert storage == StorageOf(preimages, Page(st, start, maxResult));
    result := StorageRangeResult(storage, None);
    var more := it.Next();
    if more {
      assert it.Key == all[n].key;
      result := result.(nextKey := Some(BytesToHash(it.Key)));
    }
  }

  /** Building the storage map one leaf further inserts that leaf's row. */
  lemma StorageOfSnoc(preimages: map<Hash, Bytes>, es: seq<Entry>, i: nat)
    requires i < |es|
    ensures StorageOf(preimages, es[..i + 1]) == StorageOf(preimages, es[..i])[es[i].key := EntryFor(preimages, es[i])]
  {
    assert es[..i + 1][..i] == es[..i];
  }

  /** The storage map holds exactly the keys of the leaves it was built from. */
  lemma {:induction false} StorageOfKeys(preimages: map<Hash, Bytes>, es: seq<Entry>)
    ensures StorageOf(preimages, es).Keys == (set e | e in es :: e.key)
  {
    if es != [] {
      var init := es[..|es| - 1];
      StorageOfKeys(preimages, init);
      assert es == init + [es[|es| - 1]];
    }
  }

  /** In a sorted run of leaves no earlier key repeats the last one, and every prefix is sorted. */
  lemma SortedLast(es: seq<Entry>)
    requires Sorted(es) && es != []
    ensures Sorted(es[..|es| - 1])
    ensures forall e :: e in es[..|es| - 1] ==> e.key != es[|es| - 1].key
  {
    var init := es[..|es| - 1];
    forall e | e in init ensures e.key != es[|es| - 1].key {
      var j :| 0 <= j < |init| && init[j] == e;
      assert LexLess(es[j].key, es[|es| - 1].key);
    }
  }

  /** For leaves with distinct keys, the storage map has one row per leaf, each the leaf's own row. */
  lemma {:induction false} StorageOfSorted(preimages: map<Hash, Bytes>, es: seq<Entry>)
    requires Sorted(es)
    ensures |StorageOf(preimages, es)| == |es|
    ensures forall e :: e in es ==> e.key in StorageOf(preimages, es) && StorageOf(preimages, es)[e.key] == EntryFor(preimages, e)
  {
    if es != [] {
      var init := es[..|es| - 1];
      var last := es[|es| - 1];
      assert es == init + [last];
      SortedLast(es);
      StorageOfSorted(preimages, init);
      StorageOfKeys(preimages, init);
      var m := StorageOf(preimages, init);
      assert last.key !in m;
    }
  }

  /** A page is sorted: it is a prefix of the leaves at or after start. */
  lemma PageSorted(t: Trie, start: Bytes, maxResult: int)
    ensures Sorted(Page(t, start, maxResult))
  {
    FromSorted(t, start);
  }

  /**
   * A page holds at most maxResult rows, one per leaf of the page and keyed by
   * the leaf's key; each row carries the leaf's value fitted to a hash, and a
   * preimage exactly when the table knows one (a missing preimage neither
   * drops the row nor fails the call).
   */
  lemma StorageRangeRows(t: Trie, preimages: map<Hash, Bytes>, start: Bytes, maxResult: int)
    ensures var r := StorageRange(t, preimages, start, maxResult);
            && |r.storage| == PageSize(t, start, maxResult)
            && (maxResult >= 0 ==> |r.storage| <= maxResult)
            && r.storage.Keys == (set e | e in Page(t, start, maxResult) :: e.key)
            && (forall e :: e in Page(t, start, maxResult) ==>
                  && r.storage[e.key].value == BytesToHash(e.value)
                  && (r.storage[e.key].key.Some? <==> e.key in preimages)
                  && (e.key in preimages ==> r.storage[e.key].key == Some(BytesToHash(preimages[e.key]))))
  {
    var page := Page(t, start, maxResult);
    PageSorted(t, start, maxResult);
    StorageOfKeys(preimages, page);
    StorageOfSorted(preimages, page);
  }

  /**
   * The page's leaves are the first min(maxResult, n) trie leaves whose key is
   * at or after start (n being how many there are): each is a leaf of the trie
   * holding its value there, and every key at or after start that the page
   * leaves out sorts after every key it holds.
   */
  lemma PageIsFirstKeys(t: Trie, start: Bytes, maxResult: int)
    ensures |Page(t, start, maxResult)| == PageSize(t, start, maxResult)
    ensures forall e :: e in Page(t, start, maxResult) ==>
              e in t && LexLe(start, e.key) && Get(t, e.key) == Some(e.value)
    ensures forall e, p ::
              e in t && LexLe(start, e.key) && e !in Page(t, start, maxResult) && p in Page(t, start, maxResult)
              ==> LexLess(p.key, e.key)
  {
    var all := From(t, start);
    var n := PageSize(t, start, maxResult);
    var page := Page(t, start, maxResult);
    FromSorted(t, start);
    FromMembers(t, start);
    forall e | e in page ensures e in t && LexLe(start, e.key) && Get(t, e.key) == Some(e.value) {
      assert e in all;
      var i :| 0 <= i < |t| && t[i] == e;
      GetLeaf(t, i);
    }
    assert forall k :: 0 <= k < n ==> page[k] == all[k];
    forall e, p | e in t && LexLe(start, e.key) && e !in page && p in page ensures LexLess(p.key, e.key) {
      assert e in all;
      var i :| 0 <= i < |all| && all[i] == e;
      var j :| 0 <= j < |page| && page[j] == p;
      assert i >= n;
      assert all[j] == p;
    }
  }

  /**
   * The cursor is set exactly when some key at or after start lies beyond the
   * page, and then it is the first such key: calling again from it yields
   * precisely the leaves this call did not return.
   */
  lemma StorageRangeNext(t: Trie, preimages: map<Hash, Bytes>, start: Bytes, maxResult: int)
    ensures var r := StorageRange(t, preimages, start, maxResult);
            && (r.nextKey.Some? <==> exists e :: e in t && LexLe(start, e.key) && e !in Page(t, start, maxResult))
            && (r.nextKey.Some? ==> From(t, r.nextKey.value) == From(t, start)[PageSize(t, start, maxResult)..])
  {
    var all := From(t, start);
    var n := PageSize(t, start, maxResult);
    var page := Page(t, start, maxResult);
    FromSorted(t, start);
    FromMembers(t, start);
    if n < |all| {
      FromContinue(t, start, n);
      assert all[n] in all;
      forall j | 0 <= j < n ensures page[j] != all[n] {
        assert LexLess(all[j].key, all[n].key);
      }
    } else {
      assert page == all;
    }
  }

  /**
   * The leaves seen by calling storageRangeAt from start, then again from each
   * returned cursor until none is returned, all pages concatenated.
   */
  function Scan(t: Trie, start: Bytes, maxResult: int): (visited: seq<Entry>)
    requires maxResult > 0
    ensures visited == From(t, start)
    decreases |From(t, start)|
  {
    var n := PageSize(t, start, maxResult);
    match NextKey(t, start, maxResult)
    case None => Page(t, start, maxResult)
    case Some(k) =>
      FromContinue(t, start, n);
      Page(t, start, maxResult) + Scan(t, k, maxResult)
  }

  /** Paging from the empty key visits every leaf of the trie once, in order, with no gap or repeat. */
  lemma ScanVisitsAll(t: Trie, maxResult: int)
    requires maxResult > 0
    ensures Scan(t, [], maxResult) == t
  {
    FromAll(t, []);
  }

  /**
   * StorageRangeAt: the storage range of a contract in the state that
   * transaction txIndex of a block executes against.
   */
  method StorageRangeAtTx<S>(chain: ChainView, states: StateStore<S>, preimages: map<Hash, Bytes>, ex: Executor<S>,
                             blockHash: Hash, txIndex: int, contract: Address, keyStart: Bytes, maxResult: int)
    returns (r: Result<StorageRangeResult>)
    ensures match TxEnvAt(chain, states, ex, blockHash, txIndex)
            case Err(e) => r == Err(e)
            case Ok(env) =>
              match ex.storageTrie(env.state, contract)
              case None => r == Err(AccountNotFound(contract))
              case Some(st) => r == Ok(StorageRange(st, preimages, keyStart, maxResult))
  {
    var env := ComputeTxEnv(chain, states, ex, blockHash, txIndex);
    if env.Err? {
      return Err(env.error);
    }
    var st := ex.storageTrie(env.value.state, contract);
    if st.None? {
      return Err(AccountNotFound(contract));
    }
    var page := StorageRangeAt(st.value, preimages, keyStart, maxResult);
    return Ok(page);
  }
}
