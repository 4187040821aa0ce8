/**
 * Blocks, headers and transactions, and the read-only view of the chain and
 * its database that the debug APIs resolve blocks, states and tries from.
 */
module Chain {
  import opened Common
  import opened Wrappers
  import opened Tries
  import opened Errors

  /** A signed transaction, identified by its hash; its fields are opaque here. */
  datatype Transaction = Transaction(hash: Hash, gas: u64, payload: Bytes)

  /** The header fields the core reads: parent hash, height and post-state root. */
  datatype Header = Header(parentHash: Hash, number: u64, root: Hash)

  datatype Block = Block(header: Header, txs: seq<Transaction>)

  /** The block store: every stored block under its hash, and the canonical hash at each height. */
  datatype ChainView = ChainView(blocks: map<Hash, Block>, canonical: map<u64, Hash>)
  {
    /** BlockChain.GetBlock: the block stored under hash, only if it has the given height. */
    function GetBlock(hash: Hash, number: u64): (b: Option<Block>)
      ensures b.Some? <==> hash in blocks && blocks[hash].header.number == number
      ensures b.Some? ==> b.value == blocks[hash]
    {
      if hash in blocks && blocks[hash].header.number == number then Some(blocks[hash]) else None
    }

    /** BlockChain.GetBlockByHash. */
    function GetBlockByHash(hash: Hash): (b: Option<Block>)
      ensures b.Some? <==> hash in blocks
      ensures b.Some? ==> b.value == blocks[hash]
    {
      if hash in blocks then Some(blocks[hash]) else None
    }

    /** BlockChain.GetBlockByNumber: the canonical block at a height. */
    function GetBlockByNumber(number: u64): (b: Option<Block>)
      ensures b.Some? <==> number in canonical && canonical[number] in blocks
                           && blocks[canonical[number]].header.number == number
      ensures b.Some? ==> b.value == blocks[canonical[number]] && b.value.header.number == number
    {
      if number in canonical then GetBlock(canonical[number], number) else None
    }
  }

  /** The tries the database can open, by root, and its table of hash preimages. */
  datatype TrieDb = TrieDb(tries: map<Hash, Trie>, preimages: map<Hash, Bytes>)

  /** The database can open a trie at root: the empty roots always, any other root when stored. */
  predicate HasTrie(db: TrieDb, root: Hash)
  {
    IsEmptyRoot(root) || root in db.tries
  }

  /** The trie at an openable root: the empty trie for the empty roots, the stored one otherwise. */
  function TrieAt(db: TrieDb, root: Hash): Trie
    requires HasTrie(db, root)
  {
    if IsEmptyRoot(root) then [] else db.tries[root]
  }

  /**
   * trie.NewSecure (through trie.New): the zero hash and the empty-trie root
   * open as the empty trie without a database lookup; any other root must be
   * stored, or opening fails with the missing root.
   */
  function OpenTrie(db: TrieDb, root: Hash): (r: Result<Trie>)
    ensures IsEmptyRoot(root) ==> r == Ok([])
    ensures !IsEmptyRoot(root) ==> (r.Ok? <==> root in db.tries)
    ensures !IsEmptyRoot(root) && r.Ok? ==> r.value == db.tries[root]
    ensures r.Err? ==> r.error == MissingRoot(root)
  {
    if HasTrie(db, root) then Ok(TrieAt(db, root)) else Err(MissingRoot(root))
  }

  /** SecureTrie.GetKey: the preimage of a hashed key, nil when the table does not know it. */
  function Preimage(db: TrieDb, k: Hash): (p: Option<Bytes>)
    ensures p.Some? <==> k in db.preimages
    ensures p.Some? ==> p.value == db.preimages[k]
  {
    if k in db.preimages then Some(db.preimages[k]) else None
  }
}
