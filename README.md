# kcoin debug and admin API core, modelled in Dafny

This project models the algorithmic core of `kcoin/api.go`, the private
debug and admin RPC API of the kcoin full node:

- **storageRangeAt** and the **StorageRangeAt** RPC: a contract's storage
  trie is read one page at a time. The read starts at a key and returns at
  most `maxResult` rows. Each row carries the hashed slot key, the slot's
  preimage when the preimage table knows it, and the value fitted to a hash.
  A continuation cursor is set when more leaves follow.
- **computeTxEnv**: rebuilds the state that transaction `txIndex` of a
  block executes against. It resolves the block and its parent, opens the
  parent's state, and replays the transactions before the index.
- **ImportChain** and **hasAllBlocks**: import a stream of encoded blocks
  in batches of 2500. A batch the chain already holds is skipped. The first
  undecodable item stops the import, and so does a batch the chain refuses.
- **GetModifiedAccountsByNumber / ByHash** and **getModifiedAccounts**: the
  addresses whose account leaf differs between the state tries of two
  blocks. The addresses are recovered from the hashed keys through the
  preimage table.
- **formatError**.

Each API operation is a method. The methods are proved equal to a
specification function, and lemmas state what those functions promise.

The tries are abstracted to their leaves in iteration order. This is the
subset type `Tries.Trie` of strictly byte-ordered key sequences. The node
iterator seeked to a key is `Tries.From`. The difference iterator is
`Tries.Difference`: it yields the leaves of the newer trie that the older
trie lacks, or holds with another value. `Tries.Iterator` is the leaf
iterator as a class that walks these leaves one `Next` at a time.

Transaction execution is a parameter, `TxEnv.Executor`. It holds:

- `apply`, which stands for AsMessage, NewEVMContext, NewEVM and ApplyMessage;
- `deleteSuicides`;
- `storageTrie`.

`ChainImport.BlockChain` is a class. It holds the set of blocks the chain
has, updated in place by `InsertChain`. A function field decides whether
InsertChain refuses a batch. The file and its RLP stream are a sequence of
decode outcomes, and the end of that sequence stands for `io.EOF`.

Modules, one per file:

- `Wrappers`: Option.
- `Common`: bytes, hashes, addresses, uint64, and the byte order of keys.
- `Format`: `%d` and `%x`.
- `Errors`: the API's errors and their texts, and `formatError`.
- `Tries`.
- `Chain`: blocks, the chain view, the trie database and its preimages.
- `TxEnv`.
- `StorageRange`.
- `ChainImport`.
- `ModifiedAccounts`.

## Model

| member | source | states |
|---|---|---|
| Errors.FormatError | kcoin/api.go:414-419 | A nil error renders as the empty string. Any other error renders as its own text. The result is empty exactly for nil or for an error whose text is empty. |
| Format.DigitsRoundTrip | kcoin/api.go:594 | The `%d` / `%x` rendering of a number in the error texts reads back to that number. |
| Format.UnhexHex | kcoin/api.go:621 | The `%x` rendering of a hash or byte string in the error texts reads back to the same bytes. |
| Common.Pred64 | kcoin/api.go:496 | `NumberU64()-1` on uint64: one less for a positive height; wraps to 2^64-1 at height 0. |
| Common.ToFixed | kcoin/api.go:569-574 | `BytesToHash` and `BytesToAddress` keep the last 32 (20) bytes and left-pad shorter inputs with zeros. |
| Tries.FromMembers | kcoin/api.go:566 | A node iterator seeked to `start` yields exactly the trie's leaves whose key is at or after `start`. |
| Tries.FromSorted | kcoin/api.go:566 | A seeked iterator yields its leaves in ascending key order. |
| Tries.FromContinue | kcoin/api.go:577-579 | Seeking to the m-th key a seeked iterator yielded yields exactly the rest of that iteration, with nothing skipped or repeated. |
| Tries.DifferenceMembers | kcoin/api.go:653 | The difference iterator yields exactly the leaves of the new trie whose key the old trie lacks or holds with another value. |
| Tries.DifferenceOfSame | kcoin/api.go:653 | Two identical tries differ nowhere. |
| Tries.DifferenceOmitsDeleted | kcoin/api.go:653 | A key the new trie no longer holds is never yielded. |
| Tries.Iterator.Next | kcoin/api.go:568 | `it.Next()` reports whether a leaf is left. If one is, it moves Key and Value to the first remaining leaf and drops it. Otherwise the remaining leaves stay as they were, and Key and Value become nil (empty). |
| StorageRange.FillPage | kcoin/api.go:567-575 | The page loop stops after maxResult leaves or when the iterator runs out. It enters one row per visited leaf, in order, and leaves the iterator just after the page. |
| StorageRange.StorageRangeAt | kcoin/api.go:565-582 | Returns the page of rows from `start` and the cursor from the extra `it.Next()`. |
| StorageRange.PageSize | kcoin/api.go:568 | The page holds min(maxResult, leaves at or after start) leaves. It holds none when maxResult is not positive. |
| StorageRange.StorageRangeRows | kcoin/api.go:568-575 | A page has one row per leaf of the page, keyed by the leaf's key, with at most maxResult rows. Each row holds the leaf's value fitted to a hash. It holds a preimage exactly when the table knows one, so a missing preimage is no error. |
| StorageRange.PageIsFirstKeys | kcoin/api.go:566-568 | The page's leaves are leaves of the trie at or after `start`. Every omitted key at or after `start` sorts after every key on the page. |
| StorageRange.StorageRangeNext | kcoin/api.go:576-580 | The cursor is set exactly when a leaf at or after `start` lies beyond the page. Calling again from the cursor yields precisely the leaves not yet returned. |
| StorageRange.Scan | kcoin/api.go:565-582 | Paging with positive maxResult from `start` until no cursor comes back visits every leaf at or after `start`, in order, once. |
| StorageRange.ScanVisitsAll | kcoin/api.go:565-582 | Paging from the empty key visits the whole trie. |
| StorageRange.StorageRangeAtTx | kcoin/api.go:553-563 | Fails with computeTxEnv's error, or with "account doesn't exist" when the contract has no storage trie. Otherwise returns storageRangeAt of that trie. |
| TxEnv.StateAt | kcoin/api.go:500-503 | Opening the parent state at the zero hash or the empty-trie root gives the empty state without a lookup. Any other root opens exactly when it is stored, and otherwise fails with the missing root. |
| TxEnv.ComputeTxEnv | kcoin/api.go:490-525 | The loop returns the parent state after replaying the transactions before txIndex. It fails on a missing block, missing parent or missing state. It fails on the first failing transaction, or out of range once all transactions replayed (equal to `TxEnvAt`). |
| TxEnv.ReplaySnoc | kcoin/api.go:508-523 | Replaying one more transaction executes it, then purges self-destructed accounts, unless the replay already aborted. |
| TxEnv.ReplayAbortSticks | kcoin/api.go:519-521 | After a failed transaction, later transactions change nothing: the replay has returned. |
| TxEnv.ReplayAbortIsFirstFailure | kcoin/api.go:516-521 | A failed replay names the first transaction whose execution failed, every earlier one having succeeded. |
| TxEnv.TxEnvAdvance | kcoin/api.go:508-523 | The environment of transaction k+1 is that of transaction k, with k executed and self-destructed accounts purged. |
| TxEnv.TxEnvOutOfRange | kcoin/api.go:512-524 | Out of range is reported exactly for an index outside the block, and only once every transaction replayed successfully. |
| ChainImport.BlockChain.InsertChain | kcoin/api.go:237-239 | InsertChain either adds every block of the batch, or returns the chain's refusal and adds nothing. |
| ChainImport.HasAllBlocks | kcoin/api.go:186-194 | True exactly when the chain holds every block of the batch (vacuously for none). |
| ChainImport.BatchLength | kcoin/api.go:215-218 | A batch reads at most 2500 items, exactly 2500 unless the stream ends inside it, and none exactly at the end of the stream. |
| ChainImport.LoadBatch | kcoin/api.go:218-227 | Decodes items into the buffer until it holds 2500 or the stream ends. It stops at the first malformed item with that item's index and text. |
| ChainImport.FirstMalformedExists | kcoin/api.go:218-224 | A window with a malformed item has a first one, before which every item decoded. |
| ChainImport.WindowFirstBad | kcoin/api.go:220-224 | The window reports exactly the first malformed item. |
| ChainImport.WindowBlocks | kcoin/api.go:218-227 | A decoded window holds one block per item, in stream order. Its blocks together with the blocks after the window are the stream's blocks from the window on. |
| ChainImport.BatchesDecoded | kcoin/api.go:216-230 | The batches meet no malformed item exactly when the stream holds none. |
| ChainImport.BatchesBlocks | kcoin/api.go:216-230 | When no item is malformed, the batches together hold exactly the stream's blocks. |
| ChainImport.BatchesBad | kcoin/api.go:220-224 | A bad batch is the last batch. It names a malformed item of the stream, with every earlier item decoded. |
| ChainImport.BatchesPositions | kcoin/api.go:215-230 | Batch i holds the items from i*2500 up to the next multiple of 2500 or the end of the stream. |
| ChainImport.ImportBatchesSuccess | kcoin/api.go:228-241 | A successful fold met no bad batch and added every batch's blocks. |
| ChainImport.ImportBatchesPresent | kcoin/api.go:232-235 | Batches the chain already holds are skipped without insertion. |
| ChainImport.ImportBatchesParse | kcoin/api.go:222-224 | A parse failure comes from a bad batch, with its index and text. |
| ChainImport.ImportBatchesInsert | kcoin/api.go:237-239 | An insertion failure names a batch of blocks, numbered from the first batch. |
| ChainImport.ImportBatchesAccepted | kcoin/api.go:237-241 | When the chain accepts every insertion, a stream of decodable batches imports. |
| ChainImport.ImportChain | kcoin/api.go:215-243 | `ok` holds exactly when no error is returned. The chain's new blocks and the error are those of importing the stream batch by batch (`ImportFrom`). |
| ChainImport.ImportSuccess | kcoin/api.go:215-243 | A successful import decoded every item. The chain then holds its former blocks plus every block of the stream. |
| ChainImport.ImportAllPresent | kcoin/api.go:232-235 | A stream the chain already holds imports without insertion, whatever InsertChain would do. |
| ChainImport.ImportIdempotent | kcoin/api.go:215-243 | Importing the same stream again, after a successful import, succeeds and changes nothing. This holds even if InsertChain would now refuse every batch. |
| ChainImport.ImportParseFailure | kcoin/api.go:220-224 | "block %d: failed to parse" names a malformed item of the stream, every item before it decoded. |
| ChainImport.ImportInsertFailure | kcoin/api.go:237-239 | "batch %d: failed to insert" names batch b, counting skipped batches. That batch is items b*2500 up to the next multiple or the end, all decoded. |
| ChainImport.ImportAccepted | kcoin/api.go:215-243 | A stream without malformed items imports successfully into a chain that accepts every batch. |
| Chain.ChainView.GetBlockByNumber | kcoin/api.go:591 | Finds the canonical block at a height: the block stored under the canonical hash for that height, when it has that height. |
| Chain.OpenTrie | kcoin/api.go:644-651 | `trie.NewSecure` opens the zero hash and the empty-trie root as the empty trie without a lookup. Any other root opens exactly when it is stored, and otherwise fails with the missing root. |
| ModifiedAccounts.DirtyOk | kcoin/api.go:657-663 | The collection loop succeeds exactly when every changed key has a preimage. |
| ModifiedAccounts.DirtyElements | kcoin/api.go:657-663 | On success the i-th address is the i-th changed key's preimage, cut to an address. |
| ModifiedAccounts.DirtyError | kcoin/api.go:657-661 | On failure the error names the first changed key without a preimage, and no partial list is returned. |
| ModifiedAccounts.CollectDirty | kcoin/api.go:654-664 | Walks the difference iterator, collecting each key's preimage as an address and failing at the first unknown one. Equal to `Dirty` of the leaves it had left. |
| ModifiedAccounts.GetModifiedAccounts | kcoin/api.go:639-665 | Fails when the start height is not below the end height, or when either root is missing. Otherwise collects the changed accounts (equal to `AccountsBetween`). |
| ModifiedAccounts.AccountsBetweenMeaning | kcoin/api.go:639-665 | A successful result implies start below end and both roots present. It is exactly the addresses of the new state's leaves that the old state lacks or holds with another value. |
| ModifiedAccounts.AccountsSameRoot | kcoin/api.go:653-664 | Two blocks with one state root have no modified account. |
| ModifiedAccounts.AccountsOmitDeleted | kcoin/api.go:653-663 | A key the new state no longer holds contributes no address. |
| ModifiedAccounts.AccountsMissingPreimage | kcoin/api.go:657-661 | A failure after both tries opened is "no preimage" for the first changed key, in trie order, without a preimage. |
| ModifiedAccounts.SelectByNumber | kcoin/api.go:589-610 | A missing canonical start block fails with "start block not found". With one height, the selection fails exactly when the block's parent is missing, with "has no parent". With two heights, it fails exactly when the canonical end block is missing, with "end block not found". On success, with two heights, the pair is the canonical blocks at those heights. With one height, it is the canonical block at that height and its parent. |
| ModifiedAccounts.SelectByHash | kcoin/api.go:617-637 | A missing start block fails with "start block not found". With one hash, the selection fails exactly when the block's parent is missing, with "has no parent". With two hashes, it fails exactly when the end block is missing, with "end block not found". On success, with two hashes, the pair is the blocks stored under them. With one hash, it is that block and its parent. |
| ModifiedAccounts.SelectByNumberIsByCanonicalHash | kcoin/api.go:589-637 | Resolving by heights picks the same blocks as resolving by the canonical hashes at those heights. |
| ModifiedAccounts.SingleBlockAccounts | kcoin/api.go:597-602 | With one height whose parent sits lower, the result is the accounts that block changed, never the height-order error. |
| ModifiedAccounts.GetModifiedAccountsByNumber | kcoin/api.go:589-610 | Fails with "start block not found", "has no parent" or "end block not found" in that order. Otherwise returns getModifiedAccounts of the selected pair. |
| ModifiedAccounts.GetModifiedAccountsByHash | kcoin/api.go:617-637 | The same, resolving blocks by hash. |

## Left out

- File handling in ImportChain is not modelled: opening the file, gzip decompression and closing it. The RLP stream is a sequence of decode outcomes, and its end stands for `io.EOF`.
- RLP encoding and decoding of blocks is not modelled; a decoded block is its hash and height.
- ExportChain is not modelled: it only writes the chain to a file.
- The EVM, AsMessage, NewEVMContext, ApplyMessage and DeleteSuicides are a parameter (`Executor`); their own behaviour is outside this model.
- TxEnv.ComputeTxEnv: the error AsMessage returns is ignored by the source and is not modelled. The message is the transaction itself.
- The tracing API (TraceBlock, TraceBlockFromFile, TraceBlockByNumber, TraceBlockByHash, traceBlock, TraceTransaction and its timeoutError) is not modelled. It needs the EVM, scripted tracers, timeouts and goroutines.
- The validator RPC wrappers, Coinbase, DumpBlock, Preimage, GetBadBlocks and the API constructors are not modelled. They are thin pass-throughs to collaborators.
- Trie internals are not modelled: nodes, hashing, resolution from the database, and the difference iterator skipping equal subtrees. A trie is its ordered leaves.
- ChainImport.BlockChain.InsertChain is atomic here. A real InsertChain that fails part way may already have written the earlier blocks of the batch.
- ChainImport.ImportChain: the text of a refusal is the collaborator's own; the `%v` of the wrapped error is kept as an opaque string.
- Errors for missing trie nodes carry only the missing root, not the full node path text of `MissingNodeError`.
- ModifiedAccounts.GetModifiedAccounts: Go returns a nil slice when nothing changed, which JSON renders as `null`; the model returns the empty sequence.
- ModifiedAccounts.AccountsBetweenMeaning: accounts deleted between the two blocks are not reported, because the difference iterator only yields leaves of the newer trie.
- Concurrency and contexts (`ctx`) are not modelled.
