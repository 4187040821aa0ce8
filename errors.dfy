/**
 * The errors the debug and admin APIs return, with the text of each
 * (the error's Error() string), and formatError.
 */
module Errors {
  import opened Common
  import opened Wrappers
  import Format

  datatype ApiError =
      /** computeTxEnv: "block %x not found" */
    | BlockNotFound(blockHash: Hash)
      /** computeTxEnv: "block parent %x not found" */
    | ParentNotFound(parentHash: Hash)
      /** StateAt / trie.NewSecure: the state store cannot open a root */
    | MissingRoot(root: Hash)
      /** computeTxEnv: "tx %x failed: %v" */
    | TxFailed(txHash: Hash, reason: string)
      /** computeTxEnv: "tx index %d out of range for block %x" */
    | TxIndexOutOfRange(txIndex: int, blockHash: Hash)
      /** StorageRangeAt: "account %x doesn't exist" */
    | AccountNotFound(account: Address)
      /** ImportChain: "block %d: failed to parse: %v" */
    | BlockParseFailed(index: nat, reason: string)
      /** ImportChain: "batch %d: failed to insert: %v" */
    | BatchInsertFailed(batch: nat, reason: string)
      /** GetModifiedAccountsByNumber: "start block %x not found" (the number in hexadecimal) */
    | StartNumberNotFound(number: u64)
      /** GetModifiedAccountsByHash: "start block %x not found" */
    | StartHashNotFound(hash: Hash)
      /** GetModifiedAccountsBy*: "block %x has no parent" (the number in hexadecimal) */
    | NoParent(number: u64)
      /** GetModifiedAccountsByNumber: "end block %d not found" */
    | EndNumberNotFound(number: u64)
      /** GetModifiedAccountsByHash: "end block %x not found" */
    | EndHashNotFound(hash: Hash)
      /** getModifiedAccounts: "start block height (%d) must be less than end block height (%d)" */
    | HeightOrder(startHeight: u64, endHeight: u64)
      /** getModifiedAccounts: "no preimage found for hash %x" */
    | NoPreimage(keyHash: Bytes)
      /** an error raised by a collaborator outside this model (consensus engine, processor, VM), with its text */
    | External(text: string)
  {
    function Message(): string
    {
      match this
      case BlockNotFound(h) => "block " + Format.Hex(h) + " not found"
      case ParentNotFound(h) => "block parent " + Format.Hex(h) + " not found"
      case MissingRoot(r) => "missing trie node " + Format.Hex(r)
      case TxFailed(h, why) => "tx " + Format.Hex(h) + " failed: " + why
      case TxIndexOutOfRange(i, h) => "tx index " + Format.Decimal(i) + " out of range for block " + Format.Hex(h)
      case AccountNotFound(a) => "account " + Format.Hex(a) + " doesn't exist"
      case BlockParseFailed(i, why) => "block " + Format.Decimal(i) + ": failed to parse: " + why
      case BatchInsertFailed(b, why) => "batch " + Format.Decimal(b) + ": failed to insert: " + why
      case StartNumberNotFound(n) => "start block " + Format.HexNumber(n) + " not found"
      case StartHashNotFound(h) => "start block " + Format.Hex(h) + " not found"
      case NoParent(n) => "block " + Format.HexNumber(n) + " has no parent"
      case EndNumberNotFound(n) => "end block " + Format.Decimal(n) + " not found"
      case EndHashNotFound(h) => "end block " + Format.Hex(h) + " not found"
      case HeightOrder(s, e) =>
        "start block height (" + Format.Decimal(s) + ") must be less than end block height (" + Format.Decimal(e) + ")"
      case NoPreimage(k) => "no preimage found for hash " + Format.Hex(k)
      case External(text) => text
    }
  }

  /** A value, or the error that took its place. */
  datatype Result<+T> = Ok(value: T) | Err(error: ApiError)

  /**
   * formatError: the empty string for a nil error, the error's text otherwise.
   * Only a collaborator's error whose own text is empty renders like a nil error.
   */
  function FormatError(err: Option<ApiError>): (s: string)
    ensures s == "" <==> err.None? || err.value == External("")
    ensures err.Some? ==> s == err.value.Message()
  {
    match err
    case None => ""
    case Some(e) => e.Message()
  }
}
