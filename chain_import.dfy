/**
 * admin_importChain: reading blocks from a decoded stream in batches of 2500,
 * skipping every batch the chain already holds and inserting the others.
 */
module ChainImport {
  import opened Common
  import opened Wrappers
  import opened Errors

  /** The capacity of the block buffer. */
  const BatchSize: nat := 2500

  /** The stream position at which batch number b starts when every earlier batch was full. */
  function BatchStart(b: nat): nat
  {
    b * BatchSize
  }

  /** A block as BlockChain.HasBlock identifies it: hash and height. */
  datatype BlockKey = BlockKey(hash: Hash, number: u64)

  /**
   * One outcome of stream.Decode: a block, or a decoding error with its text.
   * The end of the sequence of outcomes is io.EOF, which a decoder returns
   * again on every further call.
   */
  datatype Decoded = Decoded(block: BlockKey) | Malformed(reason: string)

  /** The chain as import sees it: the set of blocks it holds, and how InsertChain judges a batch. */
  class BlockChain {
    var blocks: set<BlockKey>
    /** Some(text) when InsertChain, given the blocks present, refuses the batch with that error text */
    const refuse: (set<BlockKey>, seq<BlockKey>) -> Option<string>

    constructor (blocks: set<BlockKey>, refuse: (set<BlockKey>, seq<BlockKey>) -> Option<string>)
      ensures this.blocks == blocks && this.refuse == refuse
    {
      this.blocks := blocks;
      this.refuse := refuse;
    }

    predicate HasBlock(hash: Hash, number: u64)
      reads this
    {
      BlockKey(hash, number) in blocks
    }

    /** InsertChain: adds the whole batch, or fails and adds nothing. */
    method InsertChain(bs: seq<BlockKey>) returns (err: Option<string>)
      modifies this
      ensures err == refuse(old(blocks), bs)
      ensures blocks == if err.None? then old(blocks) + (set b | b in bs) else old(blocks)
    {
      err := refuse(blocks, bs);
      if err.None? {
        blocks := blocks + (set b | b in bs);
      }
    }
  }

  /** hasAllBlocks: whether the chain holds every block of bs (true for no blocks at all). */
  method HasAllBlocks(chain: BlockChain, bs: seq<BlockKey>) returns (all: bool)
    ensures all <==> forall b :: b in bs ==> b in chain.blocks
  {
    for i := 0 to |bs|
      invariant forall k :: 0 <= k < i ==> bs[k] in chain.blocks
    {
      if !chain.HasBlock(bs[i].hash, bs[i].number) {
        return false;
      }
    }
    return true;
  }

  /** Decoding a window of the stream: all its blocks, or the offset and text of the first malformed item. */
  datatype Window = Blocks(blocks: seq<BlockKey>) | BadItem(offset: nat, reason: string)

  /** Some item among the n from position pos is malformed. */
  predicate HasMalformed(stream: seq<Decoded>, pos: nat, n: nat)
    requires pos + n <= |stream|
  {
    exists k :: pos <= k < pos + n && stream[k].Malformed?
  }

  /** Whenever the window holds a malformed item, it holds a first one. */
  lemma {:induction false} FirstMalformedExists(stream: seq<Decoded>, pos: nat, n: nat)
    requires pos + n <= |stream|
    requires HasMalformed(stream, pos, n)
    ensures exists j :: pos <= j < pos + n && stream[j].Malformed? && forall k :: pos <= k < j ==> stream[k].Decoded?
    decreases n
  {
    if stream[pos].Decoded? {
      var k :| pos <= k < pos + n && stream[k].Malformed?;
      assert pos + 1 <= k;
      FirstMalformedExists(stream, pos + 1, n - 1);
      var j :| pos + 1 <= j < pos + n && stream[j].Malformed? && forall k :: pos + 1 <= k < j ==> stream[k].Decoded?;
      assert forall k :: pos <= k < j ==> stream[k].Decoded?;
    }
  }

  /**
   * Decoding the n items of the stream from position pos, one at a time as
   * the inner loop of ImportChain does: the first malformed item ends the window.
   */
  ghost function DecodeWindow(stream: seq<Decoded>, pos: nat, n: nat): Window
    requires pos + n <= |stream|
  {
    if HasMalformed(stream, pos, n) then
      FirstMalformedExists(stream, pos, n);
      var j :| pos <= j < pos + n && stream[j].Malformed? && forall k :: pos <= k < j ==> stream[k].Decoded?;
      BadItem(j - pos, stream[j].reason)
    else
      Blocks(seq(n, i requires 0 <= i < n => stream[pos + i].block))
  }

  /** A decoded window holds one block per item, in stream order. */
  lemma WindowOk(stream: seq<Decoded>, pos: nat, n: nat)
    requires pos + n <= |stream|
    requires DecodeWindow(stream, pos, n).Blocks?
    ensures |DecodeWindow(stream, pos, n).blocks| == n
    ensures forall k :: 0 <= k < n ==> stream[pos + k] == Decoded(DecodeWindow(stream, pos, n).blocks[k])
    ensures forall k :: pos <= k < pos + n ==> stream[k].Decoded?
  {
  }

  /** A failed window names a malformed item inside it, every item before it decoded. */
  lemma WindowBad(stream: seq<Decoded>, pos: nat, n: nat)
    requires pos + n <= |stream|
    requires DecodeWindow(stream, pos, n).BadItem?
    ensures var w := DecodeWindow(stream, pos, n);
            && w.offset < n
            && stream[pos + w.offset] == Malformed(w.reason)
            && forall k :: pos <= k < pos + w.offset ==> stream[k].Decoded?
  {
  }

  /** How many items the next batch reads from position pos: BatchSize, fewer at the end of the stream. */
  function BatchLength(stream: seq<Decoded>, pos: nat): (n: nat)
    requires pos <= |stream|
    ensures n <= BatchSize
    ensures pos + n <= |stream|
    ensures n == BatchSize || pos + n == |stream|
    ensures n == 0 <==> pos == |stream|
  {
    Min(BatchSize, |stream| - pos)
  }

  /** The blocks the stream holds from position pos on. */
  function StreamBlocks(stream: seq<Decoded>, pos: nat): set<BlockKey>
  {
    set k | pos <= k < |stream| && stream[k].Decoded? :: stream[k].block
  }

  /** A decoded window holds the items' blocks in stream order, and they lead the stream's blocks from its position on. */
  lemma WindowBlocks(stream: seq<Decoded>, pos: nat, n: nat, bs: seq<BlockKey>)
    requires pos + n <= |stream|
    requires DecodeWindow(stream, pos, n) == Blocks(bs)
    ensures |bs| == n && forall k :: 0 <= k < n ==> stream[pos + k] == Decoded(bs[k])
    ensures StreamBlocks(stream, pos) == (set b | b in bs) + StreamBlocks(stream, pos + n)
  {
    WindowOk(stream, pos, n);
    forall b | b in bs ensures b in StreamBlocks(stream, pos) {
      var j :| 0 <= j < |bs| && bs[j] == b;
      assert stream[pos + j].block == b;
    }
    forall b | b in StreamBlocks(stream, pos) ensures b in (set b | b in bs) + StreamBlocks(stream, pos + n) {
      var k :| pos <= k < |stream| && stream[k].Decoded? && stream[k].block == b;
      if k < pos + n {
        assert stream[pos + (k - pos)] == Decoded(bs[k - pos]);
      }
    }
  }

  /** A window of decodable items decodes to blocks. */
  lemma WindowDecodes(stream: seq<Decoded>, pos: nat, n: nat)
    requires pos + n <= |stream|
    requires forall k :: pos <= k < pos + n ==> stream[k].Decoded?
    ensures DecodeWindow(stream, pos, n).Blocks?
  {
  }

  /** A window whose item at offset j is the first malformed one decodes to that offset and its text. */
  lemma {:induction false} WindowFirstBad(stream: seq<Decoded>, pos: nat, n: nat, j: nat)
    requires pos + n <= |stream| && j < n
    requires forall k :: pos <= k < pos + j ==> stream[k].Decoded?
    requires stream[pos + j].Malformed?
    ensures DecodeWindow(stream, pos, n) == BadItem(j, stream[pos + j].reason)
    decreases j
  {
    if j > 0 {
      WindowFirstBad(stream, pos + 1, n - 1, j - 1);
    }
  }

  /**
   * One batch as ImportChain reads it: its blocks, or the index in the stream
   * and the text of the malformed item that ends the import.
   */
  datatype Batch = Batch(blocks: seq<BlockKey>) | BadBatch(index: nat, reason: string)

  /**
   * The batches ImportChain reads from position pos: windows of BatchSize
   * items (the last one shorter when the stream ends inside it), up to the end
   * of the stream or up to the first window holding a malformed item.
   */
  ghost function Batches(stream: seq<Decoded>, pos: nat): seq<Batch>
    requires pos <= |stream|
    decreases |stream| - pos
  {
    var n := BatchLength(stream, pos);
    if n == 0 then []
    else match DecodeWindow(stream, pos, n)
      case BadItem(j, why) => [BadBatch(pos + j, why)]
      case Blocks(bs) => [Batch(bs)] + Batches(stream, pos + n)
  }

  /** The batches from pos: the first window, then those after it. */
  lemma BatchesStep(stream: seq<Decoded>, pos: nat)
    requires pos < |stream|
    ensures |Batches(stream, pos)| > 0
    ensures var n := BatchLength(stream, pos);
            var w := DecodeWindow(stream, pos, n);
            w.Blocks? ==> Batches(stream, pos)[0] == Batch(w.blocks) && Batches(stream, pos)[1..] == Batches(stream, pos + n)
    ensures var w := DecodeWindow(stream, pos, BatchLength(stream, pos));
            w.BadItem? ==> Batches(stream, pos) == [BadBatch(pos + w.offset, w.reason)]
  {
  }

  predicate AllBlocks(ws: seq<Batch>)
  {
    forall i :: 0 <= i < |ws| ==> ws[i].Batch?
  }

  /** The blocks of every batch. */
  function BatchBlocks(ws: seq<Batch>): set<BlockKey>
  {
    if ws == [] then {}
    else (if ws[0].Batch? then set b | b in ws[0].blocks else {}) + BatchBlocks(ws[1..])
  }

  /** The batches hold no malformed item exactly when the stream holds none. */
  lemma {:induction false} BatchesDecoded(stream: seq<Decoded>, pos: nat)
    requires pos <= |stream|
    ensures AllBlocks(Batches(stream, pos)) <==> forall k :: pos <= k < |stream| ==> stream[k].Decoded?
    decreases |stream| - pos
  {
    if pos < |stream| {
      var n := BatchLength(stream, pos);
      var ws := Batches(stream, pos);
      BatchesStep(stream, pos);
      var w := DecodeWindow(stream, pos, n);
      if w.Blocks? {
        WindowOk(stream, pos, n);
        BatchesDecoded(stream, pos + n);
        assert AllBlocks(ws) <==> AllBlocks(ws[1..]);
      } else {
        WindowBad(stream, pos, n);
        assert !ws[0].Batch?;
        assert !stream[pos + w.offset].Decoded?;
      }
    }
  }

  /** The blocks of all batches are the stream's blocks, when no item is malformed. */
  lemma {:induction false} BatchesBlocks(stream: seq<Decoded>, pos: nat)
    requires pos <= |stream|
    requires AllBlocks(Batches(stream, pos))
    ensures BatchBlocks(Batches(stream, pos)) == StreamBlocks(stream, pos)
    decreases |stream| - pos
  {
    var ws := Batches(stream, pos);
    if pos == |stream| {
      assert StreamBlocks(stream, pos) == {};
    } else {
      var n := BatchLength(stream, pos);
      BatchesStep(stream, pos);
      assert ws[0].Batch?;
      var bs := ws[0].blocks;
      assert AllBlocks(ws[1..]);
      BatchesBlocks(stream, pos + n);
      WindowBlocks(stream, pos, n, bs);
    }
  }

  /**
   * A malformed item ends the batches: a bad batch is the last one, and it
   * names a malformed item of the stream before which every item decoded.
   */
  lemma {:induction false} BatchesBad(stream: seq<Decoded>, pos: nat, i: nat)
    requires pos <= |stream|
    requires i < |Batches(stream, pos)| && Batches(stream, pos)[i].BadBatch?
    ensures var e := Batches(stream, pos)[i];
            && i == |Batches(stream, pos)| - 1
            && pos <= e.index < |stream|
            && stream[e.index] == Malformed(e.reason)
            && forall k :: pos <= k < e.index ==> stream[k].Decoded?
    decreases |stream| - pos
  {
    var n := BatchLength(stream, pos);
    BatchesStep(stream, pos);
    var w := DecodeWindow(stream, pos, n);
    if w.Blocks? {
      WindowOk(stream, pos, n);
      var ws, rest := Batches(stream, pos), Batches(stream, pos + n);
      assert i > 0;
      assert ws[i] == rest[i - 1] && |ws| == |rest| + 1;
      BatchesBad(stream, pos + n, i - 1);
      assert pos + n <= rest[i - 1].index;
    } else {
      WindowBad(stream, pos, n);
      assert Batches(stream, pos)[i] == BadBatch(pos + w.offset, w.reason);
    }
  }

  /**
   * Batch number i holds the items from i * BatchSize (past pos) up to the next
   * multiple of BatchSize or the end of the stream, one block per item.
   */
  lemma {:induction false} BatchesPositions(stream: seq<Decoded>, pos: nat, i: nat)
    requires pos <= |stream|
    requires i < |Batches(stream, pos)| && Batches(stream, pos)[i].Batch?
    ensures var start := pos + BatchStart(i);
            var bs := Batches(stream, pos)[i].blocks;
            && start < |stream|
            && |bs| == BatchLength(stream, start)
            && forall k :: 0 <= k < |bs| ==> stream[start + k] == Decoded(bs[k])
    decreases i
  {
    var n := BatchLength(stream, pos);
    BatchesStep(stream, pos);
    if i == 0 {
      WindowOk(stream, pos, n);
    } else {
      assert n == BatchSize;
      BatchesPositions(stream, pos + n, i - 1);
      assert pos + n + BatchStart(i - 1) == pos + BatchStart(i);
    }
  }

  predicate AllPresent(bs: seq<BlockKey>, present: set<BlockKey>)
  {
    forall b :: b in bs ==> b in present
  }

  function Absorb(present: set<BlockKey>, bs: seq<BlockKey>): set<BlockKey>
  {
    present + (set b | b in bs)
  }

  /** The blocks the chain ends with, and the error ImportChain returns (None for success). */
  datatype ImportOutcome = ImportOutcome(blocks: set<BlockKey>, err: Option<ApiError>)

  /**
   * Importing batches, the first numbered batch, into a chain holding present:
   * a bad batch fails with the index of its malformed item; a batch the chain
   * already holds entirely is skipped; any other is inserted, and a refused
   * insertion fails with the batch number.
   */
  function ImportBatches(present: set<BlockKey>, refuse: (set<BlockKey>, seq<BlockKey>) -> Option<string>,
                         ws: seq<Batch>, batch: nat): ImportOutcome
    decreases |ws|
  {
    if ws == [] then ImportOutcome(present, None)
    else match ws[0]
      case BadBatch(index, why) => ImportOutcome(present, Some(BlockParseFailed(index, why)))
      case Batch(bs) =>
        if AllPresent(bs, present) then ImportBatches(present, refuse, ws[1..], batch + 1)
        else match refuse(present, bs)
          case Some(why) => ImportOutcome(present, Some(BatchInsertFailed(batch, why)))
          case None => ImportBatches(Absorb(present, bs), refuse, ws[1..], batch + 1)
  }

  /** A successful import met no bad batch and added the blocks of every batch. */
  lemma {:induction false} ImportBatchesSuccess(present: set<BlockKey>, refuse: (set<BlockKey>, seq<BlockKey>) -> Option<string>,
                                                ws: seq<Batch>, batch: nat)
    requires ImportBatches(present, refuse, ws, batch).err.None?
    ensures AllBlocks(ws)
    ensures ImportBatches(present, refuse, ws, batch).blocks == present + BatchBlocks(ws)
    decreases |ws|
  {
    if ws != [] {
      var bs := ws[0].blocks;
      if AllPresent(bs, present) {
        ImportBatchesSuccess(present, refuse, ws[1..], batch + 1);
        assert present == Absorb(present, bs);
      } else {
        ImportBatchesSuccess(Absorb(present, bs), refuse, ws[1..], batch + 1);
      }
      assert BatchBlocks(ws) == (set b | b in bs) + BatchBlocks(ws[1..]);
      assert forall i :: 1 <= i < |ws| ==> ws[i] == ws[1..][i - 1];
    }
  }

  /** Batches the chain already holds are all skipped: nothing is inserted and the import succeeds. */
  lemma {:induction false} ImportBatchesPresent(present: set<BlockKey>, refuse: (set<BlockKey>, seq<BlockKey>) -> Option<string>,
                                                ws: seq<Batch>, batch: nat)
    requires AllBlocks(ws) && BatchBlocks(ws) <= present
    ensures ImportBatches(present, refuse, ws, batch) == ImportOutcome(present, None)
    decreases |ws|
  {
    if ws != [] {
      assert ws[0].Batch?;
      assert AllBlocks(ws[1..]);
      assert AllPresent(ws[0].blocks, present);
      ImportBatchesPresent(present, refuse, ws[1..], batch + 1);
    }
  }

  /** A parse failure comes from a bad batch, reported with its index and text. */
  lemma {:induction false} ImportBatchesParse(present: set<BlockKey>, refuse: (set<BlockKey>, seq<BlockKey>) -> Option<string>,
                                              ws: seq<Batch>, batch: nat)
    requires ImportBatches(present, refuse, ws, batch).err.Some?
    requires ImportBatches(present, refuse, ws, batch).err.value.BlockParseFailed?
    ensures var e := ImportBatches(present, refuse, ws, batch).err.value;
            exists i :: 0 <= i < |ws| && ws[i] == BadBatch(e.index, e.reason)
    decreases |ws|
  {
    var e := ImportBatches(present, refuse, ws, batch).err.value;
    if ws[0].Batch? {
      var bs := ws[0].blocks;
      if AllPresent(bs, present) {
        ImportBatchesParse(present, refuse, ws[1..], batch + 1);
      } else {
        ImportBatchesParse(Absorb(present, bs), refuse, ws[1..], batch + 1);
      }
      var i :| 0 <= i < |ws[1..]| && ws[1..][i] == BadBatch(e.index, e.reason);
      assert ws[i + 1] == BadBatch(e.index, e.reason);
    } else {
      assert ws[0] == BadBatch(e.index, e.reason);
    }
  }

  /** An insertion failure names a batch of blocks, counting from the first batch number. */
  lemma {:induction false} ImportBatchesInsert(present: set<BlockKey>, refuse: (set<BlockKey>, seq<BlockKey>) -> Option<string>,
                                               ws: seq<Batch>, batch: nat)
    requires ImportBatches(present, refuse, ws, batch).err.Some?
    requires ImportBatches(present, refuse, ws, batch).err.value.BatchInsertFailed?
    ensures var b := ImportBatches(present, refuse, ws, batch).err.value.batch;
            batch <= b < batch + |ws| && ws[b - batch].Batch?
    decreases |ws|
  {
    var bs := ws[0].blocks;
    if AllPresent(bs, present) {
      ImportBatchesInsert(present, refuse, ws[1..], batch + 1);
    } else if refuse(present, bs).None? {
      ImportBatchesInsert(Absorb(present, bs), refuse, ws[1..], batch + 1);
    }
  }

  /** Batches of blocks all succeed when the chain accepts every insertion. */
  lemma {:induction false} ImportBatchesAccepted(present: set<BlockKey>, refuse: (set<BlockKey>, seq<BlockKey>) -> Option<string>,
                                                 ws: seq<Batch>, batch: nat)
    requires AllBlocks(ws)
    requires forall q, bs :: refuse(q, bs).None?
    ensures ImportBatches(present, refuse, ws, batch).err.None?
    decreases |ws|
  {
    if ws != [] {
      assert ws[0].Batch?;
      assert AllBlocks(ws[1..]);
      var bs := ws[0].blocks;
      if AllPresent(bs, present) {
        ImportBatchesAccepted(present, refuse, ws[1..], batch + 1);
      } else {
        ImportBatchesAccepted(Absorb(present, bs), refuse, ws[1..], batch + 1);
      }
    }
  }

  /** Importing the whole stream into a chain holding present. */
  ghost function ImportFrom(present: set<BlockKey>, refuse: (set<BlockKey>, seq<BlockKey>) -> Option<string>,
                      stream: seq<Decoded>): ImportOutcome
  {
    ImportBatches(present, refuse, Batches(stream, 0), 0)
  }

  /**
   * A successful import decoded every item of the stream and leaves the chain
   * holding exactly its former blocks plus every block of the stream.
   */
  lemma ImportSuccess(present: set<BlockKey>, refuse: (set<BlockKey>, seq<BlockKey>) -> Option<string>,
                      stream: seq<Decoded>)
    requires ImportFrom(present, refuse, stream).err.None?
    ensures forall k :: 0 <= k < |stream| ==> stream[k].Decoded?
    ensures ImportFrom(present, refuse, stream).blocks == present + StreamBlocks(stream, 0)
  {
    ImportBatchesSuccess(present, refuse, Batches(stream, 0), 0);
    BatchesDecoded(stream, 0);
    BatchesBlocks(stream, 0);
  }

  /** Importing a stream whose blocks the chain already holds inserts nothing and succeeds, whatever InsertChain would do. */
  lemma ImportAllPresent(present: set<BlockKey>, refuse: (set<BlockKey>, seq<BlockKey>) -> Option<string>,
                         stream: seq<Decoded>)
    requires forall k :: 0 <= k < |stream| ==> stream[k].Decoded? && stream[k].block in present
    ensures ImportFrom(present, refuse, stream) == ImportOutcome(present, None)
  {
    BatchesDecoded(stream, 0);
    BatchesBlocks(stream, 0);
    ImportBatchesPresent(present, refuse, Batches(stream, 0), 0);
  }

  /**
   * Importing the same stream a second time, after a first import succeeded,
   * succeeds without attempting a single insertion and leaves the chain as it was.
   */
  lemma ImportIdempotent(present: set<BlockKey>, refuse: (set<BlockKey>, seq<BlockKey>) -> Option<string>,
                         refuseLater: (set<BlockKey>, seq<BlockKey>) -> Option<string>, stream: seq<Decoded>)
    requires ImportFrom(present, refuse, stream).err.None?
    ensures var after := ImportFrom(present, refuse, stream).blocks;
            ImportFrom(after, refuseLater, stream) == ImportOutcome(after, None)
  {
    ImportSuccess(present, refuse, stream);
    var after := ImportFrom(present, refuse, stream).blocks;
    forall k | 0 <= k < |stream| ensures stream[k].Decoded? && stream[k].block in after {
      assert stream[k].block in StreamBlocks(stream, 0);
    }
    ImportAllPresent(after, refuseLater, stream);
  }

  /**
   * A parse failure reports the index of the offending item in the stream: it
   * is malformed, and every item before it decoded to a block.
   */
  lemma ImportParseFailure(present: set<BlockKey>, refuse: (set<BlockKey>, seq<BlockKey>) -> Option<string>,
                           stream: seq<Decoded>)
    requires ImportFrom(present, refuse, stream).err.Some?
    requires ImportFrom(present, refuse, stream).err.value.BlockParseFailed?
    ensures var e := ImportFrom(present, refuse, stream).err.value;
            && e.index < |stream|
            && stream[e.index] == Malformed(e.reason)
            && forall k :: 0 <= k < e.index ==> stream[k].Decoded?
  {
    ImportBatchesParse(present, refuse, Batches(stream, 0), 0);
    var e := ImportFrom(present, refuse, stream).err.value;
    var i :| 0 <= i < |Batches(stream, 0)| && Batches(stream, 0)[i] == BadBatch(e.index, e.reason);
    BatchesBad(stream, 0, i);
  }

  /**
   * An insertion failure reports batch number b, counting skipped batches:
   * the refused batch is the items from b * BatchSize up to the next multiple
   * of BatchSize or the end of the stream, all of them decoded blocks.
   */
  lemma ImportInsertFailure(present: set<BlockKey>, refuse: (set<BlockKey>, seq<BlockKey>) -> Option<string>,
                            stream: seq<Decoded>)
    requires ImportFrom(present, refuse, stream).err.Some?
    requires ImportFrom(present, refuse, stream).err.value.BatchInsertFailed?
    ensures var b := ImportFrom(present, refuse, stream).err.value.batch;
            && BatchStart(b) < |stream|
            && forall k :: BatchStart(b) <= k < BatchStart(b) + BatchLength(stream, BatchStart(b)) ==> stream[k].Decoded?
  {
    var ws := Batches(stream, 0);
    ImportBatchesInsert(present, refuse, ws, 0);
    var b := ImportFrom(present, refuse, stream).err.value.batch;
    BatchesPositions(stream, 0, b);
    var start, bs := BatchStart(b), ws[b].blocks;
    forall k | start <= k < start + BatchLength(stream, start) ensures stream[k].Decoded? {
      assert stream[start + (k - start)] == Decoded(bs[k - start]);
    }
  }

  /** A stream without malformed items imports successfully into a chain that accepts every batch. */
  lemma ImportAccepted(present: set<BlockKey>, refuse: (set<BlockKey>, seq<BlockKey>) -> Option<string>,
                       stream: seq<Decoded>)
    requires forall k :: 0 <= k < |stream| ==> stream[k].Decoded?
    requires forall q, bs :: refuse(q, bs).None?
    ensures ImportFrom(present, refuse, stream).err.None?
  {
    BatchesDecoded(stream, 0);
    ImportBatchesAccepted(present, refuse, Batches(stream, 0), 0);
  }

  /**
   * The inner loop of ImportChain: decodes items from position index until the
   * buffer holds BatchSize blocks or the stream ends, or stops at a malformed
   * item with its text.
   */
  method LoadBatch(stream: seq<Decoded>, index: nat) returns (blocks: seq<BlockKey>, next: nat, bad: Option<string>)
    requires index <= |stream|
    ensures index <= next <= |stream|
    ensures bad.None? ==>
              && next == index + BatchLength(stream, index)
              && DecodeWindow(stream, index, next - index) == Blocks(blocks)
    ensures bad.Some? ==>
              DecodeWindow(stream, index, BatchLength(stream, index)) == BadItem(next - index, bad.value)
  {
    ghost var n := BatchLength(stream, index);
    blocks, next, bad := [], index, None;
    while |blocks| < BatchSize
      invariant index <= next <= |stream|
      invariant |blocks| == next - index <= BatchSize
      invariant forall k :: index <= k < next ==> stream[k] == Decoded(blocks[k - index])
    {
      if next == |stream| {
        break;
      }
      match stream[next]
      case Malformed(why) =>
        WindowFirstBad(stream, index, n, next - index);
        return blocks, next, Some(why);
      case Decoded(b) =>
        blocks := blocks + [b];
        next := next + 1;
    }
    var w := DecodeWindow(stream, index, next - index);
    WindowDecodes(stream, index, next - index);
    WindowOk(stream, index, next - index);
    assert w.blocks == blocks;
  }

  /** ImportChain, once the file is open and wrapped in a decoding stream. */
  method ImportChain(chain: BlockChain, stream: seq<Decoded>) returns (ok: bool, err: Option<ApiError>)
    modifies chain
    ensures ok <==> err.None?
    ensures ImportOutcome(chain.blocks, err) == ImportFrom(old(chain.blocks), chain.refuse, stream)
  {
    var blocks: seq<BlockKey> := [];
    // index counts the blocks decoded so far, which is also the stream position
    // since a decoding error ends the import
    var index := 0;
    var batch := 0;
    while true
      invariant index <= |stream|
      invariant ImportBatches(chain.blocks, chain.refuse, Batches(stream, index), batch)
             == ImportFrom(old(chain.blocks), chain.refuse, stream)
      decreases |stream| - index
    {
      var start := index;
      var bad;
      blocks, index, bad := LoadBatch(stream, start);
      ghost var ws := Batches(stream, start);
      if start < |stream| {
        BatchesStep(stream, start);
      }
      if bad.Some? {
        assert ws[0] == BadBatch(index, bad.value);
        return false, Some(BlockParseFailed(index, bad.value));
      }
      if |blocks| == 0 {
        assert ws == [];
        break;
      }
      assert ws[0] == Batch(blocks) && ws[1..] == Batches(stream, index);
      var all := HasAllBlocks(chain, blocks);
      if all {
        assert ImportBatches(chain.blocks, chain.refuse, ws, batch)
            == ImportBatches(chain.blocks, chain.refuse, ws[1..], batch + 1);
        blocks := [];
        batch := batch + 1;
        continue;
      }
      ghost var before := chain.blocks;
      var e := chain.InsertChain(blocks);
      if e.Some? {
        assert ImportBatches(before, chain.refuse, ws, batch)
            == ImportOutcome(before, Some(BatchInsertFailed(batch, e.value)));
        return false, Some(BatchInsertFailed(batch, e.value));
      }
      assert ImportBatches(before, chain.refuse, ws, batch)
          == ImportBatches(chain.blocks, chain.refuse, ws[1..], batch + 1);
      blocks := [];
      batch := batch + 1;
    }
    return true, None;
  }
}
