/** Server blocks of the transfer protocol: an append-only byte store kept in 4096-byte chunks, with a running
    checksum. */
module TransferBlocks {
  import opened Crc32
  import opened Memory

  const TRANSFER_CHUNK_SIZE_IN_BYTES := 4096

  /** The number of whole chunks that `bytes` bytes occupy. */
  function ChunksFor(bytes: nat): (n: nat)
    ensures bytes <= n * TRANSFER_CHUNK_SIZE_IN_BYTES
    ensures n > 0 ==> (n - 1) * TRANSFER_CHUNK_SIZE_IN_BYTES < bytes
  {
    (bytes + TRANSFER_CHUNK_SIZE_IN_BYTES - 1) / TRANSFER_CHUNK_SIZE_IN_BYTES
  }

  // ------------------------------------------------------------------ the block as a value

  datatype Block = Block(data: seq<Byte>, crc: bv32, chunks: nat, closed: bool)

  datatype BlockOp = Write(bytes: seq<Byte>) | Reserve(size: nat) | Close | Reset

  const EMPTY_BLOCK := Block([], 0, 0, false)

  /** The chunk count after a write: only what the free space cannot hold is added, in whole chunks. */
  function ChunksAfter(chunks: nat, used: nat, count: nat): nat
    requires used <= chunks * TRANSFER_CHUNK_SIZE_IN_BYTES
  {
    var available := chunks * TRANSFER_CHUNK_SIZE_IN_BYTES - used;
    if available < count then chunks + ChunksFor(count - available) else chunks
  }

  ghost predicate Fits(b: Block) {
    |b.data| <= b.chunks * TRANSFER_CHUNK_SIZE_IN_BYTES
  }

  /** Writes and closes of a closed block are programming errors (the asserts); they are not steps. */
  predicate Allowed(b: Block, op: BlockOp) {
    (op.Write? || op.Close?) ==> !b.closed
  }

  function Apply(b: Block, op: BlockOp): (r: Block)
    requires Fits(b) && Allowed(b, op)
    ensures Fits(r)
  {
    match op
    case Write(bytes) =>
      if bytes == [] then b
      else b.(data := b.data + bytes, crc := Checksum(bytes, b.crc), chunks := ChunksAfter(b.chunks, |b.data|, |bytes|))
    case Reserve(_) => b
    case Close => b.(closed := true)
    case Reset => b.(data := [], crc := 0, closed := false)
  }

  // ------------------------------------------------------------------ whole histories of a block

  /** The history obeys the asserts, and leads from the empty block to `b`. */
  ghost predicate LeadsTo(ops: seq<BlockOp>, b: Block)
    decreases |ops|
  {
    if ops == [] then b == EMPTY_BLOCK
    else
      var before, op := ops[..|ops| - 1], ops[|ops| - 1];
      exists p :: LeadsTo(before, p) && Fits(p) && Allowed(p, op) && b == Apply(p, op)
  }

  /** Independent of the block: what was written since the last reset. */
  function WrittenSinceReset(ops: seq<BlockOp>): seq<Byte>
    decreases |ops|
  {
    if ops == [] then [] else Extended(WrittenSinceReset(ops[..|ops| - 1]), ops[|ops| - 1])
  }

  function Extended(before: seq<Byte>, op: BlockOp): seq<Byte> {
    match op
    case Write(bytes) => before + bytes
    case Reserve(_) => before
    case Close => before
    case Reset => []
  }

  /** Independent of the block: was it closed, and not reset since? */
  ghost predicate ClosedSinceReset(ops: seq<BlockOp>) {
    exists i :: 0 <= i < |ops| && ops[i] == Close && forall j :: i < j < |ops| ==> ops[j] != Reset
  }

  lemma OneMoreOp(ops: seq<BlockOp>)
    requires ops != []
    ensures ClosedSinceReset(ops) <==>
              var op := ops[|ops| - 1];
              op == Close || (op != Reset && ClosedSinceReset(ops[..|ops| - 1]))
  {
    var before, n := ops[..|ops| - 1], |ops| - 1;
    if ops[n] != Reset && ClosedSinceReset(before) {
      var i :| 0 <= i < n && before[i] == Close && forall j :: i < j < n ==> before[j] != Reset;
      assert ops[i] == Close && forall j :: i < j < n ==> ops[j] == before[j];
    }
    if ClosedSinceReset(ops) {
      var i :| 0 <= i < |ops| && ops[i] == Close && forall j :: i < j < |ops| ==> ops[j] != Reset;
      if i < n {
        assert before[i] == Close && forall j :: i < j < n ==> before[j] == ops[j];
      }
    }
  }

  lemma NeverClosed(ops: seq<BlockOp>)
    requires Close !in ops
    ensures !ClosedSinceReset(ops)
  {}

  // As many chunks as the bytes need stay as many as they need.
  lemma ChunksKeepUp(used: nat, count: nat)
    ensures ChunksAfter(ChunksFor(used), used, count) == ChunksFor(used + count)
  {}

  ghost predicate Holds(b: Block, content: seq<Byte>, neverReset: bool) {
    && b.data == content && b.crc == Checksum(content, 0) && Fits(b)
    && (neverReset ==> b.chunks == ChunksFor(|content|))
  }

  lemma StepHolds(b: Block, content: seq<Byte>, neverReset: bool, op: BlockOp)
    requires Holds(b, content, neverReset) && Allowed(b, op)
    ensures Holds(Apply(b, op), Extended(content, op), neverReset && op != Reset)
    ensures Apply(b, op).closed <==> op == Close || (op != Reset && b.closed)
  {
    hide Checksum, ChunksAfter, ChunksFor;
    ChecksumConcat([], [], 0);
    if op.Write? {
      if op.bytes == [] {
        assert content + op.bytes == content;
      } else {
        ChunksKeepUp(|content|, |op.bytes|);
        ChecksumConcat(content, op.bytes, 0);
      }
    }
  }

  /** Every history leaves exactly the bytes written since the last reset, with their one-shot checksum, within
      the chunks; and if there was no reset, in exactly as many chunks as those bytes need. The block is closed exactly
      if it was closed since that reset. */
  lemma {:induction false} HistoryOfABlock(ops: seq<BlockOp>, b: Block)
    requires LeadsTo(ops, b)
    ensures b.data == WrittenSinceReset(ops)
    ensures b.crc == Checksum(b.data, 0)
    ensures |b.data| <= b.chunks * TRANSFER_CHUNK_SIZE_IN_BYTES
    ensures Reset !in ops ==> b.chunks == ChunksFor(|b.data|)
    ensures b.closed <==> ClosedSinceReset(ops)
    decreases |ops|
  {
    hide Checksum, Apply, Extended, ClosedSinceReset;
    if ops == [] {
      ChecksumConcat([], [], 0);
      assert !ClosedSinceReset(ops) by { NeverClosed(ops); }
    } else {
      OneMoreOp(ops);
      var before, op := ops[..|ops| - 1], ops[|ops| - 1];
      var p :| LeadsTo(before, p) && Fits(p) && Allowed(p, op) && b == Apply(p, op);
      HistoryOfABlock(before, p);
      StepHolds(p, WrittenSinceReset(before), Reset !in before, op);
      assert Reset in before ==> Reset in ops;
    }
  }

  // ------------------------------------------------------------------ the block as the program keeps it

  /** The vector's capacity grows to the next power of two. */
  function Pow2Pad(n: nat, p: nat): (r: nat)
    requires p > 0
    ensures r >= n && r >= p
    decreases n - p
  {
    if n <= p then p else Pow2Pad(n, 2 * p)
  }

  class ServerBlock {
    var storage: array<Byte>          // the chunk vector's memory, as bytes
    var numChunks: nat                // the chunk vector's size
    var blockDataSize: nat
    var crc32: bv32
    var isClosed: bool
    var numPendingTransfers: nat
    var transfersCompleted: bool      // the event: true while signaled

    ghost predicate Valid()
      reads this
    {
      && blockDataSize <= numChunks * TRANSFER_CHUNK_SIZE_IN_BYTES <= storage.Length
      && (transfersCompleted <==> numPendingTransfers == 0)
    }

    ghost function Value(): Block
      requires Valid()
      reads this, storage
    {
      Block(storage[..blockDataSize], crc32, numChunks, isClosed)
    }

    constructor ()
      ensures Valid() && fresh(storage) && Value() == EMPTY_BLOCK && numPendingTransfers == 0
    {
      storage := new Byte[8 * TRANSFER_CHUNK_SIZE_IN_BYTES];
      numChunks, blockDataSize, crc32 := 0, 0, 0;
      isClosed, numPendingTransfers, transfersCompleted := false, 0, true;
      new;
      assert storage[..blockDataSize] == [];
    }

    /** Makes room for `newSize` chunks; the chunks in use survive the move. */
    method ReserveChunks(newSize: nat)
      requires Valid()
      modifies this`storage
      ensures Valid() && (storage == old(storage) || fresh(storage))
      ensures newSize * TRANSFER_CHUNK_SIZE_IN_BYTES <= storage.Length
      ensures Value() == old(Value())
    {
      if storage.Length < newSize * TRANSFER_CHUNK_SIZE_IN_BYTES {
        var newCapacity := Pow2Pad(newSize, 1);
        var data := new Byte[newCapacity * TRANSFER_CHUNK_SIZE_IN_BYTES];
        forall i | 0 <= i < numChunks * TRANSFER_CHUNK_SIZE_IN_BYTES {
          data[i] := storage[i];
        }
        assert data[..blockDataSize] == storage[..blockDataSize];
        storage := data;
      }
    }

    method CopyIn(source: seq<Byte>)
      requires blockDataSize + |source| <= storage.Length
      modifies storage
      ensures storage[..blockDataSize + |source|] == old(storage[..blockDataSize]) + source
    {
      forall i | 0 <= i < |source| {
        storage[blockDataSize + i] := source[i];
      }
    }

    // Adds the chunks that `count` more bytes need.
    method Grow(count: nat)
      requires Valid()
      modifies this`storage, this`numChunks
      ensures Valid() && (storage == old(storage) || fresh(storage))
      ensures Value() == old(Value()).(chunks := ChunksAfter(old(numChunks), blockDataSize, count))
      ensures blockDataSize + count <= storage.Length
      ensures blockDataSize + count <= numChunks * TRANSFER_CHUNK_SIZE_IN_BYTES
    {
      var blockCapacityInBytes := numChunks * TRANSFER_CHUNK_SIZE_IN_BYTES;
      var bytesAvailable := blockCapacityInBytes - blockDataSize;
      if bytesAvailable < count {
        var additionalBytesRequired := count - bytesAvailable;
        var numChunksRequired := ChunksFor(additionalBytesRequired);
        ReserveChunks(numChunks + numChunksRequired);
        numChunks := numChunks + numChunksRequired;
      }
    }

    method Write(source: seq<Byte>)
      requires Valid() && !isClosed
      modifies this`storage, this`numChunks, this`blockDataSize, this`crc32, storage
      ensures Valid() && (storage == old(storage) || fresh(storage))
      ensures Value() == Apply(old(Value()), BlockOp.Write(source))
    {
      hide Checksum, ChunksAfter;
      if |source| > 0 {
        Grow(|source|);
        assert storage[..blockDataSize] == old(Value()).data;
        CopyIn(source);
        assert storage[blockDataSize..blockDataSize + |source|] == source;
        crc32 := CRC32(storage[blockDataSize..blockDataSize + |source|], crc32);
        blockDataSize := blockDataSize + |source|;
      }
    }

    method Close()
      requires Valid() && !isClosed
      modifies this`isClosed
      ensures Valid() && Value() == Apply(old(Value()), BlockOp.Close)
    {
      isClosed := true;
    }

    /** Back to the empty block; the chunks stay allocated. */
    method Reset()
      requires Valid()
      modifies this`isClosed, this`blockDataSize, this`crc32
      ensures Valid() && Value() == Apply(old(Value()), BlockOp.Reset)
    {
      isClosed := false;
      blockDataSize := 0;
      crc32 := 0;
      assert storage[..0] == [];
    }

    /** A capacity hint: the block's value is untouched. */
    method Reserve(bytes: nat)
      requires Valid()
      modifies this`storage
      ensures Valid() && (storage == old(storage) || fresh(storage))
      ensures Value() == Apply(old(Value()), BlockOp.Reserve(bytes))
      ensures !isClosed ==> bytes <= storage.Length
    {
      if !isClosed {
        ReserveChunks(ChunksFor(bytes));
      }
    }

    /** The event stays in step with the counter: cleared by the first transfer, signaled by the last. */
    method BeginTransfer()
      requires Valid()
      modifies this`numPendingTransfers, this`transfersCompleted
      ensures Valid() && numPendingTransfers == old(numPendingTransfers) + 1 && !transfersCompleted
    {
      numPendingTransfers := numPendingTransfers + 1;
      if numPendingTransfers == 1 {
        transfersCompleted := false;
      }
    }

    method EndTransfer()
      requires Valid() && numPendingTransfers > 0
      modifies this`numPendingTransfers, this`transfersCompleted
      ensures Valid() && numPendingTransfers == old(numPendingTransfers) - 1
      ensures transfersCompleted <==> numPendingTransfers == 0
    {
      numPendingTransfers := numPendingTransfers - 1;
      if numPendingTransfers == 0 {
        transfersCompleted := true;
      }
    }
  }
}
