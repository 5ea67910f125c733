/** The receiving half of a session as a value: which messages are buffered, and which may be read. */
module IncomingStream {
  import opened Wire

  const MAX_UNACKNOWLEDGED_THRESHOLD := 5

  datatype Incoming = Incoming(
    size: nat,                      // slots of the ring
    unread: Sequence,               // the next message to hand to the reader
    expected: Sequence,             // the first message still missing
    lastUnacknowledged: Sequence,   // the first message not covered by an ack
    availableSize: nat,             // the window advertised in every transmission
    buffer: map<Sequence, Frame>)   // the valid slots

  ghost predicate Valid(r: Incoming) {
    && r.size > 0
    && 1 <= r.unread <= r.expected <= r.unread + r.size
    && r.lastUnacknowledged <= r.expected
    && (forall q :: q in r.buffer ==> r.unread <= q < r.unread + r.size && r.buffer[q].sequence == q)
    && (forall q :: r.unread <= q < r.expected ==> q in r.buffer)
    && r.expected !in r.buffer
    && 1 <= r.availableSize <= MaxAdvertizedSize(r.size)
  }

  function MaxAdvertizedSize(size: nat): nat {
    size - size / 2
  }

  function Initial(size: nat): Incoming {
    Incoming(size, 1, 1, 1, MaxAdvertizedSize(size), map[])
  }

  /** Both handshake messages start the window over, after the peer's opening message. */
  function StartAfter(r: Incoming, opening: Sequence): Incoming {
    r.(unread := opening + 1, expected := opening + 1, lastUnacknowledged := opening + 1,
       availableSize := MaxAdvertizedSize(r.size))
  }

  function CurrentWindowSize(r: Incoming): (w: int)
    requires r.unread <= r.expected
    ensures 1 <= w && (r.size > 0 ==> w <= MaxAdvertizedSize(r.size))
  {
    Max(MaxAdvertizedSize(r.size) - (r.expected - r.unread), 1)
  }

  /** The first missing sequence number at or after `from`, looking no further than `limit`. */
  function FirstGap(buffer: map<Sequence, Frame>, from: Sequence, limit: Sequence): (gap: Sequence)
    requires from <= limit
    ensures from <= gap <= limit
    ensures gap < limit ==> gap !in buffer
    ensures forall q :: from <= q < gap ==> q in buffer
    decreases limit - from
  {
    if from < limit && from in buffer then FirstGap(buffer, from + 1, limit) else from
  }

  predicate InWindow(r: Incoming, q: Sequence) {
    r.expected <= q < r.unread + r.size
  }

  function Store(r: Incoming, f: Frame): Incoming
    requires r.expected <= r.unread + r.size
  {
    var buffer := r.buffer[f.sequence := f];
    r.(buffer := buffer, expected := FirstGap(buffer, r.expected, r.unread + r.size))
  }

  function AcknowledgeAll(r: Incoming): Incoming
    requires r.unread <= r.expected
  {
    r.(lastUnacknowledged := r.expected, availableSize := CurrentWindowSize(r))
  }

  /** Hands out the next message and moves the window on. */
  function Take(r: Incoming): Incoming
    requires r.unread < r.expected
  {
    var moved := r.(unread := r.unread + 1, buffer := r.buffer - {r.unread});
    moved.(availableSize := CurrentWindowSize(moved))
  }

  lemma StoreIsValid(r: Incoming, f: Frame)
    requires Valid(r) && InWindow(r, f.sequence)
    ensures Valid(Store(r, f))
    ensures r.expected <= Store(r, f).expected
    ensures Store(r, f).expected > r.expected <==> f.sequence == r.expected
  {
    var s := Store(r, f);
    assert s.expected == r.unread + r.size ==> s.expected !in s.buffer;
  }

  lemma TakeIsValid(r: Incoming)
    requires Valid(r) && r.unread < r.expected
    ensures Valid(Take(r))
  {}
}
