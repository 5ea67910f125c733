/** The sending half of a session as a value: everything ever sequenced, and how far it got. */
module OutgoingStream {
  import opened Wire

  const MAX_RETRANSMITS := 5
  const FAST_RETRANSMIT_THRESHOLD := 3
  const MIN_RETRANSMIT_DELAY := 100.0
  const MAX_RETRANSMIT_DELAY := 2000.0
  const INITIAL_ROUND_TRIP_TIME := 50.0

  /** `log[i]` is the message with sequence number i + 1; `sentAt[i]` says when it was first transmitted.
      Unlike the ring, the log forgets nothing: the ring's slots are recovered from it by `Latest`. */
  datatype Outgoing = Outgoing(
    size: nat,                 // slots of the ring
    log: seq<Entry>,
    unacknowledged: Sequence,
    lastSent: Sequence,
    sentAt: seq<nat>,
    lastAckCount: nat,
    roundTripTime: real,
    retransmitCount: nat,
    lastAvailableSize: nat)

  function NextSequence(o: Outgoing): Sequence {
    |o.log| + 1
  }

  ghost predicate Valid(o: Outgoing) {
    && o.size > 0
    && 1 <= o.unacknowledged <= o.lastSent + 1 <= NextSequence(o) <= o.unacknowledged + o.size
    && |o.sentAt| == o.lastSent
    && o.retransmitCount <= MAX_RETRANSMITS + 1
    && o.roundTripTime >= 0.0
  }

  function Initial(size: nat): Outgoing {
    Outgoing(size, [], 1, 0, [], 0, INITIAL_ROUND_TRIP_TIME, 0, 1)
  }

  // Permits left in the send semaphore.
  function FreeSlots(o: Outgoing): int {
    o.unacknowledged + o.size - NextSequence(o)
  }

  // ------------------------------------------------------------------ the ring, seen from the log

  /** The last sequence number up to `n` that was written to slot `slot`; 0 if there is none. */
  function Latest(n: nat, slot: nat, size: nat): (q: nat)
    requires size > 0
    ensures q <= n
    ensures q > 0 ==> q % size == slot
    decreases n
  {
    if n == 0 then 0 else if n % size == slot then n else Latest(n - 1, slot, size)
  }

  lemma ProductAtLeast(k: int, size: int)
    requires k >= 1 && size > 0
    ensures k * size >= size
  {}

  /** Two sequence numbers less than a ring apart never share a slot. */
  lemma SameSlot(a: nat, b: nat, size: nat)
    requires size > 0 && a <= b < a + size && a % size == b % size
    ensures a == b
  {
    var k := b / size - a / size;
    assert b - a == k * size by {
      assert b == (b / size) * size + b % size && a == (a / size) * size + a % size;
      assert (b / size) * size - (a / size) * size == k * size;
    }
    if k >= 1 {
      ProductAtLeast(k, size);
    } else if k <= -1 {
      ProductAtLeast(-k, size);
    }
  }

  lemma DistinctSlots(a: nat, b: nat, size: nat)
    requires size > 0 && a != b && a < b + size && b < a + size
    ensures a % size != b % size
  {
    if a % size == b % size {
      if a < b { SameSlot(a, b, size); } else { SameSlot(b, a, size); }
    }
  }

  /** Of the last `size` sequence numbers each is the latest in its slot. */
  lemma {:induction false} LatestOfRecent(n: nat, q: nat, size: nat)
    requires size > 0 && 0 < q <= n < q + size
    ensures Latest(n, q % size, size) == q
    decreases n
  {
    if q < n {
      if n % size == q % size {
        SameSlot(q, n, size);
      }
      LatestOfRecent(n - 1, q, size);
    }
  }

  /** What a transmission of "sequence number q" really puts on the wire: the content of slot q mod size,
      whatever it is - the message q, an older one, or nothing that was ever written. */
  function SlotFrame(o: Outgoing, q: Sequence, window: nat): Frame
    requires o.size > 0
  {
    var latest := Latest(|o.log|, q % o.size, o.size);
    if latest == 0 then Blank(window) else Carry(o.log[latest - 1], latest, window)
  }

  /** A frame with a sequence number carries the message logged under that number. */
  ghost predicate Logged(o: Outgoing, f: Frame) {
    1 <= f.sequence <= |o.log| && o.log[f.sequence - 1] == Entry(f.kind, f.sid, f.payload)
  }

  lemma SlotFrameIsLoggedOrBlank(o: Outgoing, q: Sequence, window: nat)
    requires o.size > 0
    ensures Logged(o, SlotFrame(o, q, window)) || SlotFrame(o, q, window) == Blank(window)
    ensures SlotFrame(o, q, window).window == window
  {}

  /** A live message is what its slot holds. */
  lemma LiveSlotFrame(o: Outgoing, q: Sequence, window: nat)
    requires Valid(o) && o.unacknowledged <= q <= |o.log|
    ensures SlotFrame(o, q, window) == Carry(o.log[q - 1], q, window)
  {
    LatestOfRecent(|o.log|, q, o.size);
  }

  /** The fast retransmission of message q, which has no upper bound, carries message q exactly if there is one. */
  lemma FastRetransmitIsCurrent(o: Outgoing, q: Sequence, window: nat)
    requires Valid(o) && o.unacknowledged <= q
    ensures SlotFrame(o, q, window).sequence == q <==> q <= |o.log|
    ensures SlotFrame(o, q, window).sequence != q ==> SlotFrame(o, q, window).sequence < q
  {
    if q <= |o.log| {
      LatestOfRecent(|o.log|, q, o.size);
    }
  }

  // ------------------------------------------------------------------ writing and acknowledging

  function Append(o: Outgoing, e: Entry): Outgoing {
    o.(log := o.log + [e])
  }

  // Time since `earlier` on the 64-bit millisecond clock.
  function Elapsed(now: nat, earlier: nat): nat {
    (now - earlier) % 0x1_0000_0000_0000_0000
  }

  // The moving average over two samples: two thirds of the new sample, one third of the average so far.
  function Blend(sample: real, average: real): real {
    2.0 / 3.0 * sample + 1.0 / 3.0 * average
  }

  /** The average after the messages from `unacknowledged` to `upTo` were acknowledged at time `now`;
      retransmissions in progress spoil the samples. */
  function AverageAfter(o: Outgoing, upTo: Sequence, now: nat): real
    requires upTo <= |o.sentAt|
    decreases upTo
  {
    if upTo < o.unacknowledged || upTo == 0 || o.retransmitCount != 0 then o.roundTripTime
    else Blend(Elapsed(now, o.sentAt[upTo - 1]) as real, AverageAfter(o, upTo - 1, now))
  }

  /** The last message acknowledged by "everything up to `maxSequence`": nothing unsent ever is. */
  function AckLimit(o: Outgoing, maxSequence: Sequence): Sequence {
    Min(maxSequence, o.lastSent)
  }

  predicate Progresses(o: Outgoing, maxSequence: Sequence) {
    o.unacknowledged <= AckLimit(o, maxSequence)
  }

  function Acknowledge(o: Outgoing, maxSequence: Sequence, now: nat): Outgoing
    requires |o.sentAt| == o.lastSent
  {
    if Progresses(o, maxSequence) then
      o.(unacknowledged := AckLimit(o, maxSequence) + 1,
         roundTripTime := AverageAfter(o, AckLimit(o, maxSequence), now),
         retransmitCount := 0,
         lastAckCount := 0)
    else
      o.(lastAckCount := (o.lastAckCount + 1) % 0x1_0000_0000)
  }

  lemma {:induction false} AverageIsNonNegative(o: Outgoing, upTo: Sequence, now: nat)
    requires upTo <= |o.sentAt| && o.roundTripTime >= 0.0
    ensures AverageAfter(o, upTo, now) >= 0.0
    decreases upTo
  {
    if !(upTo < o.unacknowledged || upTo == 0 || o.retransmitCount != 0) {
      AverageIsNonNegative(o, upTo - 1, now);
    }
  }

  lemma AcknowledgeIsValid(o: Outgoing, maxSequence: Sequence, now: nat)
    requires Valid(o)
    ensures Valid(Acknowledge(o, maxSequence, now))
    ensures var r := Acknowledge(o, maxSequence, now);
            r.log == o.log && o.unacknowledged <= r.unacknowledged <= Max(o.unacknowledged, maxSequence + 1)
  {
    if Progresses(o, maxSequence) {
      AverageIsNonNegative(o, AckLimit(o, maxSequence), now);
    }
  }

  // ------------------------------------------------------------------ retransmission

  function Pow2(n: nat): (p: nat)
    ensures p >= 1
  {
    if n == 0 then 1 else 2 * Pow2(n - 1)
  }

  function MinReal(a: real, b: real): real { if a < b then a else b }
  function MaxReal(a: real, b: real): real { if a > b then a else b }

  /** The back-off: the round trip time (at least 100 ms), doubled with every round, never above two seconds. */
  function Timeout(o: Outgoing): int {
    Capped(Delay(o))
  }

  function Delay(o: Outgoing): real {
    MaxReal(o.roundTripTime, MIN_RETRANSMIT_DELAY) * (Pow2(o.retransmitCount + 1) as real)
  }

  function Capped(delay: real): int {
    MinReal(delay, MAX_RETRANSMIT_DELAY).Floor
  }

  lemma {:induction false} Pow2Monotone(m: nat, n: nat)
    requires m <= n
    ensures Pow2(m) <= Pow2(n)
    decreases n
  {
    if m < n {
      Pow2Monotone(m, n - 1);
    }
  }

  lemma ScaleIsMonotone(base: real, p: real, q: real)
    requires base >= 100.0 && 2.0 <= p <= q
    ensures 200.0 <= base * p <= base * q
  {
    assert base * q - base * p == base * (q - p);
  }

  lemma CappedIsMonotone(x: real, y: real)
    requires 200.0 <= x <= y
    ensures 200 <= Capped(x) <= Capped(y) <= 2000
  {}

  lemma DelayGrows(o: Outgoing, later: Outgoing)
    requires o.roundTripTime == later.roundTripTime && o.retransmitCount <= later.retransmitCount
    ensures 200.0 <= Delay(o) <= Delay(later)
  {
    Pow2Monotone(1, o.retransmitCount + 1);
    Pow2Monotone(o.retransmitCount + 1, later.retransmitCount + 1);
    ScaleIsMonotone(MaxReal(o.roundTripTime, MIN_RETRANSMIT_DELAY),
                    Pow2(o.retransmitCount + 1) as real, Pow2(later.retransmitCount + 1) as real);
  }

  /** Every timeout lies between 200 ms and two seconds, and grows with the number of rounds. */
  lemma TimeoutBounds(o: Outgoing, later: Outgoing)
    requires o.roundTripTime == later.roundTripTime && o.retransmitCount <= later.retransmitCount
    ensures 200 <= Timeout(o) <= Timeout(later) <= 2000
  {
    hide Capped, Delay;
    DelayGrows(o, later);
    CappedIsMonotone(Delay(o), Delay(later));
  }

  predicate IsDue(o: Outgoing, q: Sequence, now: nat)
    requires 1 <= q <= |o.sentAt|
  {
    Elapsed(now, o.sentAt[q - 1]) > Timeout(o)
  }

  function Stamp(o: Outgoing, now: nat): Outgoing {
    o.(lastSent := o.lastSent + 1, sentAt := o.sentAt + [now], lastAvailableSize := Max(o.lastAvailableSize - 1, 0))
  }

  /** The average stays within the hull of what it was and the samples that entered it. */
  lemma {:induction false} AverageWithinHull(o: Outgoing, upTo: Sequence, now: nat, low: real, high: real)
    requires upTo <= |o.sentAt| && low <= o.roundTripTime <= high
    requires o.retransmitCount == 0 ==>
               forall i :: Max(o.unacknowledged - 1, 0) <= i < upTo ==> low <= Elapsed(now, o.sentAt[i]) as real <= high
    ensures low <= AverageAfter(o, upTo, now) <= high
    decreases upTo
  {
    if !(upTo < o.unacknowledged || upTo == 0 || o.retransmitCount != 0) {
      AverageWithinHull(o, upTo - 1, now, low, high);
    }
  }
}
