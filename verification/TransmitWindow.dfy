/** The send ring: fixed arrays of slots, reused modulo their number, under a counting semaphore. */
module TransmitWindows {
  import opened Wire
  import Out = OutgoingStream

  class TransmitWindow {
    const size: nat
    const messages: array<Frame>
    const sequence: array<nat>
    const initialTransmitTimeInMs: array<nat>
    const valid: array<bool>

    var semaphore: nat                 // permits
    var nextSequence: Sequence
    var nextUnacknowledgedSequence: Sequence
    var lastSentSequence: Sequence
    var lastAckCount: nat
    var roundTripTime: real
    var retransmitCount: nat
    var lastAvailableSize: nat

    // Everything ever written, and when it was first transmitted: the log the ring is a window on.
    ghost var log: seq<Entry>
    ghost var sentAt: seq<nat>

    ghost function Repr(): set<object> {
      {this, messages, sequence, initialTransmitTimeInMs, valid}
    }

    ghost function Value(): Out.Outgoing
      reads this
    {
      Out.Outgoing(size, log, nextUnacknowledgedSequence, lastSentSequence, sentAt, lastAckCount, roundTripTime,
                   retransmitCount, lastAvailableSize)
    }

    ghost predicate Shape() {
      && messages.Length == sequence.Length == initialTransmitTimeInMs.Length == valid.Length == size
      && sequence != initialTransmitTimeInMs
    }

    /** Slot `i` holds the latest message written to it, whether or not it is still needed; it is marked valid exactly
        while that message is unacknowledged, and knows when it was sent. */
    ghost predicate SlotOk(i: nat)
      requires Shape() && i < size && |sentAt| == lastSentSequence
      reads this, messages, sequence, initialTransmitTimeInMs, valid
    {
      && sequence[i] == Out.Latest(|log|, i, size)
      && messages[i] == (if sequence[i] == 0 then Blank(messages[i].window)
                         else Carry(log[sequence[i] - 1], sequence[i], messages[i].window))
      && (valid[i] <==> nextUnacknowledgedSequence <= sequence[i])
      && (nextUnacknowledgedSequence <= sequence[i] <= lastSentSequence ==>
            sequence[i] > 0 && initialTransmitTimeInMs[i] == sentAt[sequence[i] - 1])
    }

    /** The ring holds the live part of the log: the counters are in order, permits and live messages make up
        the ring. */
    ghost predicate Valid()
      reads this, messages, sequence, initialTransmitTimeInMs, valid
    {
      && Shape()
      && Out.Valid(Value())
      && nextSequence == Out.NextSequence(Value())
      && semaphore == Out.FreeSlots(Value())
      && forall i :: 0 <= i < size ==> SlotOk(i)
    }

    constructor (size: nat)
      requires size > 0
      ensures Valid() && fresh(Repr())
      ensures Value() == Out.Initial(size)
    {
      this.size := size;
      messages := new Frame[size](_ => Blank(0));
      sequence := new nat[size](_ => 0);
      initialTransmitTimeInMs := new nat[size](_ => 0);
      valid := new bool[size](_ => false);
      semaphore := size;
      nextSequence, nextUnacknowledgedSequence, lastSentSequence := 1, 1, 0;
      lastAckCount, roundTripTime, retransmitCount, lastAvailableSize := 0, Out.INITIAL_ROUND_TRIP_TIME, 0, 1;
      log, sentAt := [], [];
    }

    /** A live message sits, valid and under its own number, in its slot: the asserts of the source, and the reason why
        its branch for corrupted data is never taken. */
    lemma LiveSlot(q: Sequence)
      requires Valid() && nextUnacknowledgedSequence <= q < nextSequence
      ensures valid[q % size] && sequence[q % size] == q
      ensures messages[q % size] == Carry(log[q - 1], q, messages[q % size].window)
      ensures q <= lastSentSequence ==> initialTransmitTimeInMs[q % size] == sentAt[q - 1]
    {
      Out.LatestOfRecent(|log|, q, size);
      assert SlotOk(q % size);
    }

    /** The slot for the next message is not in use. */
    lemma NextSlotIsFree()
      requires Valid() && semaphore > 0
      ensures !valid[nextSequence % size]
    {
      var i := nextSequence % size;
      assert SlotOk(i);
      if valid[i] {
        Out.SameSlot(sequence[i], nextSequence, size);
        assert false;
      }
    }

    /** Takes a permit and a slot for one message. */
    method Write(e: Entry, window: nat)
      requires Valid() && semaphore > 0
      modifies this`semaphore, this`nextSequence, this`log, messages, sequence, valid
      ensures Valid() && Value() == Out.Append(old(Value()), e)
    {
      NextSlotIsFree();
      semaphore := semaphore - 1;
      var seqNumber := nextSequence;
      nextSequence := nextSequence + 1;
      var index := seqNumber % size;
      assert !valid[index];
      messages[index] := Frame(e.kind, e.sid, seqNumber, window, e.payload);
      sequence[index] := seqNumber;
      valid[index] := true;
      log := log + [e];
      forall i | 0 <= i < size ensures SlotOk(i) {
        assert old(SlotOk(i));
      }
    }

    // The valid slots are those whose message is numbered `q` or later.
    ghost predicate ValidFrom(q: Sequence)
      requires Shape()
      reads this, sequence, valid
    {
      forall i :: 0 <= i < size ==> (valid[i] <==> q <= sequence[i])
    }

    lemma ValidFromStart()
      requires Valid()
      ensures ValidFrom(nextUnacknowledgedSequence)
    {
      forall i | 0 <= i < size ensures valid[i] <==> nextUnacknowledgedSequence <= sequence[i] {
        assert SlotOk(i);
      }
    }

    // A sequence number is found in its own slot only.
    lemma OwnSlotOnly(q: Sequence)
      requires Valid() && nextUnacknowledgedSequence <= q < nextSequence
      ensures sequence[q % size] == q
      ensures forall i :: 0 <= i < size && sequence[i] == q ==> i == q % size
    {
      LiveSlot(q);
      forall i | 0 <= i < size && sequence[i] == q ensures i == q % size {
        assert SlotOk(i);
      }
    }

    // What the pass needs to know of a live message, given the two arrays it only reads: where it is, and when it was
    // sent.
    ghost predicate Found(numbers: seq<nat>, times: seq<nat>, stamps: seq<nat>, q: Sequence)
      requires size > 0 && |numbers| == |times| == size
    {
      && numbers[q % size] == q
      && (forall i :: 0 <= i < size && numbers[i] == q ==> i == q % size)
      && (1 <= q <= |stamps| ==> times[q % size] == stamps[q - 1])
    }

    lemma AllFound()
      requires Valid()
      ensures forall q: Sequence :: nextUnacknowledgedSequence <= q < nextSequence ==>
                Found(sequence[..], initialTransmitTimeInMs[..], sentAt, q)
    {
      forall q: Sequence | nextUnacknowledgedSequence <= q < nextSequence
        ensures Found(sequence[..], initialTransmitTimeInMs[..], sentAt, q)
      {
        OwnSlotOnly(q);
        LiveSlot(q);
      }
    }

    /** The acknowledging pass: invalidates the slots one by one, hands their permits back and samples the
        round trip. */
    method Invalidate(maxSequence: Sequence, now: nat) returns (q: Sequence, currentAverage: real)
      requires Valid()
      modifies this`semaphore, valid
      ensures q == Max(nextUnacknowledgedSequence, Out.AckLimit(Value(), maxSequence) + 1)
      ensures currentAverage == Out.AverageAfter(Value(), q - 1, now)
      ensures semaphore == old(semaphore) + q - nextUnacknowledgedSequence
      ensures ValidFrom(q)
    {
      hide SlotOk;
      q := nextUnacknowledgedSequence;
      currentAverage := roundTripTime;
      ValidFromStart();
      AllFound();
      ghost var numbers, times := sequence[..], initialTransmitTimeInMs[..];
      while q <= Min(maxSequence, lastSentSequence)
        invariant nextUnacknowledgedSequence <= q
        invariant q <= Max(nextUnacknowledgedSequence, Out.AckLimit(Value(), maxSequence) + 1)
        invariant semaphore == old(semaphore) + q - nextUnacknowledgedSequence
        invariant currentAverage == Out.AverageAfter(Value(), q - 1, now)
        invariant ValidFrom(q)
      {
        var index := q % size;
        assert Found(numbers, times, sentAt, q);
        assert sequence[index] == numbers[index] && initialTransmitTimeInMs[index] == times[index];
        assert valid[index] && sequence[index] == q;
        if !valid[index] || sequence[index] != q {
          break;
        }
        valid[index] := false;
        if retransmitCount == 0 {
          var elapsedTimeInMs := Out.Elapsed(now, initialTransmitTimeInMs[index]);
          currentAverage := Out.Blend(elapsedTimeInMs as real, currentAverage);
        }
        assert nextSequence - q <= size;
        semaphore := semaphore + 1;
        assert forall i :: 0 <= i < size ==> sequence[i] == numbers[i];
        q := q + 1;
      }
    }

    /** Acknowledges everything up to `maxSequence` that was sent; or counts a duplicate ack. */
    method MarkAcknowledged(maxSequence: Sequence, now: nat) returns (progressed: bool)
      requires Valid()
      modifies this`semaphore, this`nextUnacknowledgedSequence, this`roundTripTime, this`retransmitCount,
               this`lastAckCount, valid
      ensures Valid() && Value() == Out.Acknowledge(old(Value()), maxSequence, now)
      ensures progressed == Out.Progresses(old(Value()), maxSequence)
    {
      ghost var before := Value();
      Out.AcknowledgeIsValid(before, maxSequence, now);
      var q, currentAverage := Invalidate(maxSequence, now);
      if nextUnacknowledgedSequence < q {
        progressed := true;
        roundTripTime := currentAverage;
        retransmitCount := 0;
        nextUnacknowledgedSequence := q;
        lastAckCount := 0;
      } else {
        progressed := false;
        lastAckCount := (lastAckCount + 1) % 0x1_0000_0000;
      }
      forall i | 0 <= i < size ensures SlotOk(i) {
        assert old(SlotOk(i));
      }
    }

    // Is the message still where the transmitter looks for it? It always is.
    method Holds(q: Sequence) returns (ready: bool)
      requires Valid() && nextUnacknowledgedSequence <= q < nextSequence
      ensures ready
    {
      LiveSlot(q);
      ready := valid[q % size] && sequence[q % size] == q;
    }

    /** Has the acknowledgement of a transmitted message been outstanding for longer than the timeout? */
    method IsDue(q: Sequence, now: nat) returns (due: bool)
      requires Valid() && nextUnacknowledgedSequence <= q <= lastSentSequence
      ensures due == Out.IsDue(Value(), q, now)
    {
      LiveSlot(q);
      var retransmitMultiplier := Out.Pow2(retransmitCount + 1) as real;
      var currentTimeout := Out.Capped(Out.MaxReal(roundTripTime, Out.MIN_RETRANSMIT_DELAY) * retransmitMultiplier);
      due := Out.Elapsed(now, initialTransmitTimeInMs[q % size]) > currentTimeout;
    }

    /** Whatever slot `q % size` holds, with the window size written anew: what a retransmission transmits. */
    method SlotContent(q: Sequence, window: nat) returns (f: Frame)
      requires Valid()
      modifies messages
      ensures Valid() && Value() == old(Value())
      ensures f == Out.SlotFrame(Value(), q, window)
    {
      var index := q % size;
      assert SlotOk(index);
      messages[index] := messages[index].(window := window);
      f := messages[index];
      forall i | 0 <= i < size ensures SlotOk(i) {
        assert old(SlotOk(i));
      }
    }

    // A fast retransmission that got through starts the timed rounds over.
    method ResetRetransmitCount()
      requires Valid()
      modifies this`retransmitCount
      ensures Valid() && Value() == old(Value()).(retransmitCount := 0)
    {
      retransmitCount := 0;
      forall i | 0 <= i < size ensures SlotOk(i) {
        assert old(SlotOk(i));
      }
    }

    method CountRound()
      requires Valid() && retransmitCount <= Out.MAX_RETRANSMITS
      modifies this`retransmitCount
      ensures Valid() && Value() == old(Value()).(retransmitCount := old(retransmitCount) + 1)
    {
      retransmitCount := retransmitCount + 1;
      forall i | 0 <= i < size ensures SlotOk(i) {
        assert old(SlotOk(i));
      }
    }

    method SetAvailableSize(window: nat)
      requires Valid()
      modifies this`lastAvailableSize
      ensures Valid() && Value() == old(Value()).(lastAvailableSize := window)
    {
      lastAvailableSize := window;
      forall i | 0 <= i < size ensures SlotOk(i) {
        assert old(SlotOk(i));
      }
    }

    /** The first transmission of the next unsent message is on record. */
    method NoteTransmission(now: nat)
      requires Valid() && lastSentSequence + 1 < nextSequence && lastAvailableSize > 0
      modifies this`lastSentSequence, this`lastAvailableSize, this`sentAt, initialTransmitTimeInMs
      ensures Valid() && Value() == Out.Stamp(old(Value()), now)
    {
      var q := lastSentSequence + 1;
      LiveSlot(q);
      initialTransmitTimeInMs[q % size] := now;
      lastSentSequence := q;
      lastAvailableSize := lastAvailableSize - 1;
      sentAt := sentAt + [now];
      forall i | 0 <= i < size ensures SlotOk(i) {
        assert old(SlotOk(i));
      }
    }
  }
}
