/** The receive ring: fixed arrays of slots, filled in any order and read in sequence, under a counting semaphore. */
module ReceiveWindows {
  import opened Wire
  import Out = OutgoingStream
  import In = IncomingStream

  class ReceiveWindow {
    const size: nat
    const messages: array<Frame>
    const sequence: array<nat>
    const valid: array<bool>

    var semaphore: nat                 // permits
    var nextUnreadSequence: Sequence
    var nextExpectedSequence: Sequence
    var lastUnacknowledgedSequence: Sequence
    var currentAvailableSize: nat

    // The partial map of sequence numbers that the ring stores.
    ghost var buffer: map<Sequence, Frame>

    ghost function Repr(): set<object> {
      {this, messages, sequence, valid}
    }

    ghost function Value(): In.Incoming
      reads this
    {
      In.Incoming(size, nextUnreadSequence, nextExpectedSequence, lastUnacknowledgedSequence, currentAvailableSize,
                  buffer)
    }

    ghost predicate Shape() {
      messages.Length == sequence.Length == valid.Length == size && size > 0
    }

    /** A valid slot holds the message of its sequence number, which belongs there; and every buffered message has its
        slot. */
    ghost predicate Stores()
      requires Shape()
      reads this, messages, sequence, valid
    {
      && (forall i :: 0 <= i < size && valid[i] ==>
            sequence[i] in buffer && sequence[i] % size == i && messages[i] == buffer[sequence[i]])
      && (forall q :: q in buffer ==> valid[q % size] && sequence[q % size] == q)
    }

    ghost predicate Valid()
      reads this, messages, sequence, valid
    {
      && Shape()
      && In.Valid(Value())
      && semaphore == nextExpectedSequence - nextUnreadSequence
      && Stores()
    }

    constructor (size: nat)
      requires size > 0
      ensures Valid() && fresh(Repr())
      ensures Value() == In.Initial(size)
    {
      this.size := size;
      messages := new Frame[size](_ => Blank(0));
      sequence := new nat[size](_ => 0);
      valid := new bool[size](_ => false);
      semaphore := 0;
      nextUnreadSequence, nextExpectedSequence, lastUnacknowledgedSequence := 1, 1, 1;
      currentAvailableSize := In.MaxAdvertizedSize(size);
      buffer := map[];
    }

    /** A valid slot found where a message of the window belongs is that message: an overwrite replaces like by like,
        and the scan may trust the valid flags alone. */
    lemma SlotInWindow(q: Sequence)
      requires Valid() && nextUnreadSequence <= q < nextUnreadSequence + size
      ensures valid[q % size] <==> q in buffer
      ensures valid[q % size] ==> sequence[q % size] == q
    {
      ValidMeansBuffered(q);
    }

    /** Puts the message into its slot, in order or not. */
    method Place(f: Frame)
      requires Valid() && In.InWindow(Value(), f.sequence)
      modifies this`buffer, messages, sequence, valid
      ensures Shape() && Stores()
      ensures buffer == old(buffer)[f.sequence := f]
    {
      SlotInWindow(f.sequence);
      var index := f.sequence % size;
      messages[index] := f;
      sequence[index] := f.sequence;
      valid[index] := true;
      buffer := buffer[f.sequence := f];
      forall q | q in buffer && q != f.sequence ensures valid[q % size] && sequence[q % size] == q {
        Out.DistinctSlots(q, f.sequence, size);
      }
    }

    /** Moves the expected sequence on to the first message still missing, with a permit for every step. */
    method Scan()
      requires Shape() && Stores()
      requires forall q :: q in buffer ==> nextUnreadSequence <= q < nextUnreadSequence + size
      requires nextUnreadSequence <= nextExpectedSequence <= nextUnreadSequence + size
      requires semaphore == nextExpectedSequence - nextUnreadSequence
      modifies this`semaphore, this`nextExpectedSequence
      ensures nextExpectedSequence == In.FirstGap(buffer, old(nextExpectedSequence), nextUnreadSequence + size)
      ensures semaphore == nextExpectedSequence - nextUnreadSequence
    {
      var next := nextExpectedSequence;
      ghost var limit := nextUnreadSequence + size;
      while next - nextUnreadSequence < size
        invariant old(nextExpectedSequence) == nextExpectedSequence <= next <= limit
        invariant semaphore == next - nextUnreadSequence
        invariant In.FirstGap(buffer, nextExpectedSequence, limit) == In.FirstGap(buffer, next, limit)
      {
        ValidMeansBuffered(next);
        if valid[next % size] {
          next := next + 1;
          assert nextUnreadSequence != next;
          semaphore := semaphore + 1;
        } else {
          assert In.FirstGap(buffer, next, limit) == next;
          break;
        }
      }
      assert In.FirstGap(buffer, next, limit) == next;
      nextExpectedSequence := next;
    }

    /** Stores a message of the window, and scans. */
    method Store(f: Frame)
      requires Valid() && In.InWindow(Value(), f.sequence)
      modifies this`semaphore, this`nextExpectedSequence, this`buffer, messages, sequence, valid
      ensures Valid() && Value() == In.Store(old(Value()), f)
    {
      In.StoreIsValid(Value(), f);
      Place(f);
      Scan();
    }

    lemma ValidMeansBuffered(q: Sequence)
      requires Shape() && Stores()
      requires forall r :: r in buffer ==> nextUnreadSequence <= r < nextUnreadSequence + size
      requires nextUnreadSequence <= q < nextUnreadSequence + size
      ensures valid[q % size] <==> q in buffer
      ensures valid[q % size] ==> sequence[q % size] == q
    {
      if valid[q % size] && sequence[q % size] != q {
        Out.DistinctSlots(sequence[q % size], q, size);
      }
    }

    method CalculateCurrentWindowSize() returns (w: nat)
      requires Valid()
      ensures w == In.CurrentWindowSize(Value())
    {
      assert nextExpectedSequence >= nextUnreadSequence;
      var windowSize := (size - size / 2) - (nextExpectedSequence - nextUnreadSequence);
      w := Max(windowSize, 1);
    }

    method AcknowledgeAll()
      requires Valid()
      modifies this`lastUnacknowledgedSequence, this`currentAvailableSize
      ensures Valid() && Value() == In.AcknowledgeAll(old(Value()))
    {
      lastUnacknowledgedSequence := nextExpectedSequence;
      currentAvailableSize := CalculateCurrentWindowSize();
    }

    /** Both handshake messages start the window over; until then nothing was stored. */
    method StartAfter(opening: Sequence)
      requires Valid() && buffer == map[]
      modifies this`nextUnreadSequence, this`nextExpectedSequence, this`lastUnacknowledgedSequence,
               this`currentAvailableSize
      ensures Valid() && Value() == In.StartAfter(old(Value()), opening)
    {
      NothingBuffered();
      nextUnreadSequence := opening + 1;
      nextExpectedSequence := opening + 1;
      lastUnacknowledgedSequence := opening + 1;
      currentAvailableSize := In.MaxAdvertizedSize(size);
    }

    lemma NothingBuffered()
      requires Valid() && buffer == map[]
      ensures nextExpectedSequence == nextUnreadSequence
    {
      assert nextUnreadSequence !in buffer;
    }

    /** The next message to be read, for which a permit is held. */
    method Peek() returns (f: Frame)
      requires Valid() && nextUnreadSequence < nextExpectedSequence
      ensures nextUnreadSequence in buffer && f == buffer[nextUnreadSequence]
      ensures f.sequence == nextUnreadSequence
    {
      var index := nextUnreadSequence % size;
      assert nextUnreadSequence in buffer;
      assert valid[index] && sequence[index] == nextUnreadSequence;
      f := messages[index];
    }

    /** Frees the slot of the next message and moves the window on; the permit is spent. */
    method Take()
      requires Valid() && nextUnreadSequence < nextExpectedSequence
      modifies this`semaphore, this`nextUnreadSequence, this`currentAvailableSize, this`buffer, valid
      ensures Valid() && Value() == In.Take(old(Value()))
    {
      var before := Value();
      In.TakeIsValid(before);
      SlotInWindow(nextUnreadSequence);
      var index := nextUnreadSequence % size;
      valid[index] := false;
      buffer := buffer - {nextUnreadSequence};
      semaphore := semaphore - 1;
      nextUnreadSequence := nextUnreadSequence + 1;
      forall q | q in buffer ensures valid[q % size] && sequence[q % size] == q {
        Out.DistinctSlots(before.unread, q, size);
      }
      assert nextExpectedSequence >= nextUnreadSequence;
      currentAvailableSize := Max((size - size / 2) - (nextExpectedSequence - nextUnreadSequence), 1);
    }
  }
}
