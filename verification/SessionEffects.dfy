/** What each call and each message brings about in a session: data that arrives is kept, acks acknowledge, what is
    overdue is resent, a shutdown sends its Fin. */
module SessionEffects {
  import opened Wire
  import Out = OutgoingStream
  import In = IncomingStream
  import opened SessionSteps
  import opened SessionInvariant

  // ------------------------------------------------------------------ arriving data

  /** Is the session in a state in which it stores such a message? */
  predicate Stores(s: Session, kind: Kind) {
    || (kind == Data && s.state in {Established, FinWait1, FinWait2})
    || (kind == Fin && s.state in {Listening, SynSent, SynReceived, Established, FinWait1, FinWait2})
  }

  // The ack a session sends for what it has received in order, with the window it then advertises.
  predicate IsAckOf(f: Frame, t: Session) {
    f.kind == Ack && f.sid == t.sid && f.sequence + 1 == t.recv.expected && f.window == t.recv.availableSize
    && f.payload == Empty
  }

  predicate InPlace(r: In.Incoming, f: Frame) {
    r.expected <= f.sequence < r.unread + r.size && PayloadSize(f.payload) <= 1384
  }

  /** What an arriving message makes of the receiving half: one of the window is kept, whatever arrived before it, and
      if it was the missing one, everything up to the next gap may be read; one out of place changes nothing that is
      kept. */
  ghost predicate Keeps(r: In.Incoming, t: In.Incoming, f: Frame) {
    && t.unread == r.unread && t.size == r.size
    && (InPlace(r, f) ==>
          && t.buffer == r.buffer[f.sequence := f]
          && (f.sequence == r.expected ==> f.sequence < t.expected)
          && (f.sequence != r.expected ==> t.expected == r.expected)
          && (t.expected < r.unread + r.size ==> t.expected !in t.buffer)
          && (forall q :: r.unread <= q < t.expected ==> q in t.buffer))
    && (!InPlace(r, f) ==> t.buffer == r.buffer && t.expected == r.expected)
  }

  lemma StoringKeeps(s: Session, f: Frame, outcome: Outcome)
    requires Coherent(s)
    ensures Keeps(s.recv, WriteMessageIntoReceiveWindow(s, f, outcome).s.recv, f)
  {
    hide LogShape, Out.Valid;
    if In.InWindow(s.recv, f.sequence) {
      In.StoreIsValid(s.recv, f);
      ShutdownKeeps(s.(recv := In.AcknowledgeAll(In.Store(s.recv, f))), Error);
    }
    ShutdownKeeps(s.(recv := In.AcknowledgeAll(s.recv)), Error);
  }

  /** Data and Fins that arrive in a state that stores them are kept. */
  lemma ArrivalsAreKept(s: Session, f: Frame, env: Env)
    requires Coherent(s) && Stores(s, f.kind)
    ensures Keeps(s.recv, HandleMessage(s, f, env).s.recv, f)
  {
    hide LogShape, Out.Valid, WriteMessageIntoReceiveWindow;
    StoringKeeps(s, f, env.link(0));
    if f.kind == Fin {
      StaysReadable(s, f, env.link(0));
      var w := WriteMessageIntoReceiveWindow(s, f, env.link(0)).s;
      ShutdownKeeps(w.(recv := In.AcknowledgeAll(w.recv)), Error);
    }
  }

  /** A message out of place - stale, or too large - is answered at once with an ack of what there is; one of the window
      is answered at once if it makes five or more unacknowledged where some were before; any other waits for the
      update. */
  lemma ArrivalsAreAnswered(s: Session, f: Frame, env: Env)
    requires Coherent(s) && f.kind == Data && Stores(s, Data) && env.link(0) != Broken
    ensures var r, h := s.recv, HandleMessage(s, f, env);
            var stale := f.sequence < r.expected || PayloadSize(f.payload) > 1384;
            var pressing := InPlace(r, f) && r.lastUnacknowledged < r.expected
                            && r.lastUnacknowledged + 5 <= h.s.recv.expected;
            && (stale || pressing ==>
                  && |h.out| == 1 && IsAckOf(h.out[0], h.s)
                  && h.s.recv.lastUnacknowledged == h.s.recv.expected)
            && (!stale && !pressing ==> h.out == [] && h.s.recv.lastUnacknowledged == r.lastUnacknowledged)
  {
    hide LogShape, Out.Valid, BufferKinds, FinMeansClosing;
    if In.InWindow(s.recv, f.sequence) {
      In.StoreIsValid(s.recv, f);
    }
  }

  /** A Fin moves an open session to Closing; to one that has sent its own Fin it is the last message. */
  lemma FinCloses(s: Session, f: Frame, env: Env)
    requires Coherent(s) && f.kind == Fin && s.state != Closed
    ensures var h := HandleMessage(s, f, env);
            && (s.state in {Listening, SynSent, SynReceived, Established, FinWait1} ==>
                  h.s.state == Closing && h.s.reason == Success)
            && (s.state == FinWait2 ==>
                  && h.s.state == Closed && h.s.reason == Success
                  && (env.link(0) != Broken && env.link(1) != Broken ==>
                        |h.out| > 0 && IsAckOf(h.out[|h.out| - 1], h.s)))
            && (s.state == Closing ==> h.s.state == Closing && h.out == [] && h.s.recv == s.recv)
  {
    hide LogShape, Out.Valid, BufferKinds, FinMeansClosing, WriteMessageIntoReceiveWindow;
    StaysReadable(s, f, env.link(0));
  }

  /** Every update acknowledges what is pending, and only that. */
  lemma UpdateAcknowledges(s: Session, outcome: Outcome)
    requires Coherent(s) && outcome != Broken
    ensures var u := UpdateReceiveWindow(s, outcome);
            && u.s.recv.lastUnacknowledged == s.recv.expected == u.s.recv.expected && u.s.recv.buffer == s.recv.buffer
            && (s.recv.lastUnacknowledged < s.recv.expected ==> |u.out| == 1 && IsAckOf(u.out[0], u.s))
            && (s.recv.lastUnacknowledged == s.recv.expected ==> u.out == [] && u.s == s)
  {}

  /** Whenever an ack is due or a message is read, the window advertised is what is left of half the ring - its larger
      half - after the messages that wait to be read, but never nothing. */
  ghost predicate Advertises(r: In.Incoming) {
    || r.availableSize + (r.expected - r.unread) + r.size / 2 == r.size
    || (r.availableSize == 1 && 1 + (r.expected - r.unread) + r.size / 2 >= r.size)
  }

  lemma AcksAndReadsAdvertise(s: Session)
    requires Coherent(s)
    ensures Advertises(SendAckMessage(s, Delivered).s.recv)
    ensures s.recv.unread < s.recv.expected ==> Advertises(In.Take(s.recv))
  {}

  // ------------------------------------------------------------------ arriving acknowledgements

  /** A message that the session takes for an ack of everything up to `upTo`. */
  predicate IsAckUpTo(s: Session, f: Frame, upTo: Sequence) {
    || (f.kind == Ack && s.state in {SynReceived, Established, FinWait1, FinWait2, Closing} && upTo == f.sequence)
    || (f.kind == SynAck && s.state in {Established, FinWait1, FinWait2, Closing} && upTo == f.sequence)
    || (f.kind == SynAck && s.state == SynSent && f.payload.SynAckInfo? && upTo == f.payload.synSequence)
  }

  // What acknowledging makes of the sending half.
  ghost predicate Acknowledged(o: Out.Outgoing, p: Out.Outgoing, upTo: Sequence) {
    && p.log == o.log && p.lastSent == o.lastSent && p.sentAt == o.sentAt
    && (o.unacknowledged <= upTo <= o.lastSent ==> p.unacknowledged == upTo + 1)
    && (o.unacknowledged <= o.lastSent < upTo ==> p.unacknowledged == o.lastSent + 1)
    && (o.unacknowledged <= upTo && o.unacknowledged <= o.lastSent ==> p.lastAckCount == 0 && p.retransmitCount == 0)
    && (upTo < o.unacknowledged || o.lastSent < o.unacknowledged ==>
          p.unacknowledged == o.unacknowledged && p.lastAckCount == (o.lastAckCount + 1) % 0x1_0000_0000
          && p.roundTripTime == o.roundTripTime)
  }

  lemma MarkingAcknowledges(s: Session, upTo: Sequence, env: Env)
    requires Windows(s)
    ensures Acknowledged(s.send, MarkMessagesAsAcknowledged(s, upTo, env).s.send, upTo)
  {
    var o := s.send;
    ShutdownKeeps(s.(send := Out.Acknowledge(s.send, upTo, env.clock(0))), Error);
  }

  /** An ack acknowledges exactly what was sent of what it names, and frees as many permits; an ack of nothing new is
      counted. */
  lemma AcksAcknowledge(s: Session, f: Frame, upTo: Sequence, env: Env)
    requires Coherent(s) && WellFormed(f) && IsAckUpTo(s, f, upTo)
    ensures Acknowledged(s.send, HandleMessage(s, f, env).s.send.(lastAvailableSize := s.send.lastAvailableSize), upTo)
    ensures HandleMessage(s, f, env).s.send.lastAvailableSize == f.window
  {
    hide LogShape, MarkMessagesAsAcknowledged, SendAckMessage, In.Valid, Out.Valid, BufferKinds, FinMeansClosing;
    var before := if s.state == SynReceived then s.(state := Established) else s;
    MarkingAcknowledges(before, upTo, env);
    var m := MarkMessagesAsAcknowledged(before, upTo, env);
    ShutdownKeeps(Dispatch(s, f, env).s, Error);
    if s.state == SynSent {
      AnsweringKeepsSend(Adopt(MarkMessagesAsAcknowledged(s, upTo, env).s, f), env.link(1));
    }
  }

  lemma AnsweringKeepsSend(s: Session, outcome: Outcome)
    requires s.recv.unread <= s.recv.expected && 1 <= s.recv.expected
    ensures SendAckMessage(s, outcome).s.send == s.send
  {}

  /** The round trip average is taken over two samples: after each message acknowledged in order, two thirds are the
      time since it was first sent, one third what the average was. Retransmissions under way spoil the samples. */
  lemma AcksAverage(o: Out.Outgoing, q: Sequence, now: nat)
    requires Out.Valid(o) && o.unacknowledged <= q <= o.lastSent && o.sentAt[q - 1] <= now
    requires now - o.sentAt[q - 1] < 0x1_0000_0000_0000_0000
    ensures var sample := (now - o.sentAt[q - 1]) as real;
            var before := if q == o.unacknowledged then o.roundTripTime
                          else Out.Acknowledge(o, q - 1, now).roundTripTime;
            Out.Acknowledge(o, q, now).roundTripTime * 3.0
            == if o.retransmitCount == 0 then sample * 2.0 + before else o.roundTripTime * 3.0
  {
    assert Out.Elapsed(now, o.sentAt[q - 1]) == now - o.sentAt[q - 1];
    assert Out.AckLimit(o, q) == q && Out.AckLimit(o, q - 1) == q - 1;
    assert Out.Acknowledge(o, q, now).roundTripTime == Out.AverageAfter(o, q, now);
    assert q > o.unacknowledged ==> Out.Acknowledge(o, q - 1, now).roundTripTime == Out.AverageAfter(o, q - 1, now);
    assert q == o.unacknowledged ==> Out.AverageAfter(o, q - 1, now) == o.roundTripTime;
  }

  /** The first two duplicates are only counted; from the third on each resends one message: the first unacknowledged
      one, then the one after it, and so on - if there is such a message. */
  lemma DuplicatesResend(s: Session, upTo: Sequence, env: Env)
    requires Coherent(s) && (upTo < s.send.unacknowledged || s.send.lastSent < s.send.unacknowledged)
    requires s.send.lastAckCount + 1 < 0x1_0000_0000
    ensures var m, count := MarkMessagesAsAcknowledged(s, upTo, env), s.send.lastAckCount + 1;
            && (count < 3 ==> m.out == [] && m.s.send.retransmitCount == s.send.retransmitCount)
            && (count >= 3 && env.link(0) != Broken ==>
                  var q := s.send.unacknowledged + (count - 3);
                  && |m.out| == 1 && m.s.send.retransmitCount == 0 && m.s.state == s.state
                  && (q <= |s.send.log| ==> m.out[0] == Carry(s.send.log[q - 1], q, s.recv.availableSize)))
            && (count >= 3 && env.link(0) == Broken ==> m.out == [] && m.s.state == Closed && m.s.reason == Error)
  {
    hide Coherent, Out.SlotFrame;
    assert Windows(s) by { CoherentHasWindows(s); }
    var o, count := s.send, s.send.lastAckCount + 1;
    var p := Out.Acknowledge(o, upTo, env.clock(0));
    assert p == o.(lastAckCount := count);
    ShutdownKeeps(s.(send := p), Error);
    if count >= 3 {
      var q := o.unacknowledged + (count - 3);
      SlotsIgnoreCounts(o, p, q, s.recv.availableSize);
      if q <= |o.log| {
        Out.LiveSlotFrame(o, q, s.recv.availableSize);
      }
    }
  }

  lemma CoherentHasWindows(s: Session)
    requires Coherent(s)
    ensures Windows(s)
  {}

  lemma SlotsIgnoreCounts(o: Out.Outgoing, p: Out.Outgoing, q: Sequence, window: nat)
    requires o.size > 0 && p.size == o.size && p.log == o.log
    ensures Out.SlotFrame(p, q, window) == Out.SlotFrame(o, q, window)
  {}

  // ------------------------------------------------------------------ timed retransmission

  // Two to the power of the rounds made so far plus one.
  function Backoff(rounds: nat): real
    requires rounds <= 5
  {
    [2.0, 4.0, 8.0, 16.0, 32.0, 64.0][rounds]
  }

  /** When a retransmission is due, in milliseconds: the back-off applied to the average, or to 100 if that is less; two
      seconds at most. */
  function DueAfter(o: Out.Outgoing): int
    requires o.retransmitCount <= 5
  {
    var base := if o.roundTripTime < 100.0 then 100.0 else o.roundTripTime;
    var delay := base * Backoff(o.retransmitCount);
    if delay < 2000.0 then delay.Floor else 2000
  }

  lemma PowersAreBackoff(rounds: nat)
    requires rounds <= 5
    ensures Out.Pow2(rounds + 1) as real == Backoff(rounds)
  {
    assert Out.Pow2(1) == 2 * Out.Pow2(0);
    assert Out.Pow2(2) == 2 * Out.Pow2(1);
    assert Out.Pow2(3) == 2 * Out.Pow2(2);
    assert Out.Pow2(4) == 2 * Out.Pow2(3);
    assert Out.Pow2(5) == 2 * Out.Pow2(4);
    assert Out.Pow2(6) == 2 * Out.Pow2(5);
  }

  lemma TimeoutIsDue(o: Out.Outgoing)
    requires o.retransmitCount <= 5
    ensures Out.Timeout(o) == DueAfter(o)
  {
    PowersAreBackoff(o.retransmitCount);
  }

  lemma DueBounds(o: Out.Outgoing)
    requires o.retransmitCount <= 5
    ensures 200 <= DueAfter(o) <= 2000
  {
    TimeoutIsDue(o);
    Out.TimeoutBounds(o, o);
  }

  // Milliseconds since message q was first sent.
  function Age(o: Out.Outgoing, q: Sequence, now: nat): int
    requires 1 <= q <= |o.sentAt|
  {
    now - o.sentAt[q - 1]
  }

  /** No message was sent in the future, or longer ago than the clock can tell. */
  ghost predicate ClockIsSound(o: Out.Outgoing, now: nat)
    requires |o.sentAt| == o.lastSent
  {
    forall q :: 1 <= q <= o.lastSent ==> 0 <= Age(o, q, now) < 0x1_0000_0000_0000_0000
  }

  // Message q was resent as it was logged, being overdue, over a transport that took it.
  ghost predicate Resent(s: Session, q: Sequence, now: nat, outcome: Outcome, f: Frame)
    requires Out.Valid(s.send) && 1 <= q && s.send.retransmitCount <= 5
  {
    && q <= s.send.lastSent && outcome != Broken && Age(s.send, q, now) > DueAfter(s.send)
    && f == Carry(s.send.log[q - 1], q, s.recv.availableSize)
  }

  /** One pass resends the messages from `q` on, in order, each as it was logged, for as long as they are overdue and
      the transport takes them. */
  ghost predicate Resends(s: Session, q: Sequence, now: nat, k: nat, env: Env, out: seq<Frame>)
    requires Out.Valid(s.send) && 1 <= q && s.send.retransmitCount <= 5
  {
    && (forall i :: 0 <= i < |out| ==> Resent(s, q + i, now, env.link(k + i), out[i]))
    && (q + |out| <= s.send.lastSent ==>
          env.link(k + |out|) == Broken || Age(s.send, q + |out|, now) <= DueAfter(s.send))
  }

  lemma ResendsNone(s: Session, q: Sequence, now: nat, k: nat, env: Env)
    requires Out.Valid(s.send) && 1 <= q && s.send.retransmitCount <= 5
    requires q <= s.send.lastSent ==> env.link(k) == Broken || Age(s.send, q, now) <= DueAfter(s.send)
    ensures Resends(s, q, now, k, env, [])
  {
    assert q + 0 == q && k + 0 == k;
  }

  lemma ResendsOneMore(s: Session, q: Sequence, now: nat, k: nat, env: Env, rest: seq<Frame>)
    requires Out.Valid(s.send) && 1 <= q <= s.send.lastSent && s.send.retransmitCount <= 5
    requires Resends(s, q + 1, now, k + 1, env, rest)
    requires env.link(k) != Broken && Age(s.send, q, now) > DueAfter(s.send)
    ensures Resends(s, q, now, k, env, [Carry(s.send.log[q - 1], q, s.recv.availableSize)] + rest)
  {
    hide DueAfter, Age;
    var f := Carry(s.send.log[q - 1], q, s.recv.availableSize);
    var out := [f] + rest;
    assert Resent(s, q, now, env.link(k), f);
    forall i | 0 <= i < |out| ensures Resent(s, q + i, now, env.link(k + i), out[i]) {
      if i > 0 {
        assert Resent(s, (q + 1) + (i - 1), now, env.link((k + 1) + (i - 1)), rest[i - 1]);
        assert (q + 1) + (i - 1) == q + i && (k + 1) + (i - 1) == k + i;
      } else {
        assert q + i == q && k + i == k;
      }
    }
    assert k + |out| == (k + 1) + |rest| && q + |out| == (q + 1) + |rest|;
  }

  lemma {:induction false} PassResends(s: Session, q: Sequence, now: nat, k: nat, env: Env)
    requires Out.Valid(s.send) && s.send.unacknowledged <= q && s.send.retransmitCount <= 5
    requires ClockIsSound(s.send, now)
    ensures Resends(s, q, now, k, env, Retransmit(s, q, now, k, env).out)
    decreases s.send.lastSent + 1 - q
  {
    hide DueAfter, Out.Timeout, Resends, Out.SlotFrame;
    TimeoutIsDue(s.send);
    if q <= s.send.lastSent {
      assert Out.Elapsed(now, s.send.sentAt[q - 1]) == Age(s.send, q, now);
    }
    if q <= s.send.lastSent && Out.IsDue(s.send, q, now) && env.link(k) != Broken {
      Out.LiveSlotFrame(s.send, q, s.recv.availableSize);
      PassResends(s, q + 1, now, k + 1, env);
      ResendsOneMore(s, q, now, k, env, Retransmit(s, q + 1, now, k + 1, env).out);
    } else {
      ResendsNone(s, q, now, k, env);
    }
  }

  /** A timed round resends, from the first unacknowledged message on, exactly the overdue ones that precede all others;
      what is more than two seconds old is always overdue, what is at most 200 ms old never. */
  lemma RoundResendsOverdue(s: Session, k: nat, env: Env)
    requires Coherent(s) && s.send.unacknowledged <= s.send.lastSent && s.send.retransmitCount <= 5
    requires ClockIsSound(s.send, env.clock(k))
    ensures var out, now, q := RetransmitRound(s, k, env).out, env.clock(k), s.send.unacknowledged;
            && Resends(s, q, now, k, env, out)
            && (Age(s.send, q, now) > 2000 && env.link(k) != Broken ==> |out| > 0)
            && (Age(s.send, q, now) <= 200 ==> out == [])
  {
    hide Retransmit, DueAfter;
    PassResends(s, s.send.unacknowledged, env.clock(k), k, env);
    DueBounds(s.send);
    var out, q := RetransmitRound(s, k, env).out, s.send.unacknowledged;
    assert k + 0 == k && q + 0 == q;
    if |out| > 0 {
      assert Resent(s, q + 0, env.clock(k), env.link(k + 0), out[0]);
    }
  }

  // ------------------------------------------------------------------ first transmissions

  ghost predicate SentFirst(s: Session, q: Sequence, outcome: Outcome, f: Frame)
    requires Out.Valid(s.send)
  {
    1 <= q <= |s.send.log| && outcome == Delivered && f == Carry(s.send.log[q - 1], q, s.recv.availableSize)
  }

  // The unsent messages that go out, each as it was logged.
  ghost predicate Transmits(s: Session, k: nat, env: Env, out: seq<Frame>)
    requires Out.Valid(s.send)
  {
    forall i :: 0 <= i < |out| ==> SentFirst(s, s.send.lastSent + 1 + i, env.link(k + i), out[i])
  }

  lemma TransmitsOneMore(s: Session, t: Session, k: nat, env: Env, rest: seq<Frame>)
    requires Out.Valid(s.send) && Out.Valid(t.send) && s.send.lastSent < |s.send.log| && env.link(k) == Delivered
    requires t.send.lastSent == s.send.lastSent + 1 && t.send.log == s.send.log && t.recv == s.recv
    requires Transmits(t, k + 1, env, rest)
    ensures Transmits(s, k, env, [Carry(s.send.log[s.send.lastSent], s.send.lastSent + 1, s.recv.availableSize)] + rest)
  {
    var first := s.send.lastSent + 1;
    var f := Carry(s.send.log[first - 1], first, s.recv.availableSize);
    var out := [f] + rest;
    assert SentFirst(s, first, env.link(k), f);
    forall i | 0 <= i < |out| ensures SentFirst(s, first + i, env.link(k + i), out[i]) {
      if i > 0 {
        assert SentFirst(t, (first + 1) + (i - 1), env.link((k + 1) + (i - 1)), rest[i - 1]);
        assert (first + 1) + (i - 1) == first + i && (k + 1) + (i - 1) == k + i;
      } else {
        assert first + i == first && k + i == k;
      }
    }
  }

  /** Unsent messages go out in order, each as it was logged, until there are none left, the peer's window is spent, or
      the transport does not take one; only a broken transport closes the session. */
  lemma {:induction false} UnsentIsTransmitted(s: Session, k: nat, env: Env)
    requires Out.Valid(s.send)
    ensures var out, t := Transmit(s, k, env).out, Transmit(s, k, env).s;
            var finished := t.send.lastSent == |s.send.log| || |out| == s.send.lastAvailableSize;
            && Transmits(s, k, env, out) && t.send.lastSent == s.send.lastSent + |out|
            && (finished || env.link(k + |out|) != Delivered)
            && (finished || env.link(k + |out|) == Busy ==> t.state == s.state)
    decreases |s.send.log| - s.send.lastSent
  {
    hide Transmits, Out.SlotFrame;
    if s.send.lastSent < |s.send.log| && s.send.lastAvailableSize > 0 && env.link(k) == Delivered {
      var q := s.send.lastSent + 1;
      var t := s.(send := Out.Stamp(s.send, env.clock(k)));
      Out.LiveSlotFrame(s.send, q, s.recv.availableSize);
      UnsentIsTransmitted(t, k + 1, env);
      var rest := Transmit(t, k + 1, env).out;
      TransmitsOneMore(s, t, k, env, rest);
      assert k + |Transmit(s, k, env).out| == (k + 1) + |rest|;
    } else {
      assert Transmits(s, k, env, []) by {
        TransmitsNone(s, k, env);
      }
      assert k + 0 == k;
      ShutdownKeeps(s, Error);
    }
  }

  lemma TransmitsNone(s: Session, k: nat, env: Env)
    requires Out.Valid(s.send)
    ensures Transmits(s, k, env, [])
  {}

  // ------------------------------------------------------------------ closing

  /** A shutdown without an error starts the graceful close of an established session, leaves one that is closing to it,
      and ends one that was still opening; a shutdown with an error ends any. The reason is noted. */
  lemma ShutdownsClose(s: Session, reason: Result)
    ensures var t := Shutdown(s, reason);
            && t == s.(state := t.state, reason := reason)
            && (reason != Success || s.state in {Listening, SynSent, SynReceived, Closed} ==> t.state == Closed)
            && (reason == Success && s.state == Established ==> t.state == FinWait1)
            && (reason == Success && s.state in {FinWait1, FinWait2, Closing} ==> t.state == s.state)
  {}

  /** With a permit to be had, a session that was shut down sequences its Fin, last of all; without one it waits. */
  lemma ShutdownSendsFin(s: Session)
    requires Coherent(s) && s.state == FinWait1
    ensures var r, live := Resume(s), |s.send.log| + 1 - s.send.unacknowledged;
            && (live < s.send.size ==>
                  && r.s.send.log == s.send.log + [Entry(Fin, s.sid, Empty)]
                  && r.s.send == s.send.(log := r.s.send.log)
                  && (s.owner.Some? && (s.sessionVersion >= 2 || s.send.unacknowledged <= s.send.lastSent) ==>
                        r.s.state == FinWait2))
            && (live == s.send.size ==> r.s == s)
  {}

  /** A session of an older version that has nothing unacknowledged does not: it is closed by the same update that
      sequences its Fin, before that was ever sent. */
  lemma OldSessionsDropTheirFin(s: Session)
    requires Coherent(s) && s.state == FinWait1 && |s.send.log| + 1 - s.send.unacknowledged < s.send.size
    ensures var r := Resume(s).s;
            r.state == Closed && s.owner.Some? <==>
              s.owner.Some? && s.sessionVersion < 2 && s.send.unacknowledged == s.send.lastSent + 1
    ensures var r := Resume(s).s;
            HasFin(r.send.log) && r.send.lastSent < |r.send.log|
  {}

  // A client of version 1 whose request was sent, acknowledged and answered, and that was then shut down.
  function ShutClient(): Session {
    Session(FinWait1, Out.Outgoing(2, [Entry(Syn, 1, SynInfo(0, 1, 1, 1))], 2, 1, [0], 0, 50.0, 0, 1),
            In.Incoming(2, 2, 2, 2, 1, map[]), 1, 1, 1, Some(1), Success)
  }

  lemma ShutClientIsCoherent()
    ensures Coherent(ShutClient())
  {}

  /** For one, that client. */
  lemma ShutClientDropsItsFin()
    ensures var r := Resume(ShutClient()).s;
            Coherent(ShutClient()) && r.state == Closed && HasFin(r.send.log) && r.send.lastSent < |r.send.log|
  {
    hide Coherent, Resume, HasFin;
    ShutClientIsCoherent();
    OldSessionsDropTheirFin(ShutClient());
  }

  /** The other two transitions: with everything that was sent acknowledged - and, from session version 2 on, everything
      sent - the Fin's sender closes; with nothing but the Fin to read, its receiver does. Nothing else
      closes either. */
  lemma TimersClose(s: Session)
    requires Coherent(s) && s.owner.Some?
    ensures var drained := s.send.unacknowledged == s.send.lastSent + 1
                           && (s.sessionVersion >= 2 ==> s.send.lastSent == |s.send.log|);
            s.state == FinWait2 ==> Resume(s).s == if drained then s.(state := Closed) else s
    ensures var finNext := s.recv.unread < s.recv.expected && s.recv.unread in s.recv.buffer
                           && s.recv.buffer[s.recv.unread].kind == Fin;
            s.state == Closing ==> Resume(s).s == if finNext then s.(state := Closed) else s
    ensures s.state !in {FinWait1, FinWait2, Closing} ==> Resume(s).s == s
  {}

  /** A reset ends a session with the reason it carries - without an error, as a shutdown would. */
  lemma ResetsEnd(s: Session, f: Frame, env: Env, reason: Result)
    requires Coherent(s) && f.kind == Rst && f.sequence == CodeOf(reason)
    requires reason.Other? ==> 8 < reason.code < 0x1_0000_0000
    ensures HandleMessage(s, f, env).s == WithWindow(Shutdown(s, reason), f)
    ensures reason != Success ==>
              HandleMessage(s, f, env).s.state == Closed && HandleMessage(s, f, env).s.reason == reason
  {
    ShutdownsClose(s, reason);
  }

  // ------------------------------------------------------------------ the reader and the writer

  /** `Send` refuses a closed session, one that has sent its Fin, too large a message and a full ring; anything else it
      sequences. */
  lemma SendSequences(s: Session, data: Bytes, waits: bool)
    requires Coherent(s)
    ensures var (t, result) := Send(s, data, waits);
            && (result == Error <==> s.state in {Closed, FinWait2})
            && (result == InsufficientMemory <==> s.state !in {Closed, FinWait2} && |data| > 1384)
            && (result == NotReady <==>
                  && s.state !in {Closed, FinWait2} && |data| <= 1384
                  && (!waits || |s.send.log| + 1 - s.send.unacknowledged == s.send.size))
            && (result in {Error, InsufficientMemory, NotReady} ==> t == s)
            && (result !in {Error, InsufficientMemory, NotReady} ==>
                  && result == Success
                  && t == s.(send := s.send.(log := s.send.log + [Entry(Data, s.sid, Content(data))])))
  {}

  /** `Receive` fails before the session is established, with nothing in order to read, and with too little room;
      otherwise it hands out the next message, or ends the stream, and moves on. */
  lemma ReceiveReturns(s: Session, room: nat)
    requires Coherent(s)
    ensures var (t, result) := Receive(s, room);
            var r := s.recv;
            && (s.state in {Closed, Listening, SynSent, SynReceived} ==> t == s && result == Failed(Error))
            && (s.state !in {Closed, Listening, SynSent, SynReceived} ==>
                  if r.unread !in r.buffer then t == s && result == Failed(NotReady)
                  else
                    var f := r.buffer[r.unread];
                    if PayloadSize(f.payload) > room then t == s && result == Failed(InsufficientMemory)
                    else
                      && t == s.(recv := t.recv, state := t.state)
                      && t.recv.unread == r.unread + 1 && t.recv.expected == r.expected
                      && t.recv.buffer == r.buffer - {r.unread} && Advertises(t.recv)
                      && (if f.kind == Data then result == Got(ContentOf(f.payload)) && t.state == s.state
                          else result == AtEnd && t.state == Closed && s.state == Closing))
  {
    hide LogShape, Out.Valid;
    ReceiveKeeps(s, room);
    if s.recv.unread !in s.recv.buffer {
      assert s.recv.unread >= s.recv.expected;
    } else {
      assert s.recv.unread < s.recv.expected;
      AcksAndReadsAdvertise(s);
    }
  }

  // ------------------------------------------------------------------ what owners hear

  /** A session that becomes established tells its owner, or closes if it has none. */
  lemma EstablishmentIsTold(s: Session, f: Frame, env: Env)
    requires Windows(s) && WellFormed(f)
    ensures var r, h := Dispatch(s, f, env).s, HandleMessage(s, f, env);
            if r.state == Established && s.state != Established then
              if s.owner.Some? && r.owner.Some? then h.s == r && h.calls == [SessionEstablished]
              else r.owner.None? ==> h.s.state == Closed && h.calls == []
            else h.s == r && h.calls == []
  {}

  /** Every update gives the owner of an established session its turn, unless the update waits; without an owner such a
      session closes. The owner of a session that is closed by then is told, once, and let go. */
  lemma OwnersAreTold(s: Session)
    requires Coherent(s) && !(s.state == FinWait1 && |s.send.log| + 1 - s.send.unacknowledged == s.send.size)
    ensures var r := Resume(s);
            && (s.owner.Some? ==>
                  r.calls == if r.s.state in {Closed, Listening, SynSent, SynReceived} then [] else [UpdateSession])
            && (s.owner.None? ==> r.calls == [] && r.s.state in {Closed, Listening, SynSent, SynReceived})
    ensures var r := UpdateTermination(s);
            if s.state == Closed && s.owner.Some? then
              r.calls == [SessionTerminated(s.reason)] && r.s == s.(owner := None)
            else r.calls == [] && r.s == s
    ensures var r := CloseIfOwnedBy(s, true);
            if s.owner.Some? then r.calls == [SessionTerminated(EndOfStream)] && r.s.owner == None
                                  && r.s.state !in {Listening, SynSent, SynReceived, Established}
            else r.calls == [] && r.s == s
    ensures CloseIfOwnedBy(s, false) == Report(s, [], [])
  {}

  // ------------------------------------------------------------------ opening

  /** Connecting and binding want a valid id and a session that is closed; otherwise they change nothing. */
  lemma OpeningsAreRefused(s: Session, protocol: nat, minVersion: Version, maxVersion: Version, sid: SessionId)
    requires sid == INVALID_SESSION_ID || s.state != Closed
    ensures Connect(s, protocol, minVersion, maxVersion, sid) == (s, Error)
    ensures BindToServer(s, minVersion, maxVersion, protocol, sid) == (s, Error)
  {}
}
