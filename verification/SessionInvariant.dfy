/** What every step of one session keeps, and what it may change: the facts the protocol proofs rest on. */
module SessionInvariant {
  import opened Wire
  import Out = OutgoingStream
  import In = IncomingStream
  import opened SessionSteps

  // ------------------------------------------------------------------ the invariant of one session

  /** An opening message, then data, then at most one Fin, and nothing after it. */
  ghost predicate LogShape(log: seq<Entry>) {
    && (log != [] ==> log[0].kind == Syn || log[0].kind == SynAck)
    && (forall i :: 0 < i < |log| ==> log[i].kind == Data || (log[i].kind == Fin && i == |log| - 1))
  }

  predicate HasFin(log: seq<Entry>) {
    |log| > 1 && log[|log| - 1].kind == Fin
  }

  ghost predicate Pristine(r: In.Incoming) {
    r.unread == r.expected && r.buffer == map[]
  }

  predicate IsOpening(s: State) {
    s == Listening || s == SynSent || s == SynReceived
  }

  ghost predicate BufferKinds(r: In.Incoming) {
    forall q :: q in r.buffer ==> r.buffer[q].kind == Data || r.buffer[q].kind == Fin
  }

  // A buffered Fin is found only in a session that is closing or closed: the assert of the reader.
  ghost predicate FinMeansClosing(s: Session) {
    forall q :: q in s.recv.buffer && s.recv.buffer[q].kind == Fin ==> s.state == Closing || s.state == Closed
  }

  ghost predicate Coherent(s: Session) {
    && Windows(s)
    && LogShape(s.send.log)
    && (HasFin(s.send.log) ==> s.state == FinWait2 || s.state == Closed)
    && (s.state == FinWait2 ==> HasFin(s.send.log))
    && (s.send.log == [] ==> s.state == Closed || s.state == Listening)
    && (s.state == Listening ==> s.send.log == [])
    && (IsOpening(s.state) || s.send.log == [] ==> Pristine(s.recv))
    && BufferKinds(s.recv)
    && FinMeansClosing(s)
  }

  // ------------------------------------------------------------------ what a step may change

  /** Every frame a session transmits is a logged message, an ack of messages it holds, or a blank slot. */
  ghost predicate Genuine(s: Session, f: Frame) {
    || Out.Logged(s.send, f)
    || (f.kind == Ack && f.sid == s.sid && f.sequence < s.recv.expected)
    || f.kind == Unknown
  }

  ghost predicate AllGenuine(s: Session, out: seq<Frame>) {
    forall i :: 0 <= i < |out| ==> Genuine(s, out[i])
  }

  ghost predicate RecvGrows(r: In.Incoming, t: In.Incoming, input: Option<Frame>) {
    && t.size == r.size && t.unread == r.unread && r.expected <= t.expected
    && (forall q :: q in t.buffer ==>
          || (q in r.buffer && t.buffer[q] == r.buffer[q])
          || (input.Some? && (input.value.kind == Data || input.value.kind == Fin) && t.buffer[q] == input.value))
  }

  // The sequence number an input frame acknowledges, plus one.
  function Acked(input: Option<Frame>): nat {
    if input.Some? && (input.value.kind == Ack || input.value.kind == SynAck) then input.value.sequence + 1 else 0
  }

  ghost predicate SendGrows(o: Out.Outgoing, p: Out.Outgoing, sid: SessionId, input: Option<Frame>) {
    && p.size == o.size
    && (p.log == o.log || p.log == o.log + [Entry(Fin, sid, Empty)])
    && o.unacknowledged <= p.unacknowledged <= Max(o.unacknowledged, Acked(input))
  }

  ghost predicate Evolves(s: Session, t: Session, input: Option<Frame>, out: seq<Frame>) {
    && t.sid == s.sid && t.sessionVersion == s.sessionVersion && t.protocolVersion == s.protocolVersion
    && SendGrows(s.send, t.send, s.sid, input)
    && RecvGrows(s.recv, t.recv, input)
    && AllGenuine(t, out)
  }

  lemma GenuineLasts(s: Session, t: Session, input: Option<Frame>, out: seq<Frame>, f: Frame)
    requires Evolves(s, t, input, out) && Genuine(s, f)
    ensures Genuine(t, f)
  {}

  lemma EvolvesTwice(s: Session, t: Session, u: Session, input: Option<Frame>, a: seq<Frame>, b: seq<Frame>)
    requires Evolves(s, t, input, a) && Evolves(t, u, None, b)
    requires t.send.log == s.send.log || u.send.log == t.send.log
    ensures Evolves(s, u, input, a + b)
  {
    forall i | 0 <= i < |a + b| ensures Genuine(u, (a + b)[i]) {
      if i < |a| {
        GenuineLasts(t, u, None, b, a[i]);
      } else {
        assert (a + b)[i] == b[i - |a|];
      }
    }
  }

  // Two sessions that differ in state, reason and owner only.
  ghost predicate SameStreams(s: Session, t: Session) {
    && t.send == s.send && t.recv == s.recv && t.sid == s.sid
    && t.sessionVersion == s.sessionVersion && t.protocolVersion == s.protocolVersion
  }

  lemma SameStreamsEvolve(s: Session, t: Session, u: Session, input: Option<Frame>, out: seq<Frame>)
    requires Evolves(s, t, input, out) && SameStreams(t, u)
    ensures Evolves(s, u, input, out)
  {}

  lemma EvolvesNot(s: Session, t: Session, input: Option<Frame>)
    requires SameStreams(s, t)
    ensures Evolves(s, t, input, [])
  {}

  lemma WithWindowEvolves(s: Session, t: Session, f: Frame, input: Option<Frame>, out: seq<Frame>)
    requires Evolves(s, t, input, out)
    ensures Evolves(s, WithWindow(t, f), input, out)
  {
    forall i | 0 <= i < |out| ensures Genuine(WithWindow(t, f), out[i]) {
      assert Genuine(t, out[i]);
    }
  }

  // ------------------------------------------------------------------ the primitives

  lemma ShutdownKeeps(s: Session, reason: Result)
    ensures SameStreams(s, Shutdown(s, reason)) && Shutdown(s, reason).owner == s.owner
    ensures var t := Shutdown(s, reason);
            t.state == s.state || t.state == Closed || (s.state == Established && t.state == FinWait1)
    ensures reason != Success ==> Shutdown(s, reason).state == Closed
    ensures Coherent(s) ==> Coherent(Shutdown(s, reason))
  {}

  lemma SendAckKeeps(s: Session, outcome: Outcome)
    requires Windows(s)
    ensures var r := SendAckMessage(s, outcome);
            && Evolves(s, r.s, None, r.out)
            && Windows(r.s) && r.s.send == s.send && r.s.owner == s.owner && r.s.recv == In.AcknowledgeAll(s.recv)
            && (r.s.state == s.state || r.s.state == Closed)
  {
    var t := s.(recv := In.AcknowledgeAll(s.recv));
    ShutdownKeeps(t, Error);
    var f := Frame(Ack, t.sid, t.recv.expected - 1, t.recv.availableSize, Empty);
    assert Genuine(t, f);
  }

  lemma MarkKeeps(s: Session, maxSequence: Sequence, env: Env, input: Option<Frame>)
    requires Windows(s)
    requires maxSequence + 1 <= Max(s.send.unacknowledged, Acked(input))
    ensures var r := MarkMessagesAsAcknowledged(s, maxSequence, env);
            && Evolves(s, r.s, input, r.out)
            && Windows(r.s) && r.s.recv == s.recv && r.s.owner == s.owner && r.s.send.log == s.send.log
            && (r.s.state == s.state || r.s.state == Closed)
  {
    var t := s.(send := Out.Acknowledge(s.send, maxSequence, env.clock(0)));
    Out.AcknowledgeIsValid(s.send, maxSequence, env.clock(0));
    if !(Out.Progresses(s.send, maxSequence) || t.send.lastAckCount < Out.FAST_RETRANSMIT_THRESHOLD) {
      var q := t.send.unacknowledged + (t.send.lastAckCount - Out.FAST_RETRANSMIT_THRESHOLD);
      Out.SlotFrameIsLoggedOrBlank(t.send, q, t.recv.availableSize);
      ShutdownKeeps(t, Error);
    }
  }

  lemma StoreKeeps(s: Session, f: Frame)
    requires Windows(s) && In.InWindow(s.recv, f.sequence)
    requires f.kind == Data || f.kind == Fin
    ensures var t := s.(recv := In.Store(s.recv, f));
            Evolves(s, t, Some(f), []) && Windows(t) && (BufferKinds(s.recv) ==> BufferKinds(t.recv))
  {
    In.StoreIsValid(s.recv, f);
  }

  lemma ThenAcks(s: Session, t: Session, input: Option<Frame>, outcome: Outcome)
    requires Evolves(s, t, input, []) && Windows(t) && t.send == s.send
    ensures var r := SendAckMessage(t, outcome);
            && Evolves(s, r.s, input, r.out)
            && Windows(r.s) && r.s.send == s.send && r.s.owner == t.owner && r.s.recv.buffer == t.recv.buffer
            && (r.s.state == t.state || r.s.state == Closed)
  {
    SendAckKeeps(t, outcome);
    var r := SendAckMessage(t, outcome);
    EvolvesTwice(s, t, r.s, input, [], r.out);
    assert [] + r.out == r.out;
  }

  lemma WriteRecvKeeps(s: Session, f: Frame, outcome: Outcome)
    requires Windows(s)
    requires f.kind == Data || f.kind == Fin
    ensures var r := WriteMessageIntoReceiveWindow(s, f, outcome);
            && Evolves(s, r.s, Some(f), r.out)
            && Windows(r.s) && r.s.send == s.send && r.s.owner == s.owner
            && (r.s.state == s.state || r.s.state == Closed)
            && (BufferKinds(s.recv) ==> BufferKinds(r.s.recv))
  {
    if f.sequence >= s.recv.expected && PayloadSize(f.payload) <= MAX_PAYLOAD_SIZE_IN_BYTES {
      if f.sequence - s.recv.unread < s.recv.size {
        StoreKeeps(s, f);
        ThenAcks(s, s.(recv := In.Store(s.recv, f)), Some(f), outcome);
      }
    } else {
      EvolvesNot(s, s, Some(f));
      ThenAcks(s, s, Some(f), outcome);
    }
  }

  // ------------------------------------------------------------------ the handlers

  /** The numeric state only grows, until the session is closed for good; and it takes the peer's Fin to leave an
      opening state early, or - for a server session - the ack of its SynAck. */
  ghost predicate Advances(s: State, t: State, input: Option<Frame>) {
    || t == s
    || t == Closed
    || (&& s != Closed && Rank(s) < Rank(t)
        && (s == SynSent ==> input.Some? && input.value.kind == Fin)
        && (s == SynReceived ==> input.Some? && (input.value.kind == Fin || input.value.kind == Ack)))
  }

  ghost predicate Handled(s: Session, f: Frame, r: Reply) {
    Evolves(s, r.s, Some(f), r.out) && Coherent(r.s) && Advances(s.state, r.s.state, Some(f)) && r.s.owner == s.owner
  }

  lemma HandleFinIsHandled(s: Session, f: Frame, env: Env)
    requires Coherent(s) && f.kind == Fin && s.state != Closed && s.state != Listening
    ensures Handled(s, f, HandleFinMessage(s, f, env))
  {
    hide Out.Valid, LogShape;
    WriteRecvKeeps(s, f, env.link(0));
    var w := WriteMessageIntoReceiveWindow(s, f, env.link(0));
    if Rank(s.state) < Rank(Closing) {
      var t := w.s.(state := Closing, reason := Success);
      SameStreamsEvolve(s, w.s, t, Some(f), w.out);
      FinishHandling(s, t, f, w.out);
    } else if s.state == FinWait2 {
      SendAckKeeps(w.s, env.link(1));
      var a := SendAckMessage(w.s, env.link(1));
      EvolvesTwice(s, w.s, a.s, Some(f), w.out, a.out);
      var t := a.s.(state := Closed, reason := Success);
      SameStreamsEvolve(s, a.s, t, Some(f), w.out + a.out);
      FinishHandling(s, t, f, w.out + a.out);
    } else {
      EvolvesNot(s, s, Some(f));
      FinishHandling(s, s, f, []);
    }
  }

  // The common end of the handlers: the peer's window size is noted.
  lemma FinishHandling(s: Session, t: Session, f: Frame, out: seq<Frame>)
    requires Coherent(s) && Evolves(s, t, Some(f), out)
    requires t.send.log == s.send.log && Windows(t) && BufferKinds(t.recv) && s.send.log != []
    requires Advances(s.state, t.state, Some(f)) && t.owner == s.owner
    requires t.state == Closing || t.state == Closed || (f.kind != Fin && t.state == s.state)
             || (f.kind != Fin && f.kind != Data && ((s.state == SynReceived && t.state == Established)
                                                     || (s.state == Established && t.state == FinWait1)))
    requires HasFin(s.send.log) ==> t.state == FinWait2 || t.state == Closed
    requires IsOpening(t.state) ==> Pristine(t.recv)
    ensures Handled(s, f, Reply(WithWindow(t, f), out))
  {
    WithWindowEvolves(s, t, f, Some(f), out);
  }

  lemma HandleDataIsHandled(s: Session, f: Frame, env: Env)
    requires Coherent(s) && f.kind == Data && s.state != Closed && s.state != Listening
    ensures Handled(s, f, HandleDataMessage(s, f, env))
  {
    hide Out.Valid, In.Valid, LogShape;
    if s.state == FinWait1 || s.state == FinWait2 || s.state == Established {
      WriteRecvKeeps(s, f, env.link(0));
      var w := WriteMessageIntoReceiveWindow(s, f, env.link(0));
      FinishHandling(s, w.s, f, w.out);
    } else {
      EvolvesNot(s, s, Some(f));
      FinishHandling(s, s, f, []);
    }
  }

  lemma HandleAckIsHandled(s: Session, f: Frame, env: Env)
    requires Coherent(s) && f.kind == Ack && s.state != Closed && s.state != Listening
    ensures Handled(s, f, HandleAckMessage(s, f, env))
  {
    hide Out.Valid, In.Valid, LogShape;
    var t := if s.state == SynReceived then s.(state := Established) else s;
    if s.state == SynSent {
      EvolvesNot(s, s, Some(f));
      FinishHandling(s, s, f, []);
    } else {
      MarkKeeps(t, f.sequence, env, Some(f));
      var m := MarkMessagesAsAcknowledged(t, f.sequence, env);
      assert Evolves(s, m.s, Some(f), m.out);
      FinishHandling(s, m.s, f, m.out);
    }
  }

  lemma HandleRstIsHandled(s: Session, f: Frame)
    requires Coherent(s) && f.kind == Rst && s.state != Closed && s.state != Listening
    ensures Handled(s, f, HandleRstMessage(s, f))
  {
    hide Out.Valid, In.Valid, LogShape;
    ShutdownKeeps(s, ResultOf(f.sequence));
    EvolvesNot(s, Shutdown(s, ResultOf(f.sequence)), Some(f));
    FinishHandling(s, Shutdown(s, ResultOf(f.sequence)), f, []);
  }

  /** A SynAck for a session that already has its final id: at most an ack. */
  lemma HandleLateSynAckIsHandled(s: Session, f: Frame, env: Env)
    requires Coherent(s) && f.kind == SynAck && f.payload.SynAckInfo? && s.state != SynSent && s.send.log != []
    ensures Handled(s, f, HandleSynAckMessage(s, f, env))
  {
    hide Out.Valid, In.Valid, LogShape;
    if s.state == FinWait1 || s.state == FinWait2 || s.state == Closing || s.state == Established {
      MarkKeeps(s, f.sequence, env, Some(f));
      var m := MarkMessagesAsAcknowledged(s, f.sequence, env);
      FinishHandling(s, m.s, f, m.out);
    } else {
      EvolvesNot(s, s, Some(f));
      FinishHandling(s, s, f, []);
    }
  }

  ghost predicate Reported(s: Session, input: Option<Frame>, r: Report) {
    && Evolves(s, r.s, input, r.out) && Coherent(r.s) && Advances(s.state, r.s.state, input) && r.s.owner == s.owner
    && (r.calls == []
        || (r.calls == [SessionEstablished] && s.owner.Some? && s.state != Established && r.s.state == Established)
        || (r.calls == [UpdateSession] && s.owner.Some? && s.state != Closed))
  }

  lemma WithoutOwnerCloses(s: Session, t: Session, input: Option<Frame>, out: seq<Frame>)
    requires Coherent(s) && Evolves(s, t, input, out) && Coherent(t) && t.owner == s.owner
    ensures Reported(s, input, Report(Shutdown(t, Error), out, []))
  {
    hide Out.Valid, In.Valid, LogShape, RecvGrows, SendGrows;
    ShutdownKeeps(t, Error);
    SameStreamsEvolve(s, t, Shutdown(t, Error), input, out);
  }

  /** Any message an open session can get, except the one that opens it: nothing changes but what `Evolves` allows. */
  lemma HandleMessageIsReported(s: Session, f: Frame, env: Env)
    requires Coherent(s) && WellFormed(f) && f.kind != Syn && s.send.log != []
    requires if f.kind == SynAck then s.state != SynSent else s.state != Closed
    ensures Reported(s, Some(f), HandleMessage(s, f, env))
  {
    hide Out.Valid, In.Valid, LogShape, RecvGrows, SendGrows, HandleFinMessage, HandleDataMessage, HandleAckMessage,
         HandleRstMessage, HandleSynAckMessage;
    match f.kind {
      case SynAck => HandleLateSynAckIsHandled(s, f, env);
      case Fin => HandleFinIsHandled(s, f, env);
      case Data => HandleDataIsHandled(s, f, env);
      case Ack => HandleAckIsHandled(s, f, env);
      case Rst => HandleRstIsHandled(s, f);
    }
    var r := Dispatch(s, f, env);
    assert Handled(s, f, r);
    WithoutOwnerCloses(s, r.s, Some(f), r.out);
  }

  // ------------------------------------------------------------------ the periodic update

  lemma {:induction false} RetransmitIsGenuine(s: Session, q: Sequence, now: nat, k: nat, env: Env)
    requires s.send.size > 0 && |s.send.sentAt| == s.send.lastSent && 1 <= q
    ensures var r := Retransmit(s, q, now, k, env);
            AllGenuine(s, r.out) && |r.out| <= Max(0, s.send.lastSent + 1 - q)
    decreases s.send.lastSent + 1 - q
  {
    if !(q > s.send.lastSent || !Out.IsDue(s.send, q, now)) && env.link(k) != Broken {
      Out.SlotFrameIsLoggedOrBlank(s.send, q, s.recv.availableSize);
      RetransmitIsGenuine(s, q + 1, now, k + 1, env);
    }
  }

  // What sending may do to a session: count, stamp, close.
  ghost predicate OnlySends(s: Session, t: Session) {
    && t.recv == s.recv && t.sid == s.sid
    && t.sessionVersion == s.sessionVersion && t.protocolVersion == s.protocolVersion
    && t.owner == s.owner && (t.state == s.state || t.state == Closed)
    && t.send.log == s.send.log && t.send.size == s.send.size && t.send.unacknowledged == s.send.unacknowledged
    && Out.Valid(t.send)
  }

  lemma OnlySendsEvolves(s: Session, t: Session, out: seq<Frame>)
    requires OnlySends(s, t) && AllGenuine(s, out)
    ensures Evolves(s, t, None, out)
  {
    forall i | 0 <= i < |out| ensures Genuine(t, out[i]) {
      assert Genuine(s, out[i]);
    }
  }

  /** A retransmission round sends what the slots hold and changes no stream; at the limit it closes the session
      instead. */
  lemma RetransmitRoundKeeps(s: Session, k: nat, env: Env)
    requires Out.Valid(s.send)
    ensures var r := RetransmitRound(s, k, env);
            OnlySends(s, r.s) && AllGenuine(s, r.out)
  {
    ShutdownKeeps(s, Error);
    ShutdownKeeps(s, NotReady);
    RetransmitKeeps(s, s.send.unacknowledged, env.clock(k), k, env);
    RetransmitIsGenuine(s, s.send.unacknowledged, env.clock(k), k, env);
  }

  /** Between two acks there are at most six retransmission rounds: each round that resends anything is counted,
      and with six on the count the next timeout closes the session. */
  lemma RoundsAreBounded(s: Session, k: nat, env: Env)
    requires Out.Valid(s.send) && s.send.size < 256
    ensures var r := RetransmitRound(s, k, env);
            && r.s.send.retransmitCount <= Out.MAX_RETRANSMITS + 1
            && (r.out != [] ==> r.s.send.retransmitCount == s.send.retransmitCount + 1)
            && (s.send.retransmitCount == Out.MAX_RETRANSMITS + 1 && s.send.unacknowledged <= s.send.lastSent
                ==> r.out == [] && r.s == Shutdown(s, NotReady) && r.s.state == Closed && r.s.reason == NotReady)
  {
    RetransmitRoundKeeps(s, k, env);
    RetransmitKeeps(s, s.send.unacknowledged, env.clock(k), k, env);
    RetransmitIsGenuine(s, s.send.unacknowledged, env.clock(k), k, env);
    ShutdownKeeps(s, Error);
    ShutdownKeeps(s, NotReady);
  }

  /** Fresh transmissions: in sequence order, each spending one unit of the window the peer advertised. */
  lemma {:induction false} TransmitKeeps(s: Session, k: nat, env: Env)
    requires Out.Valid(s.send)
    ensures var r := Transmit(s, k, env);
            && OnlySends(s, r.s) && AllGenuine(s, r.out)
            && |r.out| == r.s.send.lastSent - s.send.lastSent == s.send.lastAvailableSize - r.s.send.lastAvailableSize
            && (forall i :: 0 <= i < |r.out| ==> r.out[i].sequence == s.send.lastSent + 1 + i)
    decreases |s.send.log| - s.send.lastSent
  {
    ShutdownKeeps(s, Error);
    if s.send.lastSent + 1 < Out.NextSequence(s.send) && s.send.lastAvailableSize > 0 && env.link(k) == Delivered {
      var q := s.send.lastSent + 1;
      var t := s.(send := Out.Stamp(s.send, env.clock(k)));
      Out.SlotFrameIsLoggedOrBlank(s.send, q, s.recv.availableSize);
      Out.LiveSlotFrame(s.send, q, s.recv.availableSize);
      TransmitKeeps(t, k + 1, env);
      var rest := Transmit(t, k + 1, env);
      var r := Transmit(s, k, env);
      forall i | 0 <= i < |r.out|
        ensures r.out[i].sequence == s.send.lastSent + 1 + i && Genuine(s, r.out[i])
      {
        if i > 0 {
          assert r.out[i] == rest.out[i - 1];
          assert Genuine(t, rest.out[i - 1]);
        }
      }
    }
  }

  lemma UpdateSendWindowKeeps(s: Session, k: nat, env: Env)
    requires Out.Valid(s.send)
    ensures var r := UpdateSendWindow(s, k, env);
            OnlySends(s, r.s) && Evolves(s, r.s, None, r.out)
  {
    hide Retransmit, Out.SlotFrame;
    RetransmitRoundKeeps(s, k, env);
    var r := RetransmitRound(s, k, env);
    TransmitKeeps(r.s, k + |r.out| + 1, env);
    var t := Transmit(r.s, k + |r.out| + 1, env);
    forall i | 0 <= i < |r.out + t.out| ensures Genuine(s, (r.out + t.out)[i]) {
      if i < |r.out| {
        assert Genuine(s, r.out[i]);
      } else {
        assert Genuine(r.s, t.out[i - |r.out|]);
      }
    }
    OnlySendsEvolves(s, t.s, r.out + t.out);
  }

  lemma UpdateTimeoutKeeps(s: Session)
    requires Coherent(s)
    ensures var t := UpdateTimeout(s);
            && Evolves(s, t, None, []) && Coherent(t) && Advances(s.state, t.state, None) && t.owner == s.owner
            && (s.state == Closed ==> t == s)
  {}

  lemma UpdateWindowsIsReported(s: Session, env: Env)
    requires Coherent(s) && s.send.log != []
    ensures Reported(s, None, UpdateWindows(s, env))
  {
    hide RecvGrows, SendGrows, UpdateSendWindow, Resume, SendAckMessage, AllGenuine;
    EvolvesNot(s, s, None);
    SendAckKeeps(s, env.link(0));
    var a := UpdateReceiveWindow(s, env.link(0));
    assert Evolves(s, a.s, None, a.out);
    FirstPartIsCoherent(s, a.s);
    UpdateSendWindowKeeps(a.s, 1, env);
    var b := UpdateSendWindow(a.s, 1, env);
    SecondPartIsCoherent(a.s, b.s);
    ResumeIsReported(b.s);
    SameLog(s, a.s);
    EvolvesTwice(s, a.s, b.s, None, a.out, b.out);
    EvolvesTwice(s, b.s, Resume(b.s).s, None, a.out + b.out, []);
    assert a.out + b.out + [] == a.out + b.out;
  }

  /** The rest of an update. */
  lemma ResumeIsReported(s: Session)
    requires Coherent(s)
    ensures Reported(s, None, Resume(s)) && Resume(s).out == []
    ensures s.state == Closed ==> Resume(s).s == s
  {
    hide RecvGrows, SendGrows, UpdateTimeout, AllGenuine, LogShape;
    EvolvesNot(s, s, None);
    UpdateTimeoutKeeps(s);
    WithoutOwnerCloses(s, UpdateTimeout(s), None, []);
  }

  lemma SameLog(s: Session, t: Session)
    requires t.send == s.send
    ensures t.send.log == s.send.log
  {}

  lemma FirstPartIsCoherent(s: Session, t: Session)
    requires Coherent(s) && t.send == s.send && (t.recv == s.recv || t.recv == In.AcknowledgeAll(s.recv))
    requires t.state == s.state || t.state == Closed
    requires Windows(t) && s.send.log != []
    ensures Coherent(t)
  {}

  lemma SecondPartIsCoherent(s: Session, t: Session)
    requires Coherent(s) && OnlySends(s, t) && s.send.log != []
    ensures Coherent(t)
  {}

  // ------------------------------------------------------------------ the reader, the writer, and the openings

  /** Only `Send` lengthens the log by data, by exactly what it was given, and only when it reports success. */
  lemma SendKeeps(s: Session, data: Bytes, waits: bool)
    requires Coherent(s) && s.state != Listening
    ensures var (t, result) := Send(s, data, waits);
            && Coherent(t)
            && (result != Success ==> t == s)
            && (result == Success ==>
                t == s.(send := t.send) && t.send == s.send.(log := s.send.log + [Entry(Data, s.sid, Content(data))]))
  {
    var (t, result) := Send(s, data, waits);
    if result == Success {
      assert t.send.log == s.send.log + [Entry(Data, s.sid, Content(data))];
      assert !HasFin(s.send.log);
    }
  }

  /** The asserts of the reader hold: what it finds is the next message, and if that is not data, it is the Fin of a
      closing session. */
  lemma ReceiveKeeps(s: Session, room: nat)
    requires Coherent(s)
    ensures var (t, result) := Receive(s, room);
            && Coherent(t)
            && (result.Failed? ==> t == s)
            && (!result.Failed? ==>
                && s.recv.unread in s.recv.buffer && s.recv.buffer[s.recv.unread].sequence == s.recv.unread
                && t == s.(recv := In.Take(s.recv), state := t.state))
            && (result.Got? ==>
                && t.state == s.state && s.recv.buffer[s.recv.unread].kind == Data
                && result.data == ContentOf(s.recv.buffer[s.recv.unread].payload))
            && (result.AtEnd? ==> s.state == Closing && t.state == Closed && s.recv.buffer[s.recv.unread].kind == Fin)
  {
    if s.recv.unread < s.recv.expected {
      In.TakeIsValid(s.recv);
    }
  }

  /** A connect leaves a session that has queued its Syn and nothing else. */
  lemma ConnectOpens(size: nat, sessionVersion: Version, protocol: nat, minVersion: Version, maxVersion: Version,
                     sid: SessionId)
    requires size > 0 && sid != INVALID_SESSION_ID
    ensures var unopened := New(size).(sessionVersion := sessionVersion);
            var (s, result) := Connect(unopened, protocol, minVersion, maxVersion, sid);
            && result == Success && Coherent(s) && s.state == SynSent && s.sid == sid && s.owner == Some(minVersion)
            && s.send.log == [Entry(Syn, sid, SynInfo(protocol, minVersion, maxVersion, sessionVersion))]
            && s.send.unacknowledged == 1 && s.sessionVersion == sessionVersion
  {}

  /** A Syn for a fresh server session: it queues its SynAck and expects what follows the Syn. */
  lemma SynOpens(size: nat, ownerMin: Version, f: Frame, protocolVersion: Version, sid: SessionId, env: Env)
    requires size > 0 && sid != INVALID_SESSION_ID && f.kind == Syn && f.payload.SynInfo?
    ensures var (b, result) := BindToServer(New(size), ownerMin, f.payload.clientSessionVersion, protocolVersion, sid);
            && result == Success && Windows(b)
            && var r := HandleMessage(b, f, env);
            && Coherent(r.s) && r.s.state == SynReceived && r.s.sid == sid && r.out == [] && r.calls == []
            && r.s.protocolVersion == protocolVersion && r.s.owner == Some(ownerMin)
            && r.s.sessionVersion == Min(f.payload.clientSessionVersion, SESSION_PROTOCOL_VERSION)
            && r.s.send.log == [Entry(SynAck, sid, SynAckInfo(f.sequence, f.sid, protocolVersion, r.s.sessionVersion))]
            && r.s.send.unacknowledged == 1 && r.s.recv.unread == f.sequence + 1
  {}

  /** The SynAck a connecting client waits for: it binds to that server session and acknowledges it. */
  lemma SynAckBinds(s: Session, f: Frame, env: Env)
    requires Coherent(s) && s.state == SynSent && f.kind == SynAck && f.payload.SynAckInfo?
    ensures var r := HandleMessage(s, f, env);
            && Coherent(r.s) && r.s.sid == f.sid && (r.s.state == Established || r.s.state == Closed)
            && r.s.send.log == s.send.log && AllGenuine(r.s, r.out) && r.s.owner == s.owner
            && s.send.unacknowledged <= r.s.send.unacknowledged <= Max(s.send.unacknowledged, f.payload.synSequence + 1)
            && Pristine(r.s.recv) && r.s.recv.unread == f.sequence + 1
            && r.s.sessionVersion == f.payload.sessionVersion
            && (f.payload.version != 0 ==> r.s.protocolVersion == f.payload.version)
            && (f.payload.version == 0 && s.owner.Some? ==> r.s.protocolVersion == s.owner.value)
            && (r.s.state == Established ==> s.owner.Some?)
            && (r.calls == [] || (r.calls == [SessionEstablished] && r.s.state == Established))
  {
    var shadow := Frame(Ack, 0, f.payload.synSequence, 0, Empty);
    MarkKeeps(s, f.payload.synSequence, env, Some(shadow));
    var m := MarkMessagesAsAcknowledged(s, f.payload.synSequence, env);
    var t := Adopt(m.s, f);
    assert In.Valid(t.recv);
    SendAckKeeps(t, env.link(1));
    var a := SendAckMessage(t, env.link(1));
    assert forall i :: 0 <= i < |m.out| ==> Genuine(m.s, m.out[i]);
    AfterBinding(s, m.s, t, m.out);
    JoinGenuine(t, a.s, m.out, a.out);
    ShutdownKeeps(WithWindow(a.s, f), Error);
  }

  // What was genuine before the new id is learnt still is: a connecting client has acknowledged nothing.
  lemma AfterBinding(s: Session, m: Session, t: Session, out: seq<Frame>)
    requires AllGenuine(m, out) && t.send == m.send
    requires forall i :: 0 <= i < |out| ==> out[i].kind != Ack || Out.Logged(m.send, out[i])
    ensures AllGenuine(t, out)
  {
    forall i | 0 <= i < |out| ensures Genuine(t, out[i]) {
      assert Genuine(m, out[i]);
    }
  }

  lemma JoinGenuine(t: Session, u: Session, a: seq<Frame>, b: seq<Frame>)
    requires AllGenuine(t, a) && Evolves(t, u, None, b)
    ensures AllGenuine(u, a + b)
  {
    forall i | 0 <= i < |a + b| ensures Genuine(u, (a + b)[i]) {
      if i < |a| {
        GenuineLasts(t, u, None, b, a[i]);
      }
    }
  }
}
