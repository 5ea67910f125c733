/** The session object: two rings, a state and an owner, updated in place. Every method does what the step of the same
    name does to the object's value, and puts the step's frames on the channel. */
module SessionObjects {
  import opened Wire
  import Out = OutgoingStream
  import In = IncomingStream
  import Steps = SessionSteps
  import opened SessionInvariant
  import opened TransmitWindows
  import opened ReceiveWindows

  class Session {
    const sendWindow: TransmitWindow
    const receiveWindow: ReceiveWindow
    var sessionState: Steps.State
    var sessionId: SessionId
    var sessionVersion: Version
    var protocolVersion: Version
    var owner: Option<Version>
    var terminationReason: Result
    var channel: seq<Frame>          // what the transport accepted
    var calls: seq<Steps.Callback>   // what the owners heard

    ghost function Repr(): set<object> {
      {this} + sendWindow.Repr() + receiveWindow.Repr()
    }

    ghost function Value(): Steps.Session
      reads this, sendWindow, receiveWindow
    {
      Steps.Session(sessionState, sendWindow.Value(), receiveWindow.Value(), sessionId, sessionVersion, protocolVersion,
                    owner, terminationReason)
    }

    ghost predicate Valid()
      reads Repr()
    {
      && sendWindow.Valid() && receiveWindow.Valid()
      && sendWindow.Repr() !! receiveWindow.Repr()
      && this !in sendWindow.Repr() && this !in receiveWindow.Repr()
    }

    /** The object is in order, its value is `s`, and it has since put `out` on the channel. */
    ghost predicate Is(s: Steps.Session, before: seq<Frame>, out: seq<Frame>, heard: seq<Steps.Callback>)
      reads Repr()
    {
      Valid() && Value() == s && channel == before + out && calls == heard
    }

    constructor (size: nat)
      requires size > 0
      ensures Is(Steps.New(size), [], [], []) && fresh(Repr())
    {
      sendWindow := new TransmitWindow(size);
      receiveWindow := new ReceiveWindow(size);
      sessionState, sessionId := Steps.Closed, INVALID_SESSION_ID;
      sessionVersion, protocolVersion := SESSION_PROTOCOL_VERSION, 0;
      owner, terminationReason := None, Success;
      channel, calls := [], [];
    }

    // ---------------------------------------------------------------- transmitting

    method Shutdown(reason: Result)
      requires Valid()
      modifies this`terminationReason, this`sessionState
      ensures Is(Steps.Shutdown(old(Value()), reason), old(channel), [], old(calls))
    {
      hide TransmitWindow.Valid, ReceiveWindow.Valid;
      terminationReason := reason;
      match sessionState {
        case Closed | FinWait1 | FinWait2 | Closing =>
          if reason != Success {
            sessionState := Steps.Closed;
          }
        case Established =>
          if reason == Success {
            sessionState := Steps.FinWait1;
          } else {
            sessionState := Steps.Closed;
          }
        case Listening | SynSent | SynReceived =>
          sessionState := Steps.Closed;
      }
    }

    // A busy transport is asked again until it is not busy.
    method SendOrClose(f: Frame, outcome: Outcome) returns (sent: bool)
      requires Valid()
      modifies this`terminationReason, this`sessionState, this`channel
      ensures sent == (outcome != Broken)
      ensures var r := Steps.SendOrClose(old(Value()), f, outcome);
              Is(r.s, old(channel), r.out, old(calls))
    {
      sent := true;
      if outcome == Broken {
        Shutdown(Error);
        sent := false;
      } else {
        channel := channel + [f];
      }
    }

    method SendAckMessage(outcome: Outcome)
      requires Valid()
      modifies this`terminationReason, this`sessionState, this`channel,
               receiveWindow`lastUnacknowledgedSequence, receiveWindow`currentAvailableSize
      ensures var r := Steps.SendAckMessage(old(Value()), outcome);
              Is(r.s, old(channel), r.out, old(calls))
    {
      receiveWindow.AcknowledgeAll();
      var sent := SendOrClose(Frame(Ack, sessionId, receiveWindow.nextExpectedSequence - 1,
                                    receiveWindow.currentAvailableSize, Empty), outcome);
    }

    // ---------------------------------------------------------------- the two windows

    method MarkMessagesAsAcknowledged(maxSequence: Sequence, env: Env)
      requires Valid()
      modifies this, sendWindow.Repr()
      ensures var r := Steps.MarkMessagesAsAcknowledged(old(Value()), maxSequence, env);
              Is(r.s, old(channel), r.out, old(calls))
    {
      hide Steps.FastRetransmit, ReceiveWindow.Valid, Out.Acknowledge;
      var progressed := sendWindow.MarkAcknowledged(maxSequence, env.clock(0));
      if !progressed && sendWindow.lastAckCount >= Out.FAST_RETRANSMIT_THRESHOLD {
        FastRetransmit(env.link(0));
      }
    }

    method FastRetransmit(outcome: Outcome)
      requires Valid() && sendWindow.lastAckCount >= Out.FAST_RETRANSMIT_THRESHOLD
      modifies this, sendWindow.Repr()
      ensures var r := Steps.FastRetransmit(old(Value()), outcome);
              Is(r.s, old(channel), r.out, old(calls))
    {
      hide Out.SlotFrame, TransmitWindow.SlotOk, ReceiveWindow.Valid;
      var beyond := sendWindow.lastAckCount - Out.FAST_RETRANSMIT_THRESHOLD;
      var retransSeq := sendWindow.nextUnacknowledgedSequence + beyond;
      var message := sendWindow.SlotContent(retransSeq, receiveWindow.currentAvailableSize);
      var sent := SendOrClose(message, outcome);
      if sent {
        sendWindow.ResetRetransmitCount();
      }
    }

    method WriteMessageIntoReceiveWindow(f: Frame, outcome: Outcome)
      requires Valid()
      modifies this, receiveWindow.Repr()
      ensures var r := Steps.WriteMessageIntoReceiveWindow(old(Value()), f, outcome);
              Is(r.s, old(channel), r.out, old(calls))
    {
      var pendingAck := receiveWindow.nextExpectedSequence > receiveWindow.lastUnacknowledgedSequence;
      if f.sequence >= receiveWindow.nextExpectedSequence && PayloadSize(f.payload) <= MAX_PAYLOAD_SIZE_IN_BYTES {
        var distance := f.sequence - receiveWindow.nextUnreadSequence;
        if distance < receiveWindow.size {
          receiveWindow.Store(f);
          if pendingAck {
            var unackDistance := receiveWindow.nextExpectedSequence - receiveWindow.lastUnacknowledgedSequence;
            if unackDistance >= In.MAX_UNACKNOWLEDGED_THRESHOLD {
              SendAckMessage(outcome);
            }
          }
        }
      } else {
        SendAckMessage(outcome);
      }
    }

    method WriteMessageIntoSendWindow(kind: Kind, payload: Payload, waits: bool) returns (result: Result)
      requires Valid()
      modifies sendWindow.Repr()
      ensures var (s, r) := Steps.WriteMessageIntoSendWindow(old(Value()), kind, payload, waits);
              result == r && Is(s, old(channel), [], old(calls))
    {
      if Steps.Rank(sessionState) < Steps.Rank(Steps.FinWait2) {
        if PayloadSize(payload) <= MAX_PAYLOAD_SIZE_IN_BYTES {
          if waits && sendWindow.semaphore > 0 {
            sendWindow.Write(Entry(kind, sessionId, payload), receiveWindow.currentAvailableSize);
            result := Success;
          } else {
            result := NotReady;
          }
        } else {
          result := InsufficientMemory;
        }
      } else {
        result := Error;
      }
    }

    // ---------------------------------------------------------------- opening

    method Connect(protocol: nat, minVersion: Version, maxVersion: Version, sid: SessionId) returns (result: Result)
      requires Valid()
      modifies Repr()
      ensures var (s, r) := Steps.Connect(old(Value()), protocol, minVersion, maxVersion, sid);
              result == r && Is(s, old(channel), [], old(calls))
    {
      result := Error;
      if sid != INVALID_SESSION_ID && sessionState == Steps.Closed {
        owner := Some(minVersion);
        sessionId := sid;
        result := WriteMessageIntoSendWindow(Syn, SynInfo(protocol, minVersion, maxVersion, sessionVersion), true);
        if result == Success {
          sessionState := Steps.SynSent;
        }
      }
    }

    method BindToServer(ownerMinVersion: Version, requestedSessionVersion: Version, version: Version, sid: SessionId)
      returns (result: Result)
      requires Valid()
      modifies this
      ensures var (s, r) := Steps.BindToServer(old(Value()), ownerMinVersion, requestedSessionVersion, version, sid);
              result == r && Is(s, old(channel), [], old(calls))
    {
      result := Error;
      if sid != INVALID_SESSION_ID && sessionState == Steps.Closed {
        owner := Some(ownerMinVersion);
        sessionVersion := Min(requestedSessionVersion, SESSION_PROTOCOL_VERSION);
        protocolVersion := version;
        sessionId := sid;
        sessionState := Steps.Listening;
        result := Success;
      }
    }

    method HandleSynMessage(f: Frame)
      requires Valid() && receiveWindow.buffer == map[]
      modifies Repr()
      ensures Is(Steps.HandleSynMessage(old(Value()), f), old(channel), [], old(calls))
    {
      var payload := SynAckInfo(f.sequence, f.sid, protocolVersion, sessionVersion);
      var result := WriteMessageIntoSendWindow(SynAck, payload, true);
      if result == Success {
        sessionState := Steps.SynReceived;
        receiveWindow.StartAfter(f.sequence);
      } else {
        Shutdown(Error);
      }
    }

    method UpdateSendWindowSize(f: Frame)
      requires Valid()
      modifies sendWindow`lastAvailableSize
      ensures Is(Steps.WithWindow(old(Value()), f), old(channel), [], old(calls))
    {
      sendWindow.SetAvailableSize(f.window);
    }

    // The client takes over what the SynAck tells it, and acknowledges it.
    method Adopt(f: Frame, outcome: Outcome)
      requires Valid() && f.payload.SynAckInfo? && receiveWindow.buffer == map[]
      modifies this, receiveWindow
      ensures var r := Steps.SendAckMessage(Steps.Adopt(old(Value()), f), outcome);
              Is(r.s, old(channel), r.out, old(calls))
    {
      hide TransmitWindow.Valid, Steps.SendAckMessage;
      sessionVersion := f.payload.sessionVersion;
      sessionState := Steps.Established;
      sessionId := f.sid;
      if f.payload.version != 0 {
        protocolVersion := f.payload.version;
      } else if owner.Some? {
        protocolVersion := owner.value;
      }
      receiveWindow.StartAfter(f.sequence);
      SendAckMessage(outcome);
    }

    method HandleSynAckMessage(f: Frame, env: Env)
      requires Valid() && f.payload.SynAckInfo?
      requires sessionState == Steps.SynSent ==> receiveWindow.buffer == map[]
      modifies Repr()
      ensures var r := Steps.HandleSynAckMessage(old(Value()), f, env);
              Is(r.s, old(channel), r.out, old(calls))
    {
      hide TransmitWindow.Valid, ReceiveWindow.Valid, Steps.MarkMessagesAsAcknowledged, Steps.SendAckMessage,
           Steps.Adopt;
      match sessionState {
        case FinWait1 | FinWait2 | Closing | Established =>
          MarkMessagesAsAcknowledged(f.sequence, env);
        case SynSent =>
          MarkMessagesAsAcknowledged(f.payload.synSequence, env);
          Adopt(f, env.link(1));
        case Closed | Listening | SynReceived =>
      }
      UpdateSendWindowSize(f);
    }

    // ---------------------------------------------------------------- running and closing

    method HandleFinMessage(f: Frame, env: Env)
      requires Valid()
      modifies this, receiveWindow.Repr(), sendWindow`lastAvailableSize
      ensures var r := Steps.HandleFinMessage(old(Value()), f, env);
              Is(r.s, old(channel), r.out, old(calls))
    {
      hide TransmitWindow.Valid, ReceiveWindow.Valid, Steps.WriteMessageIntoReceiveWindow;
      if Steps.Rank(sessionState) < Steps.Rank(Steps.Closing) {
        WriteMessageIntoReceiveWindow(f, env.link(0));
        sessionState := Steps.Closing;
        terminationReason := Success;
      } else if sessionState == Steps.FinWait2 {
        WriteMessageIntoReceiveWindow(f, env.link(0));
        SendAckMessage(env.link(1));
        sessionState := Steps.Closed;
        terminationReason := Success;
      }
      UpdateSendWindowSize(f);
    }

    method HandleDataMessage(f: Frame, env: Env)
      requires Valid()
      modifies this, receiveWindow.Repr(), sendWindow`lastAvailableSize
      ensures var r := Steps.HandleDataMessage(old(Value()), f, env);
              Is(r.s, old(channel), r.out, old(calls))
    {
      match sessionState {
        case FinWait1 | FinWait2 | Established =>
          WriteMessageIntoReceiveWindow(f, env.link(0));
        case Closed | Listening | SynSent | SynReceived | Closing =>
      }
      UpdateSendWindowSize(f);
    }

    method HandleAckMessage(f: Frame, env: Env)
      requires Valid()
      modifies Repr()
      ensures var r := Steps.HandleAckMessage(old(Value()), f, env);
              Is(r.s, old(channel), r.out, old(calls))
    {
      hide TransmitWindow.Valid, ReceiveWindow.Valid, Steps.MarkMessagesAsAcknowledged;
      match sessionState {
        case SynReceived =>
          sessionState := Steps.Established;
          MarkMessagesAsAcknowledged(f.sequence, env);
        case Established | FinWait1 | FinWait2 | Closing =>
          MarkMessagesAsAcknowledged(f.sequence, env);
        case Closed | Listening | SynSent =>
      }
      UpdateSendWindowSize(f);
    }

    method HandleRstMessage(f: Frame)
      requires Valid()
      modifies Repr()
      ensures var r := Steps.HandleRstMessage(old(Value()), f);
              Is(r.s, old(channel), r.out, old(calls))
    {
      Shutdown(ResultOf(f.sequence));
      UpdateSendWindowSize(f);
    }

    method Dispatch(f: Frame, env: Env)
      requires Valid() && Steps.WellFormed(f)
      requires f.kind == Syn || (f.kind == SynAck && sessionState == Steps.SynSent) ==> receiveWindow.buffer == map[]
      modifies Repr()
      ensures var r := Steps.Dispatch(old(Value()), f, env);
              Is(r.s, old(channel), r.out, old(calls))
    {
      hide Steps.HandleSynMessage, Steps.HandleSynAckMessage, Steps.HandleFinMessage, Steps.HandleDataMessage,
           Steps.HandleAckMessage, Steps.HandleRstMessage;
      match f.kind {
        case Syn => HandleSynMessage(f);
        case SynAck => HandleSynAckMessage(f, env);
        case Fin => HandleFinMessage(f, env);
        case Data => HandleDataMessage(f, env);
        case Ack => HandleAckMessage(f, env);
        case Rst => HandleRstMessage(f);
      }
    }

    /** Handles a message of any kind; a session that it establishes reports to its owner, or closes for want of one. */
    method HandleMessage(f: Frame, env: Env)
      requires Valid() && Steps.WellFormed(f)
      requires Coherent(Value()) && (f.kind == Syn ==> sessionState == Steps.Listening)
      modifies Repr()
      ensures var r := Steps.HandleMessage(old(Value()), f, env);
              Is(r.s, old(channel), r.out, old(calls) + r.calls)
    {
      hide Steps.Dispatch;
      var initialState := sessionState;
      Dispatch(f, env);
      if initialState != sessionState && sessionState == Steps.Established {
        if owner.Some? {
          calls := calls + [Steps.SessionEstablished];
        } else {
          Shutdown(Error);
        }
      }
    }

    // ---------------------------------------------------------------- the periodic update

    method UpdateReceiveWindow(outcome: Outcome)
      requires Valid()
      modifies this, receiveWindow
      ensures var r := Steps.UpdateReceiveWindow(old(Value()), outcome);
              Is(r.s, old(channel), r.out, old(calls))
    {
      if receiveWindow.nextExpectedSequence > receiveWindow.lastUnacknowledgedSequence {
        SendAckMessage(outcome);
      }
    }

    // One message whose acknowledgement is overdue.
    method RetransmitNext(seqNumber: Sequence, outcome: Outcome) returns (sent: bool)
      requires Valid() && sendWindow.nextUnacknowledgedSequence <= seqNumber <= sendWindow.lastSentSequence
      modifies this, sendWindow.messages
      ensures sent == (outcome != Broken)
      ensures var s := old(Value());
              if sent then Is(s, old(channel), [Out.SlotFrame(s.send, seqNumber, s.recv.availableSize)], old(calls))
              else Is(Steps.Shutdown(s, Error), old(channel), [], old(calls))
    {
      hide TransmitWindow.SlotOk, ReceiveWindow.Valid, Out.SlotFrame;
      var ready := sendWindow.Holds(seqNumber);
      assert ready;
      var message := sendWindow.SlotContent(seqNumber, receiveWindow.currentAvailableSize);
      sent := SendOrClose(message, outcome);
    }

    ghost function Then(out: seq<Frame>, rest: Steps.Reply): Steps.Reply {
      Steps.Reply(rest.s, out + rest.out)
    }

    lemma ThenThen(a: seq<Frame>, b: seq<Frame>, rest: Steps.Reply)
      ensures Then(a, Then(b, rest)) == Then(a + b, rest)
    {
      assert a + (b + rest.out) == (a + b) + rest.out;
    }

    lemma ThenNothing(a: seq<Frame>, s: Steps.Session)
      ensures Then(a, Steps.Reply(s, [])) == Steps.Reply(s, a)
    {
      assert a + [] == a;
    }

    lemma NothingThen(rest: Steps.Reply)
      ensures Then([], rest) == rest
    {
      assert [] + rest.out == rest.out;
    }

    lemma OneRetransmission(s: Steps.Session, q: Sequence, now: nat, k: nat, env: Env)
      requires s.send.size > 0 && |s.send.sentAt| == s.send.lastSent && 1 <= q <= s.send.lastSent
      ensures Steps.Retransmit(s, q, now, k, env)
              == if !Out.IsDue(s.send, q, now) then Steps.Reply(s, [])
                 else if env.link(k) == Broken then Steps.Reply(Steps.Shutdown(s, Error), [])
                 else
                   Then([Out.SlotFrame(s.send, q, s.recv.availableSize)], Steps.Retransmit(s, q + 1, now, k + 1, env))
    {}

    lemma NoRetransmission(s: Steps.Session, q: Sequence, now: nat, k: nat, env: Env)
      requires s.send.size > 0 && |s.send.sentAt| == s.send.lastSent && 1 <= q && q > s.send.lastSent
      ensures Steps.Retransmit(s, q, now, k, env) == Steps.Reply(s, [])
    {}

    /** One pass over the unacknowledged messages that are due; `sent` counts what was retransmitted. */
    method Retransmit(now: nat, k: nat, env: Env) returns (sent: nat)
      requires Valid()
      modifies this, sendWindow.messages
      ensures var r := Steps.Retransmit(old(Value()), old(sendWindow.nextUnacknowledgedSequence), now, k, env);
              Is(r.s, old(channel), r.out, old(calls)) && sent == |r.out|
    {
      hide TransmitWindow.SlotOk, ReceiveWindow.Valid, Out.SlotFrame, Out.IsDue, In.Valid, Steps.Retransmit,
           Steps.Shutdown, Then;
      ghost var s := Value();
      ghost var out: seq<Frame> := [];
      var seqNumber := sendWindow.nextUnacknowledgedSequence;
      sent := 0;
      ghost var whole := Steps.Retransmit(s, seqNumber, now, k, env);
      assert Then(out, whole) == whole by {
        NothingThen(whole);
      }
      var more := true;
      while more && seqNumber <= sendWindow.lastSentSequence
        invariant sent == |out|
        invariant if more then && Is(s, old(channel), out, old(calls))
                               && sendWindow.nextUnacknowledgedSequence <= seqNumber
                               && whole == Then(out, Steps.Retransmit(s, seqNumber, now, k + sent, env))
                  else Is(Value(), old(channel), out, old(calls)) && whole == Then(out, Steps.Reply(Value(), []))
        decreases more, sendWindow.lastSentSequence - seqNumber
      {
        OneRetransmission(s, seqNumber, now, k + sent, env);
        more := sendWindow.IsDue(seqNumber, now);
        if more {
          more := RetransmitNext(seqNumber, env.link(k + sent));
          if more {
            ghost var message := Out.SlotFrame(s.send, seqNumber, s.recv.availableSize);
            ThenThen(out, [message], Steps.Retransmit(s, seqNumber + 1, now, k + sent + 1, env));
            out := out + [message];
            sent := sent + 1;
            seqNumber := seqNumber + 1;
          }
        }
      }
      if more {
        NoRetransmission(s, seqNumber, now, k + sent, env);
      }
      ThenNothing(out, Value());
    }

    /** A timed round: it is counted if it retransmitted anything, and beyond the limit it gives the session up. */
    method RetransmitRound(k: nat, env: Env) returns (sent: nat)
      requires Valid()
      modifies this, sendWindow, sendWindow.messages
      ensures var r := Steps.RetransmitRound(old(Value()), k, env);
              Is(r.s, old(channel), r.out, old(calls)) && sent == |r.out|
    {
      hide ReceiveWindow.Valid, TransmitWindow.SlotOk, Steps.Retransmit;
      sent := 0;
      if sendWindow.nextUnacknowledgedSequence <= sendWindow.lastSentSequence {
        if sendWindow.retransmitCount <= Out.MAX_RETRANSMITS {
          Steps.RetransmitKeeps(Value(), sendWindow.nextUnacknowledgedSequence, env.clock(k), k, env);
          sent := Retransmit(env.clock(k), k, env);
          if sent % 256 > 0 {
            sendWindow.CountRound();
          }
        } else {
          Shutdown(NotReady);
        }
      }
    }

    // One message that was never sent. A transport that is busy, or fails, ends the pass.
    method TransmitNext(outcome: Outcome, now: nat) returns (sent: bool)
      requires Valid() && sendWindow.lastSentSequence + 1 < sendWindow.nextSequence && sendWindow.lastAvailableSize > 0
      modifies this, sendWindow, sendWindow.messages, sendWindow.initialTransmitTimeInMs
      ensures sent == (outcome == Delivered)
      ensures var s := old(Value());
              if sent then Is(s.(send := Out.Stamp(s.send, now)), old(channel),
                              [Out.SlotFrame(s.send, s.send.lastSent + 1, s.recv.availableSize)], old(calls))
              else Is(if outcome == Busy then s else Steps.Shutdown(s, Error), old(channel), [], old(calls))
    {
      hide TransmitWindow.SlotOk, ReceiveWindow.Valid, Out.SlotFrame;
      var seqNumber := sendWindow.lastSentSequence + 1;
      var ready := sendWindow.Holds(seqNumber);
      assert ready;
      var message := sendWindow.SlotContent(seqNumber, receiveWindow.currentAvailableSize);
      sent := outcome == Delivered;
      if sent {
        channel := channel + [message];
        sendWindow.NoteTransmission(now);
      } else if outcome != Busy {
        Shutdown(Error);
      }
    }

    ghost predicate MayTransmit(s: Steps.Session) {
      s.send.size > 0 && s.send.lastSent + 1 < Out.NextSequence(s.send) && s.send.lastAvailableSize > 0
    }

    lemma OneTransmission(s: Steps.Session, k: nat, env: Env)
      requires MayTransmit(s)
      ensures var f := Out.SlotFrame(s.send, s.send.lastSent + 1, s.recv.availableSize);
              var t := s.(send := Out.Stamp(s.send, env.clock(k)));
              Steps.Transmit(s, k, env)
              == match env.link(k)
                 case Delivered => Then([f], Steps.Transmit(t, k + 1, env))
                 case Busy => Steps.Reply(s, [])
                 case Broken => Steps.Reply(Steps.Shutdown(s, Error), [])
    {}

    lemma NoTransmission(s: Steps.Session, k: nat, env: Env)
      requires s.send.size > 0 && s.send.lastSent <= |s.send.log| && !MayTransmit(s)
      ensures Steps.Transmit(s, k, env) == Steps.Reply(s, [])
    {}

    /** Transmits what was never sent, in order, until the window the peer advertised is spent. */
    method TransmitUnsent(k: nat, env: Env)
      requires Valid()
      modifies this, sendWindow, sendWindow.messages, sendWindow.initialTransmitTimeInMs
      ensures var r := Steps.Transmit(old(Value()), k, env);
              Is(r.s, old(channel), r.out, old(calls))
    {
      hide ReceiveWindow.Valid, TransmitWindow.SlotOk, Out.SlotFrame, Out.Stamp, In.Valid, Steps.Shutdown,
           Steps.Transmit, Then;
      ghost var whole := Steps.Transmit(Value(), k, env);
      ghost var out: seq<Frame> := [];
      var n := k;
      assert Then(out, whole) == whole by {
        NothingThen(whole);
      }
      var failed := false;
      while !failed && sendWindow.lastSentSequence + 1 < sendWindow.nextSequence && sendWindow.lastAvailableSize > 0
        invariant Is(Value(), old(channel), out, old(calls))
        invariant whole == Then(out, if failed then Steps.Reply(Value(), []) else Steps.Transmit(Value(), n, env))
        decreases !failed, sendWindow.nextSequence - sendWindow.lastSentSequence
      {
        ghost var s := Value();
        OneTransmission(s, n, env);
        StampSends(s.send, env.clock(n));
        var sent := TransmitNext(env.link(n), env.clock(n));
        if sent {
          ghost var message := Out.SlotFrame(s.send, s.send.lastSent + 1, s.recv.availableSize);
          n := n + 1;
          ThenThen(out, [message], Steps.Transmit(Value(), n, env));
          out := out + [message];
        } else {
          failed := true;
        }
      }
      if !failed {
        NoTransmission(Value(), n, env);
      }
      ThenNothing(out, Value());
    }

    lemma StampSends(o: Out.Outgoing, now: nat)
      ensures var p := Out.Stamp(o, now);
              p.lastSent == o.lastSent + 1 && p.log == o.log && p.size == o.size
    {}

    method UpdateSendWindow(k: nat, env: Env)
      requires Valid()
      modifies this, sendWindow.Repr()
      ensures var r := Steps.UpdateSendWindow(old(Value()), k, env);
              Is(r.s, old(channel), r.out, old(calls))
    {
      hide Steps.RetransmitRound, Steps.Transmit, TransmitWindow.SlotOk, ReceiveWindow.Valid;
      var sent := RetransmitRound(k, env);
      TransmitUnsent(k + sent + 1, env);
    }

    method IsSendWindowEmpty() returns (isEmpty: bool)
      requires Valid()
      ensures isEmpty == Steps.IsSendWindowEmpty(Value())
    {
      isEmpty := sendWindow.nextUnacknowledgedSequence > sendWindow.lastSentSequence;
      if sessionVersion >= SESSION_PROTOCOL_SYNACK_VERSION {
        isEmpty := isEmpty && sendWindow.lastSentSequence + 1 == sendWindow.nextSequence;
      }
    }

    /** The closing transitions. The Fin takes a permit; `waits` says that there is none, so that the call gets no
        further until an acknowledgement frees one. */
    method UpdateTimeout() returns (waits: bool)
      requires Valid()
      modifies this, sendWindow.Repr()
      ensures waits == Steps.Blocks(old(Value()))
      ensures Is(if waits then old(Value()) else Steps.UpdateTimeout(old(Value())), old(channel), [], old(calls))
    {
      hide TransmitWindow.SlotOk, Out.Append, ReceiveWindow.Stores, Steps.WriteMessageIntoSendWindow;
      waits := false;
      if sessionState == Steps.FinWait1 {
        if sendWindow.semaphore == 0 {
          return true;
        }
        var result := WriteMessageIntoSendWindow(Fin, Empty, true);
        if result == Success {
          sessionState := Steps.FinWait2;
        }
      }
      if sessionState == Steps.FinWait2 {
        var isEmpty := IsSendWindowEmpty();
        if isEmpty {
          sessionState := Steps.Closed;
        }
      }
      if sessionState == Steps.Closing && receiveWindow.nextUnreadSequence < receiveWindow.nextExpectedSequence {
        var message := receiveWindow.Peek();
        if message.kind == Fin {
          sessionState := Steps.Closed;
        }
      }
    }

    /** The update from the timers on, to the end of the owner's turn. */
    method Resume()
      requires Valid()
      modifies this, sendWindow.Repr()
      ensures var r := Steps.Resume(old(Value()));
              Is(r.s, old(channel), r.out, old(calls) + r.calls)
    {
      hide Steps.UpdateTimeout, Steps.Blocks, TransmitWindow.Valid, ReceiveWindow.Valid;
      var waits := UpdateTimeout();
      if !waits && Steps.Rank(sessionState) >= Steps.Rank(Steps.Established) {
        if owner.Some? {
          calls := calls + [Steps.UpdateSession];
        } else {
          Shutdown(Error);
        }
      }
    }

    /** The update up to and including the owner's turn, or up to where it has to wait. */
    method UpdateWindows(env: Env)
      requires Valid()
      modifies Repr()
      ensures var r := Steps.UpdateWindows(old(Value()), env);
              Is(r.s, old(channel), r.out, old(calls) + r.calls)
    {
      hide Steps.UpdateReceiveWindow, Steps.UpdateSendWindow, Steps.Resume, TransmitWindow.SlotOk, ReceiveWindow.Valid;
      UpdateReceiveWindow(env.link(0));
      UpdateSendWindow(1, env);
      ghost var before := Value();
      Steps.ResumeIsSilent(before);
      Resume();
    }

    method Orphan()
      requires Valid()
      modifies this`owner
      ensures Is(Steps.Orphan(old(Value())), old(channel), [], old(calls))
    {
      owner := None;
    }

    /** The rest of the update. */
    method UpdateTermination()
      requires Valid()
      modifies this`owner, this`calls
      ensures var r := Steps.UpdateTermination(old(Value()));
              Is(r.s, old(channel), r.out, old(calls) + r.calls)
    {
      if sessionState == Steps.Closed && owner.Some? {
        calls := calls + [Steps.SessionTerminated(terminationReason)];
        Orphan();
      }
    }

    method CloseIfOwnedBy(isOwner: bool)
      requires Valid()
      modifies this
      ensures var r := Steps.CloseIfOwnedBy(old(Value()), isOwner);
              Is(r.s, old(channel), r.out, old(calls) + r.calls)
    {
      if isOwner && owner.Some? {
        calls := calls + [Steps.SessionTerminated(EndOfStream)];
        Orphan();
        Shutdown(Success);
      }
    }

    method Close(reason: Result)
      requires Valid()
      modifies this
      ensures Is(Steps.Close(old(Value()), reason), old(channel), [], old(calls))
    {
      Orphan();
      Shutdown(reason);
    }

    // ---------------------------------------------------------------- the reader and the writer

    method Send(data: Bytes, waits: bool) returns (result: Result)
      requires Valid()
      modifies sendWindow.Repr()
      ensures var (s, r) := Steps.Send(old(Value()), data, waits);
              result == r && Is(s, old(channel), [], old(calls))
    {
      if sessionState != Steps.Closed {
        result := WriteMessageIntoSendWindow(Data, Content(data), waits);
      } else {
        result := Error;
      }
    }

    /** Hands out the next message, or ends the stream: what is not data is the Fin of a closing session. */
    method Receive(room: nat) returns (received: Steps.Received)
      requires Valid() && Coherent(Value())
      modifies this`sessionState, receiveWindow.Repr()
      ensures var (s, r) := Steps.Receive(old(Value()), room);
              received == r && Is(s, old(channel), [], old(calls))
    {
      hide TransmitWindow.Valid, LogShape;
      if Steps.Rank(sessionState) < Steps.Rank(Steps.Established) {
        return Steps.Failed(Error);
      }
      if receiveWindow.semaphore == 0 {
        return Steps.Failed(NotReady);
      }
      var message := receiveWindow.Peek();
      if PayloadSize(message.payload) > room {
        return Steps.Failed(InsufficientMemory);
      }
      received := Read(message);
    }

    method Read(message: Frame) returns (received: Steps.Received)
      requires Valid() && Coherent(Value())
      requires receiveWindow.nextUnreadSequence < receiveWindow.nextExpectedSequence
      requires receiveWindow.nextUnreadSequence in receiveWindow.buffer
      requires message == receiveWindow.buffer[receiveWindow.nextUnreadSequence]
      requires Steps.Rank(sessionState) >= Steps.Rank(Steps.Established)
      modifies this`sessionState, receiveWindow.Repr()
      ensures received == if message.kind == Data then Steps.Got(ContentOf(message.payload)) else Steps.AtEnd
      ensures var s := old(Value());
              Is(s.(recv := In.Take(s.recv), state := if message.kind == Data then s.state else Steps.Closed),
                 old(channel), [], old(calls))
    {
      hide TransmitWindow.Valid, LogShape, ReceiveWindow.Stores;
      if message.kind == Data {
        received := Steps.Got(ContentOf(message.payload));
      } else {
        assert message.kind == Fin && sessionState == Steps.Closing;
        sessionState := Steps.Closed;
        received := Steps.AtEnd;
      }
      receiveWindow.Take();
    }
  }
}
