/** What bounds a session's sending, over any course its life may take: its users' calls, its updates, and the messages
    it is given. */
module FlowControl {
  import opened Wire
  import Out = OutgoingStream
  import opened SessionSteps
  import opened SessionInvariant
  import Effects = SessionEffects
  import opened SessionManagers

  /** `Rest` is the part of an update that had to wait. */
  datatype Turn = User(use: Use) | Timer(env: Env) | Rest | Hears(f: Frame, menv: Env)

  // Does the manager hand the message to the session? A request opens a session of its own.
  predicate Takes(s: Session, f: Frame) {
    WellFormed(f) && f.kind != Syn && (f.kind == SynAck || s.state != Closed)
  }

  function Turned(s: Session, t: Turn): Session
    requires Windows(s)
  {
    match t
    case User(use) => Used(s, use)
    case Timer(env) => Updated(s, env)
    case Rest => UpdateTermination(Resume(s).s).s
    case Hears(f, env) => if Takes(s, f) then HandleMessage(s, f, env).s else s
  }

  lemma RestKeepsSession(s: Session)
    requires Kept(s)
    ensures Kept(UpdateTermination(Resume(s).s).s)
  {
    hide LogShape, BufferKinds, FinMeansClosing, RecvGrows, AllGenuine, Windows, Resume;
    ResumeIsReported(s);
    OrphanKeeps(Resume(s).s);
  }

  lemma TurnKeeps(s: Session, t: Turn)
    requires Kept(s)
    ensures Windows(s) && Kept(Turned(s, t))
  {
    hide Kept, Used, Updated, HandleMessage, Resume, UpdateTermination;
    KeptWindows(s);
    match t {
      case User(use) => UseKeepsSession(s, use);
      case Timer(env) => UpdateKeepsSession(s, env);
      case Rest => RestKeepsSession(s);
      case Hears(f, env) =>
        if Takes(s, f) {
          MessageKeepsSession(s, f, env);
        }
    }
  }

  lemma KeptWindows(s: Session)
    requires Kept(s)
    ensures Windows(s)
  {}

  function Played(s: Session, turns: seq<Turn>): (t: Session)
    requires Kept(s)
    ensures Kept(t)
    decreases |turns|
  {
    if turns == [] then s
    else
      TurnKeeps(s, turns[0]);
      Played(Turned(s, turns[0]), turns[1..])
  }

  predicate IsAck(t: Turn) {
    t.Hears? && (t.f.kind == Ack || t.f.kind == SynAck)
  }

  // ------------------------------------------------------------------ what a message does to the sending half

  lemma StoringKeepsSend(s: Session, f: Frame, outcome: Outcome)
    requires Windows(s)
    ensures WriteMessageIntoReceiveWindow(s, f, outcome).s.send == s.send
  {}

  /** Data, a Fin or a reset bring nothing but the peer's window. */
  lemma OthersOnlySetWindow(s: Session, f: Frame, env: Env)
    requires Windows(s) && (f.kind == Data || f.kind == Fin || f.kind == Rst)
    ensures HandleMessage(s, f, env).s.send == s.send.(lastAvailableSize := f.window)
  {
    hide WriteMessageIntoReceiveWindow, SendAckMessage;
    ShutdownKeeps(Dispatch(s, f, env).s, Error);
    match f.kind {
      case Fin =>
        StoringKeepsSend(s, f, env.link(0));
        if s.state == FinWait2 {
          StaysReadable(s, f, env.link(0));
          Effects.AnsweringKeepsSend(WriteMessageIntoReceiveWindow(s, f, env.link(0)).s, env.link(1));
        }
      case Data => StoringKeepsSend(s, f, env.link(0));
      case Rst => ShutdownKeeps(s, ResultOf(f.sequence));
    }
  }

  lemma MessageSetsWindow(s: Session, f: Frame, env: Env)
    requires Windows(s) && WellFormed(f) && f.kind != Syn
    ensures HandleMessage(s, f, env).s.send.lastAvailableSize == f.window
  {
    ShutdownKeeps(Dispatch(s, f, env).s, Error);
  }

  // ------------------------------------------------------------------ timed rounds

  // The part of an update that retransmits.
  function Round(s: Session, env: Env): Reply
    requires Windows(s)
  {
    RetransmitRound(UpdateReceiveWindow(s, env.link(0)).s, 1, env)
  }

  predicate Retransmits(s: Session, t: Turn)
    requires Windows(s)
  {
    t.Timer? && Round(s, t.env).out != []
  }

  /** The timed rounds among the turns. */
  function Rounds(s: Session, turns: seq<Turn>): nat
    requires Kept(s)
    decreases |turns|
  {
    if turns == [] then 0
    else
      TurnKeeps(s, turns[0]);
      (if Retransmits(s, turns[0]) then 1 else 0) + Rounds(Turned(s, turns[0]), turns[1..])
  }

  ghost predicate Counts(o: Out.Outgoing, p: Out.Outgoing, rounds: nat) {
    p.size == o.size && p.retransmitCount == o.retransmitCount + rounds
  }

  // The window is spent by what is sent for the first time.
  ghost predicate Spends(o: Out.Outgoing, p: Out.Outgoing) {
    p.lastSent + p.lastAvailableSize == o.lastSent + o.lastAvailableSize && o.lastSent <= p.lastSent
  }

  // Nothing but an acknowledgement touches the average.
  ghost predicate SameAverage(o: Out.Outgoing, p: Out.Outgoing) {
    p.roundTripTime == o.roundTripTime
  }

  lemma {:induction false} TransmitCountsNothing(s: Session, k: nat, env: Env)
    requires Out.Valid(s.send)
    ensures Counts(s.send, Transmit(s, k, env).s.send, 0) && SameAverage(s.send, Transmit(s, k, env).s.send)
    decreases |s.send.log| - s.send.lastSent
  {
    if s.send.lastSent + 1 < Out.NextSequence(s.send) && s.send.lastAvailableSize > 0 && env.link(k) == Delivered {
      TransmitCountsNothing(s.(send := Out.Stamp(s.send, env.clock(k))), k + 1, env);
    }
  }

  lemma RoundOnlyCounts(s: Session, k: nat, env: Env)
    requires Out.Valid(s.send)
    ensures var o, p := s.send, RetransmitRound(s, k, env).s.send;
            Spends(o, p) && SameAverage(o, p) && Out.Valid(p)
  {
    RetransmitRoundKeeps(s, k, env);
    RetransmitKeeps(s, s.send.unacknowledged, env.clock(k), k, env);
  }

  lemma RoundCounts(s: Session, k: nat, env: Env)
    requires Out.Valid(s.send) && s.send.size < 256
    ensures var r := RetransmitRound(s, k, env);
            Counts(s.send, r.s.send, if r.out != [] then 1 else 0)
  {
    RoundsAreBounded(s, k, env);
    RetransmitRoundKeeps(s, k, env);
    RetransmitKeeps(s, s.send.unacknowledged, env.clock(k), k, env);
  }

  lemma SendingCounts(s: Session, k: nat, env: Env)
    requires Out.Valid(s.send)
    ensures var o, p := s.send, UpdateSendWindow(s, k, env).s.send;
            && Spends(o, p) && SameAverage(o, p)
            && (s.send.size < 256 ==> Counts(o, p, if RetransmitRound(s, k, env).out != [] then 1 else 0))
  {
    hide RetransmitRound, Transmit;
    RoundOnlyCounts(s, k, env);
    if s.send.size < 256 {
      RoundCounts(s, k, env);
    }
    var r := RetransmitRound(s, k, env);
    TransmitKeeps(r.s, k + |r.out| + 1, env);
    TransmitCountsNothing(r.s, k + |r.out| + 1, env);
  }

  lemma RestCountsNothing(s: Session)
    ensures var o, p := s.send, UpdateTermination(Resume(s).s).s.send;
            Spends(o, p) && SameAverage(o, p) && Counts(o, p, 0)
  {}

  lemma UpdateCounts(s: Session, env: Env)
    requires Kept(s)
    ensures Windows(s)
    ensures var o, p := s.send, Updated(s, env).send;
            && Spends(o, p) && SameAverage(o, p)
            && (s.send.size < 256 ==> Counts(o, p, if Round(s, env).out != [] then 1 else 0))
  {
    hide UpdateSendWindow, RetransmitRound, Coherent, SendAckMessage, Resume, UpdateTermination;
    KeptWindows(s);
    SendAckKeeps(s, env.link(0));
    var a := UpdateReceiveWindow(s, env.link(0));
    SendingCounts(a.s, 1, env);
    RestCountsNothing(UpdateSendWindow(a.s, 1, env).s);
  }

  lemma UseCounts(s: Session, use: Use)
    requires Windows(s)
    ensures var o, p := s.send, Used(s, use).send;
            Spends(o, p) && SameAverage(o, p) && Counts(o, p, 0)
  {}

  /** One turn that is no acknowledgement counts the timed round it makes, if any, and leaves the average alone. */
  lemma TurnCounts(s: Session, t: Turn)
    requires Kept(s) && !IsAck(t)
    ensures Windows(s)
    ensures var o, p := s.send, Turned(s, t).send;
            && SameAverage(o, p) && (!t.Hears? ==> Spends(o, p))
            && (s.send.size < 256 ==> Counts(o, p, if Retransmits(s, t) then 1 else 0))
  {
    hide Kept, Used, Updated, Round, HandleMessage, Resume, UpdateTermination;
    KeptWindows(s);
    match t {
      case User(use) => UseCounts(s, use);
      case Timer(env) => UpdateCounts(s, env);
      case Rest => RestCountsNothing(s);
      case Hears(f, env) =>
        if Takes(s, f) {
          OthersOnlySetWindow(s, f, env);
        }
    }
  }

  lemma {:induction false} TurnsCount(s: Session, turns: seq<Turn>)
    requires Kept(s) && s.send.size < 256 && forall t :: t in turns ==> !IsAck(t)
    ensures Counts(s.send, Played(s, turns).send, Rounds(s, turns))
    decreases |turns|
  {
    hide Kept, Turned;
    if turns != [] {
      TurnKeeps(s, turns[0]);
      TurnCounts(s, turns[0]);
      TurnsCount(Turned(s, turns[0]), turns[1..]);
    }
  }

  lemma LimitCloses(s: Session, env: Env)
    requires Kept(s) && s.send.size < 256
    requires s.send.retransmitCount == Out.MAX_RETRANSMITS + 1 && s.send.unacknowledged <= s.send.lastSent
    ensures Windows(s) && Updated(s, env).state == Closed
    ensures Round(s, env).out == [] && Round(s, env).s.state == Closed && Round(s, env).s.reason == NotReady
  {
    hide Coherent, RetransmitRound, SendAckMessage, Transmit, Resume;
    KeptWindows(s);
    SendAckKeeps(s, env.link(0));
    var a := UpdateReceiveWindow(s, env.link(0));
    RoundsAreBounded(a.s, 1, env);
    var r := RetransmitRound(a.s, 1, env);
    RetransmitRoundKeeps(a.s, 1, env);
    TransmitKeeps(r.s, 1 + |r.out| + 1, env);
    ClosedRestsIdle(UpdateSendWindow(a.s, 1, env).s);
  }

  lemma ClosedRestsIdle(s: Session)
    requires s.state == Closed
    ensures Resume(s) == Report(s, [], [])
  {}

  /** Between two acks a session retransmits in at most six timed rounds, however often it is updated, whatever its
      users do and whatever else the peer sends; with six on the count and anything unacknowledged, the next update
      closes it. */
  lemma RoundsBetweenAcks(s: Session, turns: seq<Turn>, env: Env)
    requires Kept(s) && s.send.size < 256 && forall t :: t in turns ==> !IsAck(t)
    ensures Rounds(s, turns) + s.send.retransmitCount == Played(s, turns).send.retransmitCount
    ensures Played(s, turns).send.retransmitCount <= Out.MAX_RETRANSMITS + 1
    ensures var t := Played(s, turns);
            && Windows(t)
            && (t.send.retransmitCount == Out.MAX_RETRANSMITS + 1 && t.send.unacknowledged <= t.send.lastSent ==>
                  && Round(t, env).out == [] && Round(t, env).s.state == Closed && Round(t, env).s.reason == NotReady
                  && Updated(t, env).state == Closed)
  {
    hide Coherent, Played, Rounds, Round, Updated;
    TurnsCount(s, turns);
    var t := Played(s, turns);
    KeptWindows(t);
    if t.send.retransmitCount == Out.MAX_RETRANSMITS + 1 && t.send.unacknowledged <= t.send.lastSent {
      LimitCloses(t, env);
    }
  }

  // ------------------------------------------------------------------ the peer's window

  lemma {:induction false} TurnsSpend(s: Session, turns: seq<Turn>)
    requires Kept(s) && forall t :: t in turns ==> !t.Hears?
    ensures Spends(s.send, Played(s, turns).send)
    decreases |turns|
  {
    hide Kept, Turned;
    if turns != [] {
      TurnKeeps(s, turns[0]);
      TurnCounts(s, turns[0]);
      TurnsSpend(Turned(s, turns[0]), turns[1..]);
    }
  }

  /** The peer's window is spent one message at a time: since the last message received, the fresh transmissions and
      what is left of the window make up the window it advertised. */
  lemma WindowIsSpent(s: Session, f: Frame, env: Env, turns: seq<Turn>)
    requires Kept(s) && Takes(s, f) && forall t :: t in turns ==> !t.Hears?
    ensures Windows(s) && Kept(HandleMessage(s, f, env).s)
    ensures var t := HandleMessage(s, f, env).s;
            var u := Played(t, turns);
            t.send.lastSent <= u.send.lastSent
            && (u.send.lastSent - t.send.lastSent) + u.send.lastAvailableSize == f.window
  {
    hide Kept, HandleMessage, Played;
    KeptWindows(s);
    MessageKeepsSession(s, f, env);
    MessageSetsWindow(s, f, env);
    TurnsSpend(HandleMessage(s, f, env).s, turns);
  }

  // ------------------------------------------------------------------ the round trip average

  // The number up to which a message acknowledges.
  function AckedBy(s: Session, f: Frame): Sequence
    requires WellFormed(f)
  {
    if f.kind == SynAck && s.state == SynSent then f.payload.synSequence else f.sequence
  }

  // Does the session take the message for an acknowledgement?
  predicate Acknowledges(s: Session, f: Frame) {
    || (f.kind == Ack && s.state !in {Closed, Listening, SynSent})
    || (f.kind == SynAck && s.state !in {Closed, Listening, SynReceived})
  }

  /** The round trips that an acknowledgement samples lie between the bounds. */
  ghost predicate SamplesWithin(s: Session, t: Turn, low: real, high: real)
    requires Windows(s)
  {
    t.Hears? && Takes(s, t.f) && Acknowledges(s, t.f) && s.send.retransmitCount == 0 ==>
      forall i :: Max(s.send.unacknowledged - 1, 0) <= i < Out.AckLimit(s.send, AckedBy(s, t.f)) ==>
        low <= Out.Elapsed(t.menv.clock(0), s.send.sentAt[i]) as real <= high
  }

  ghost predicate AllSamplesWithin(s: Session, turns: seq<Turn>, low: real, high: real)
    requires Kept(s)
    decreases |turns|
  {
    turns == []
    || (TurnKeeps(s, turns[0]);
        && SamplesWithin(s, turns[0], low, high)
        && AllSamplesWithin(Turned(s, turns[0]), turns[1..], low, high))
  }

  lemma MarkingAverages(s: Session, maxSequence: Sequence, env: Env)
    requires Windows(s)
    ensures MarkMessagesAsAcknowledged(s, maxSequence, env).s.send.roundTripTime
            == Out.Acknowledge(s.send, maxSequence, env.clock(0)).roundTripTime
    ensures Windows(MarkMessagesAsAcknowledged(s, maxSequence, env).s)
  {
    Out.AcknowledgeIsValid(s.send, maxSequence, env.clock(0));
    ShutdownKeeps(s.(send := Out.Acknowledge(s.send, maxSequence, env.clock(0))), Error);
  }

  /** A message changes the average as the acknowledgement in it does, or not at all. */
  lemma MessageAverages(s: Session, f: Frame, env: Env)
    requires Windows(s) && WellFormed(f) && f.kind != Syn
    ensures HandleMessage(s, f, env).s.send.roundTripTime
            == if Acknowledges(s, f) then Out.Acknowledge(s.send, AckedBy(s, f), env.clock(0)).roundTripTime
               else s.send.roundTripTime
  {
    hide MarkMessagesAsAcknowledged, SendAckMessage, Out.Acknowledge;
    if f.kind == Data || f.kind == Fin || f.kind == Rst {
      OthersOnlySetWindow(s, f, env);
    } else {
      ShutdownKeeps(Dispatch(s, f, env).s, Error);
      MarkingAverages(s, AckedBy(s, f), env);
      MarkingAverages(s.(state := Established), f.sequence, env);
      if f.kind == SynAck && s.state == SynSent {
        Effects.AnsweringKeepsSend(Adopt(MarkMessagesAsAcknowledged(s, f.payload.synSequence, env).s, f), env.link(1));
      }
    }
  }

  lemma TurnAverages(s: Session, t: Turn, low: real, high: real)
    requires Kept(s) && low <= s.send.roundTripTime <= high
    ensures Windows(s)
    ensures SamplesWithin(s, t, low, high) ==> low <= Turned(s, t).send.roundTripTime <= high
  {
    hide Kept, HandleMessage, Used, Updated, Resume, UpdateTermination, Out.AverageAfter;
    KeptWindows(s);
    if IsAck(t) {
      if Takes(s, t.f) && SamplesWithin(s, t, low, high) {
        MessageAverages(s, t.f, t.menv);
        if Acknowledges(s, t.f) {
          Out.AverageWithinHull(s.send, Out.AckLimit(s.send, AckedBy(s, t.f)), t.menv.clock(0), low, high);
        }
      }
    } else {
      TurnCounts(s, t);
    }
  }

  /** Whatever a session goes through, its round trip average stays within the hull of what it was and of the
      samples. */
  lemma {:induction false} AverageStaysWithinHull(s: Session, turns: seq<Turn>, low: real, high: real)
    requires Kept(s) && low <= s.send.roundTripTime <= high
    requires AllSamplesWithin(s, turns, low, high)
    ensures low <= Played(s, turns).send.roundTripTime <= high
    decreases |turns|
  {
    hide Kept, Turned, SamplesWithin;
    if turns != [] {
      TurnKeeps(s, turns[0]);
      TurnAverages(s, turns[0], low, high);
      AverageStaysWithinHull(Turned(s, turns[0]), turns[1..], low, high);
    }
  }

  // A session that has just asked, and one that has just been asked.
  function Asking(size: nat, version: Version, protocol: nat, minVersion: Version, maxVersion: Version, id: SessionId)
    : Session
  {
    Connect(New(size).(sessionVersion := version), protocol, minVersion, maxVersion, id).0
  }

  function Asked(size: nat, ownerMin: Version, f: Frame, version: Version, id: SessionId): Session
    requires f.payload.SynInfo?
  {
    HandleSynMessage(BindToServer(New(size), ownerMin, f.payload.clientSessionVersion, version, id).0, f)
  }

  /** The two ways in which sessions come to life. */
  ghost predicate Opened(s: Session) {
    || (exists size: nat, version, protocol, minVersion, maxVersion, id ::
          size > 0 && id != INVALID_SESSION_ID && s == Asking(size, version, protocol, minVersion, maxVersion, id))
    || (exists size: nat, ownerMin, f: Frame, version, id ::
          size > 0 && id != INVALID_SESSION_ID && f.kind == Syn && f.payload.SynInfo?
          && s == Asked(size, ownerMin, f, version, id))
  }

  lemma AskingIsKept(size: nat, version: Version, protocol: nat, minVersion: Version, maxVersion: Version,
                     id: SessionId)
    requires size > 0 && id != INVALID_SESSION_ID
    ensures var s := Asking(size, version, protocol, minVersion, maxVersion, id);
            Kept(s) && s.send == Out.Initial(size).(log := s.send.log)
  {
    ConnectOpens(size, version, protocol, minVersion, maxVersion, id);
  }

  lemma AskedIsKept(size: nat, ownerMin: Version, f: Frame, version: Version, id: SessionId)
    requires size > 0 && id != INVALID_SESSION_ID && f.kind == Syn && f.payload.SynInfo?
    ensures var s := Asked(size, ownerMin, f, version, id);
            Kept(s) && s.send == Out.Initial(size).(log := s.send.log)
  {
    SynOpens(size, ownerMin, f, version, id, Env(_ => Delivered, _ => 0));
  }

  lemma OpenedIsKept(s: Session)
    requires Opened(s)
    ensures Kept(s) && s.send == Out.Initial(s.send.size).(log := s.send.log)
  {
    hide Asking, Asked, Kept;
    if size: nat, version, protocol, minVersion, maxVersion, id :|
      size > 0 && id != INVALID_SESSION_ID && s == Asking(size, version, protocol, minVersion, maxVersion, id)
    {
      AskingIsKept(size, version, protocol, minVersion, maxVersion, id);
    } else {
      var size: nat, ownerMin, f: Frame, version, id :|
        size > 0 && id != INVALID_SESSION_ID && f.kind == Syn && f.payload.SynInfo?
        && s == Asked(size, ownerMin, f, version, id);
      AskedIsKept(size, ownerMin, f, version, id);
    }
  }

  /** Over the whole life of a session, from its opening on, the average stays within the hull of its initial 50 ms and
      of the samples. */
  lemma AverageFromTheStart(s: Session, turns: seq<Turn>, low: real, high: real)
    requires Opened(s) && low <= Out.INITIAL_ROUND_TRIP_TIME <= high
    requires (OpenedIsKept(s); AllSamplesWithin(s, turns, low, high))
    ensures Kept(s) && low <= Played(s, turns).send.roundTripTime <= high
  {
    hide Opened, Kept, Played, AllSamplesWithin;
    OpenedIsKept(s);
    AverageStaysWithinHull(s, turns, low, high);
  }
}
