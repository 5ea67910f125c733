/** A session as a value, and what each of its handlers makes of it: the new session and the frames it transmits. */
module SessionSteps {
  import opened Wire
  import Out = OutgoingStream
  import In = IncomingStream

  datatype State = Closed | Listening | SynSent | SynReceived | Established | FinWait1 | Closing | FinWait2

  // The numeric value of a state; the handlers compare states by it.
  function Rank(s: State): nat {
    match s
    case Closed => 0
    case Listening => 1
    case SynSent => 2
    case SynReceived => 3
    case Established => 4
    case FinWait1 => 5
    case Closing => 6
    case FinWait2 => 7
  }

  /** `owner` is the protocol client or server the session reports to: its minimum version is all a session
      asks of it. */
  datatype Session = Session(
    state: State,
    send: Out.Outgoing,
    recv: In.Incoming,
    sid: SessionId,
    sessionVersion: Version,
    protocolVersion: Version,
    owner: Option<Version>,
    reason: Result)

  datatype Reply = Reply(s: Session, out: seq<Frame>)

  // What the owner is told.
  datatype Callback = SessionEstablished | UpdateSession | SessionTerminated(reason: Result)

  datatype Report = Report(s: Session, out: seq<Frame>, calls: seq<Callback>)

  function New(size: nat): Session {
    Session(Closed, Out.Initial(size), In.Initial(size), INVALID_SESSION_ID, SESSION_PROTOCOL_VERSION, 0, None, Success)
  }

  // ------------------------------------------------------------------ transmitting

  function Shutdown(s: Session, reason: Result): Session {
    var r := s.(reason := reason);
    match s.state
    case Closed => if reason != Success then r.(state := Closed) else r
    case FinWait1 => if reason != Success then r.(state := Closed) else r
    case FinWait2 => if reason != Success then r.(state := Closed) else r
    case Closing => if reason != Success then r.(state := Closed) else r
    case Established => if reason == Success then r.(state := FinWait1) else r.(state := Closed)
    case Listening => r.(state := Closed)
    case SynSent => r.(state := Closed)
    case SynReceived => r.(state := Closed)
  }

  // Spins while the transport is busy; a broken transport closes the session.
  function SendOrClose(s: Session, f: Frame, outcome: Outcome): Reply {
    if outcome != Broken then Reply(s, [f]) else Reply(Shutdown(s, Error), [])
  }

  function SendAckMessage(s: Session, outcome: Outcome): Reply
    requires s.recv.unread <= s.recv.expected && 1 <= s.recv.expected
  {
    var r := s.(recv := In.AcknowledgeAll(s.recv));
    SendOrClose(r, Frame(Ack, r.sid, r.recv.expected - 1, r.recv.availableSize, Empty), outcome)
  }

  // ------------------------------------------------------------------ the two windows

  function MarkMessagesAsAcknowledged(s: Session, maxSequence: Sequence, env: Env): Reply
    requires Out.Valid(s.send)
  {
    var r := s.(send := Out.Acknowledge(s.send, maxSequence, env.clock(0)));
    if Out.Progresses(s.send, maxSequence) || r.send.lastAckCount < Out.FAST_RETRANSMIT_THRESHOLD then Reply(r, [])
    else FastRetransmit(r, env.link(0))
  }

  // One message further with every duplicate ack, with no regard to what was ever sent.
  function FastRetransmit(s: Session, outcome: Outcome): Reply
    requires s.send.size > 0 && s.send.lastAckCount >= Out.FAST_RETRANSMIT_THRESHOLD
  {
    var q := s.send.unacknowledged + (s.send.lastAckCount - Out.FAST_RETRANSMIT_THRESHOLD);
    var sent := SendOrClose(s, Out.SlotFrame(s.send, q, s.recv.availableSize), outcome);
    if outcome != Broken then Reply(sent.s.(send := sent.s.send.(retransmitCount := 0)), sent.out) else sent
  }

  function WriteMessageIntoReceiveWindow(s: Session, f: Frame, outcome: Outcome): Reply
    requires In.Valid(s.recv)
  {
    if f.sequence >= s.recv.expected && PayloadSize(f.payload) <= MAX_PAYLOAD_SIZE_IN_BYTES then
      if f.sequence - s.recv.unread < s.recv.size then
        var r := s.(recv := In.Store(s.recv, f));
        if s.recv.expected > s.recv.lastUnacknowledged
           && r.recv.expected - s.recv.lastUnacknowledged >= In.MAX_UNACKNOWLEDGED_THRESHOLD
        then SendAckMessage(r, outcome)
        else Reply(r, [])
      else Reply(s, [])
    else SendAckMessage(s, outcome)
  }

  // `waits`: the call is allowed to wait and a permit does turn up, if there is one to have.
  function WriteMessageIntoSendWindow(s: Session, kind: Kind, payload: Payload, waits: bool): (Session, Result) {
    if Rank(s.state) >= Rank(FinWait2) then (s, Error)
    else if PayloadSize(payload) > MAX_PAYLOAD_SIZE_IN_BYTES then (s, InsufficientMemory)
    else if !waits || Out.FreeSlots(s.send) <= 0 then (s, NotReady)
    else (s.(send := Out.Append(s.send, Entry(kind, s.sid, payload))), Success)
  }

  // ------------------------------------------------------------------ opening

  function Connect(s: Session, protocol: nat, minVersion: Version, maxVersion: Version, sid: SessionId)
    : (Session, Result)
  {
    if sid == INVALID_SESSION_ID || s.state != Closed then (s, Error)
    else
      var (r, result) := WriteMessageIntoSendWindow(s.(owner := Some(minVersion), sid := sid), Syn,
                                                    SynInfo(protocol, minVersion, maxVersion, s.sessionVersion), true);
      if result == Success then (r.(state := SynSent), result) else (r, result)
  }

  function BindToServer(s: Session, ownerMinVersion: Version, sessionVersion: Version, protocolVersion: Version,
                        sid: SessionId): (Session, Result) {
    if sid == INVALID_SESSION_ID || s.state != Closed then (s, Error)
    else (s.(owner := Some(ownerMinVersion),
             sessionVersion := Min(sessionVersion, SESSION_PROTOCOL_VERSION) as nat,
             protocolVersion := protocolVersion, sid := sid, state := Listening), Success)
  }

  function HandleSynMessage(s: Session, f: Frame): Session {
    var payload := SynAckInfo(f.sequence, f.sid, s.protocolVersion, s.sessionVersion);
    var (r, result) := WriteMessageIntoSendWindow(s, SynAck, payload, true);
    if result == Success then r.(state := SynReceived, recv := In.StartAfter(r.recv, f.sequence))
    else Shutdown(r, Error)
  }

  function WithWindow(s: Session, f: Frame): Session {
    s.(send := s.send.(lastAvailableSize := f.window))
  }

  ghost predicate Windows(s: Session) {
    Out.Valid(s.send) && In.Valid(s.recv)
  }

  /** The client learns its final id, the versions, and where the peer's stream starts. */
  function Adopt(s: Session, f: Frame): Session
    requires f.payload.SynAckInfo?
  {
    var version := if f.payload.version != 0 then f.payload.version
                   else if s.owner.Some? then s.owner.value
                   else s.protocolVersion;
    s.(state := Established, sid := f.sid, sessionVersion := f.payload.sessionVersion, protocolVersion := version,
       recv := In.StartAfter(s.recv, f.sequence))
  }

  function HandleSynAckMessage(s: Session, f: Frame, env: Env): Reply
    requires Windows(s) && f.payload.SynAckInfo?
  {
    match s.state
    case FinWait1 => var r := MarkMessagesAsAcknowledged(s, f.sequence, env); Reply(WithWindow(r.s, f), r.out)
    case FinWait2 => var r := MarkMessagesAsAcknowledged(s, f.sequence, env); Reply(WithWindow(r.s, f), r.out)
    case Closing => var r := MarkMessagesAsAcknowledged(s, f.sequence, env); Reply(WithWindow(r.s, f), r.out)
    case Established => var r := MarkMessagesAsAcknowledged(s, f.sequence, env); Reply(WithWindow(r.s, f), r.out)
    case SynSent =>
      var r := MarkMessagesAsAcknowledged(s, f.payload.synSequence, env);
      var a := SendAckMessage(Adopt(r.s, f), env.link(1));
      Reply(WithWindow(a.s, f), r.out + a.out)
    case Closed => Reply(WithWindow(s, f), [])
    case Listening => Reply(WithWindow(s, f), [])
    case SynReceived => Reply(WithWindow(s, f), [])
  }

  // ------------------------------------------------------------------ running and closing

  function HandleFinMessage(s: Session, f: Frame, env: Env): Reply
    requires Windows(s)
  {
    if Rank(s.state) < Rank(Closing) then
      var r := WriteMessageIntoReceiveWindow(s, f, env.link(0));
      Reply(WithWindow(r.s.(state := Closing, reason := Success), f), r.out)
    else if s.state == FinWait2 then
      var r := WriteMessageIntoReceiveWindow(s, f, env.link(0));
      StaysReadable(s, f, env.link(0));
      var a := SendAckMessage(r.s, env.link(1));
      Reply(WithWindow(a.s.(state := Closed, reason := Success), f), r.out + a.out)
    else Reply(WithWindow(s, f), [])
  }

  // Writing into the receive window keeps it in order.
  lemma StaysReadable(s: Session, f: Frame, outcome: Outcome)
    requires In.Valid(s.recv)
    ensures var r := WriteMessageIntoReceiveWindow(s, f, outcome).s.recv;
            r.unread <= r.expected && 1 <= r.expected
  {}

  function HandleDataMessage(s: Session, f: Frame, env: Env): Reply
    requires Windows(s)
  {
    var r := if s.state == FinWait1 || s.state == FinWait2 || s.state == Established
             then WriteMessageIntoReceiveWindow(s, f, env.link(0)) else Reply(s, []);
    Reply(WithWindow(r.s, f), r.out)
  }

  function HandleAckMessage(s: Session, f: Frame, env: Env): Reply
    requires Windows(s)
  {
    match s.state
    case SynReceived =>
      var r := MarkMessagesAsAcknowledged(s.(state := Established), f.sequence, env);
      Reply(WithWindow(r.s, f), r.out)
    case Established => var r := MarkMessagesAsAcknowledged(s, f.sequence, env); Reply(WithWindow(r.s, f), r.out)
    case FinWait1 => var r := MarkMessagesAsAcknowledged(s, f.sequence, env); Reply(WithWindow(r.s, f), r.out)
    case FinWait2 => var r := MarkMessagesAsAcknowledged(s, f.sequence, env); Reply(WithWindow(r.s, f), r.out)
    case Closing => var r := MarkMessagesAsAcknowledged(s, f.sequence, env); Reply(WithWindow(r.s, f), r.out)
    case Closed => Reply(WithWindow(s, f), [])
    case Listening => Reply(WithWindow(s, f), [])
    case SynSent => Reply(WithWindow(s, f), [])
  }

  function HandleRstMessage(s: Session, f: Frame): Reply {
    Reply(WithWindow(Shutdown(s, ResultOf(f.sequence)), f), [])
  }

  /** A message the session manager may pass on: a session message, and a SynAck with its payload. */
  predicate WellFormed(f: Frame) {
    f.kind != Unknown && (f.kind == SynAck ==> f.payload.SynAckInfo?)
  }

  function Dispatch(s: Session, f: Frame, env: Env): Reply
    requires Windows(s) && WellFormed(f)
  {
    match f.kind
    case Syn => Reply(HandleSynMessage(s, f), [])
    case SynAck => HandleSynAckMessage(s, f, env)
    case Fin => HandleFinMessage(s, f, env)
    case Data => HandleDataMessage(s, f, env)
    case Ack => HandleAckMessage(s, f, env)
    case Rst => HandleRstMessage(s, f)
  }

  // The owner hears of a session that has just become established; without an owner the session closes.
  function HandleMessage(s: Session, f: Frame, env: Env): Report
    requires Windows(s) && WellFormed(f)
  {
    var r := Dispatch(s, f, env);
    if s.state != r.s.state && r.s.state == Established then
      if r.s.owner.Some? then Report(r.s, r.out, [SessionEstablished])
      else Report(Shutdown(r.s, Error), r.out, [])
    else Report(r.s, r.out, [])
  }

  // ------------------------------------------------------------------ the periodic update

  function UpdateReceiveWindow(s: Session, outcome: Outcome): Reply
    requires In.Valid(s.recv)
  {
    if s.recv.expected > s.recv.lastUnacknowledged then SendAckMessage(s, outcome) else Reply(s, [])
  }

  /** Retransmits the due messages from `q` on; `k` transmissions were made before. The first failure closes the
      session. */
  function Retransmit(s: Session, q: Sequence, now: nat, k: nat, env: Env): Reply
    requires s.send.size > 0 && |s.send.sentAt| == s.send.lastSent && 1 <= q
    decreases s.send.lastSent + 1 - q
  {
    if q > s.send.lastSent || !Out.IsDue(s.send, q, now) then Reply(s, [])
    else if env.link(k) == Broken then Reply(Shutdown(s, Error), [])
    else
      var rest := Retransmit(s, q + 1, now, k + 1, env);
      Reply(rest.s, [Out.SlotFrame(s.send, q, s.recv.availableSize)] + rest.out)
  }

  // The number of retransmissions is counted in a byte.
  function CountRound(s: Session, transmissions: nat): Session {
    if transmissions % 256 > 0 then s.(send := s.send.(retransmitCount := s.send.retransmitCount + 1)) else s
  }

  function RetransmitRound(s: Session, k: nat, env: Env): Reply
    requires Out.Valid(s.send)
  {
    if s.send.unacknowledged <= s.send.lastSent then
      if s.send.retransmitCount <= Out.MAX_RETRANSMITS then
        var r := Retransmit(s, s.send.unacknowledged, env.clock(k), k, env);
        Reply(CountRound(r.s, |r.out|), r.out)
      else Reply(Shutdown(s, NotReady), [])
    else Reply(s, [])
  }

  /** Transmits what was never sent, as far as the peer's window allows and the transport takes it. */
  function Transmit(s: Session, k: nat, env: Env): Reply
    requires s.send.size > 0 && s.send.lastSent <= |s.send.log|
    decreases |s.send.log| - s.send.lastSent
  {
    if s.send.lastSent + 1 < Out.NextSequence(s.send) && s.send.lastAvailableSize > 0 then
      match env.link(k)
      case Delivered =>
        var f := Out.SlotFrame(s.send, s.send.lastSent + 1, s.recv.availableSize);
        var rest := Transmit(s.(send := Out.Stamp(s.send, env.clock(k))), k + 1, env);
        Reply(rest.s, [f] + rest.out)
      case Busy => Reply(s, [])
      case Broken => Reply(Shutdown(s, Error), [])
    else Reply(s, [])
  }

  function UpdateSendWindow(s: Session, k: nat, env: Env): Reply
    requires Out.Valid(s.send)
  {
    var r := RetransmitRound(s, k, env);
    RetransmitKeeps(s, s.send.unacknowledged, env.clock(k), k, env);
    var t := Transmit(r.s, k + |r.out| + 1, env);
    Reply(t.s, r.out + t.out)
  }

  // Retransmission changes nothing but, on failure, the state.
  lemma {:induction false} RetransmitKeeps(s: Session, q: Sequence, now: nat, k: nat, env: Env)
    requires s.send.size > 0 && |s.send.sentAt| == s.send.lastSent && 1 <= q
    ensures var r := Retransmit(s, q, now, k, env);
            r.s == s || r.s == Shutdown(s, Error)
    decreases s.send.lastSent + 1 - q
  {
    if !(q > s.send.lastSent || !Out.IsDue(s.send, q, now)) && env.link(k) != Broken {
      RetransmitKeeps(s, q + 1, now, k + 1, env);
    }
  }

  function IsSendWindowEmpty(s: Session): bool {
    s.send.unacknowledged > s.send.lastSent
    && (s.sessionVersion >= SESSION_PROTOCOL_SYNACK_VERSION ==> s.send.lastSent + 1 == Out.NextSequence(s.send))
  }

  function NextIsFin(s: Session): bool {
    s.recv.unread < s.recv.expected && s.recv.unread in s.recv.buffer && s.recv.buffer[s.recv.unread].kind == Fin
  }

  // While the send window is full the Fin of a closing session waits for a permit, and the update with it.
  predicate Blocks(s: Session) {
    s.state == FinWait1 && Out.FreeSlots(s.send) <= 0
  }

  function UpdateTimeout(s: Session): Session {
    var finned :=
      if s.state == FinWait1 then
        var (r, result) := WriteMessageIntoSendWindow(s, Fin, Empty, true);
        if result == Success then r.(state := FinWait2) else r
      else s;
    var drained := if finned.state == FinWait2 && IsSendWindowEmpty(finned) then finned.(state := Closed) else finned;
    if drained.state == Closing && NextIsFin(drained) then drained.(state := Closed) else drained
  }

  /** The update from the timers on, to the end of the owner's turn; while it waits for a permit it gets nowhere. */
  function Resume(s: Session): Report {
    if Blocks(s) then Report(s, [], [])
    else
      var c := UpdateTimeout(s);
      if Rank(c.state) >= Rank(Established) then
        if c.owner.Some? then Report(c, [], [UpdateSession])
        else Report(Shutdown(c, Error), [], [])
      else Report(c, [], [])
  }

  lemma ResumeIsSilent(s: Session)
    ensures Resume(s).out == []
  {}

  /** The update up to and including the owner's turn, or up to where it has to wait. */
  function UpdateWindows(s: Session, env: Env): Report
    requires Windows(s)
  {
    var a := UpdateReceiveWindow(s, env.link(0));
    var b := UpdateSendWindow(a.s, 1, env);
    var c := Resume(b.s);
    Report(c.s, a.out + b.out, c.calls)
  }

  function Orphan(s: Session): Session {
    s.(owner := None)
  }

  /** The rest of the update: the owner of a closed session is told, once, and let go. */
  function UpdateTermination(s: Session): Report {
    if s.state == Closed && s.owner.Some? then Report(Orphan(s), [], [SessionTerminated(s.reason)])
    else Report(s, [], [])
  }

  function CloseIfOwnedBy(s: Session, isOwner: bool): Report {
    if isOwner && s.owner.Some? then Report(Shutdown(Orphan(s), Success), [], [SessionTerminated(EndOfStream)])
    else Report(s, [], [])
  }

  function Close(s: Session, reason: Result): Session {
    Shutdown(Orphan(s), reason)
  }

  // ------------------------------------------------------------------ the reader and the writer

  function Send(s: Session, data: Bytes, waits: bool): (Session, Result) {
    if s.state == Closed then (s, Error) else WriteMessageIntoSendWindow(s, Data, Content(data), waits)
  }

  datatype Received = Got(data: Bytes) | AtEnd | Failed(reason: Result)

  function Receive(s: Session, room: nat): (Session, Received)
    requires In.Valid(s.recv)
  {
    if Rank(s.state) < Rank(Established) then (s, Failed(Error))
    else if s.recv.unread >= s.recv.expected then (s, Failed(NotReady))
    else
      var f := s.recv.buffer[s.recv.unread];
      if PayloadSize(f.payload) > room then (s, Failed(InsufficientMemory))
      else if f.kind == Data then (s.(recv := In.Take(s.recv)), Got(ContentOf(f.payload)))
      else (s.(recv := In.Take(s.recv), state := Closed), AtEnd)
  }
}
