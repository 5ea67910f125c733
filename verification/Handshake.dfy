/** The handshake can succeed: whenever the version ranges allow it, some run establishes both ends. */
module Handshake {
  import opened Wire
  import Out = OutgoingStream
  import opened SessionSteps
  import opened SessionInvariant
  import Effects = SessionEffects
  import opened Versions
  import opened Protocol
  import opened ProtocolSafety

  // A transport that takes everything, at once.
  function Calm(): Env {
    Env(_ => Delivered, _ => 0)
  }

  /** An established session that has sent n messages and had them all acknowledged, with nothing to acknowledge. */
  ghost predicate WriterIdle(s: Session, n: nat) {
    && Coherent(s) && s.state == Established && s.owner.Some?
    && |s.send.log| == n && n >= 1 && s.send.unacknowledged == n + 1 && s.send.lastSent == n
    && s.send.lastAvailableSize >= 1 && s.recv.expected == s.recv.lastUnacknowledged
  }

  /** An established session that has read and acknowledged n messages, with nothing of its own under way. */
  ghost predicate ReaderIdle(s: Session, n: nat) {
    && Coherent(s) && s.state == Established && s.owner.Some?
    && s.send.unacknowledged == s.send.lastSent + 1 == |s.send.log| + 1
    && s.recv.unread == s.recv.expected == s.recv.lastUnacknowledged == n + 1 && s.recv.buffer == map[]
  }

  // A session that has queued its opening message and sent nothing.
  ghost predicate Opening(s: Session, e: Entry) {
    && Coherent(s) && (s.state == SynSent || s.state == SynReceived)
    && s.send.log == [e] && s.send.unacknowledged == 1 && s.send.lastSent == 0 && s.send.lastAvailableSize == 1
    && s.recv.expected == s.recv.lastUnacknowledged
  }

  function AfterOpening(s: Session): Session {
    s.(send := Out.Stamp(s.send, 0))
  }

  /** The first update transmits the opening message, and nothing else. */
  lemma FirstUpdateTransmits(s: Session, e: Entry)
    requires Opening(s, e)
    ensures UpdateWindows(s, Calm()) == Report(AfterOpening(s), [Carry(e, 1, s.recv.availableSize)], [])
  {
    Out.LiveSlotFrame(s.send, 1, s.recv.availableSize);
    var f := Carry(e, 1, s.recv.availableSize);
    assert UpdateReceiveWindow(s, Delivered) == Reply(s, []) && RetransmitRound(s, 1, Calm()) == Reply(s, []);
    assert Transmit(AfterOpening(s), 3, Calm()) == Reply(AfterOpening(s), []);
    assert Transmit(s, 2, Calm()) == Reply(AfterOpening(s), [f] + []);
    assert UpdateSendWindow(s, 1, Calm()) == Reply(AfterOpening(s), [] + ([f] + []));
    assert [] + ([] + ([f] + [])) == [f];
  }

  lemma StartIsOpening(cfg: Config)
    requires Sensible(cfg)
    ensures Opening(Start(cfg).client.s, Request(cfg)) && Start(cfg).client.s.owner == Some(cfg.clientMin)
  {
    ConnectOpens(cfg.size, cfg.clientSessionVersion, cfg.protocol, cfg.clientMin, cfg.clientMax, cfg.connectId);
  }

  lemma AcceptedIsOpening(cfg: Config, f: Frame, id: SessionId)
    requires Sensible(cfg) && id != INVALID_SESSION_ID && f == Carry(Request(cfg), 1, f.window)
    ensures var p := Accepted(cfg, f, id, AgreedVersion(cfg), Calm());
            && Opening(p.s, SynAckEntry(cfg, id)) && p.s.owner == Some(cfg.serverMin) && p.s.send.lastAckCount == 0
            && p.s.state == SynReceived && p.s.sid == id && Pristine(p.s.recv) && p.s.recv.unread == 2
            && p.key == Some(id) && p.calls == [] && p.received == [] && p.accepted == [] && !p.ended
  {
    SynOpens(cfg.size, cfg.serverMin, f, AgreedVersion(cfg), id, Calm());
  }

  /** A waiting client that gets its SynAck over a calm transport is established, and acknowledges it. */
  lemma SynAckEstablishes(s: Session, f: Frame)
    requires Coherent(s) && s.state == SynSent && s.owner.Some? && s.send.lastAckCount == 0
    requires f.kind == SynAck && f.payload.SynAckInfo?
    ensures var r := HandleMessage(s, f, Calm());
            && r.s.state == Established && r.s.sid == f.sid
            && exists g :: g in r.out && g.kind == Ack && g.sid == f.sid && g.sequence == f.sequence
  {
    var m := MarkMessagesAsAcknowledged(s, f.payload.synSequence, Calm());
    var a := SendAckMessage(Adopt(m.s, f), Delivered);
    assert a.out[0].kind == Ack && a.out[0] in m.out + a.out;
  }

  // The client's side of it: then it is idle.
  lemma AnswerLeavesIdle(s: Session, e: Entry, f: Frame)
    requires Opening(s, e) && s.state == SynSent && s.owner.Some? && s.send.lastAckCount == 0
    requires f.kind == SynAck && f.payload.SynAckInfo? && f.payload.synSequence == 1 && f.sequence == 1 && f.window >= 1
    ensures AfterOpening(s).send.size == s.send.size && Coherent(AfterOpening(s))
    ensures var h := HandleMessage(AfterOpening(s), f, Calm());
            && WriterIdle(h.s, 1) && h.s.sid == f.sid && h.s.sessionVersion == f.payload.sessionVersion
            && |h.out| == 1 && h.out[0].kind == Ack && h.out[0].sid == f.sid && h.out[0].sequence == 1
  {
    AfterOpeningIsCoherent(s, e);
    SynAckBinds(AfterOpening(s), f, Calm());
    SynAckEstablishes(AfterOpening(s), f);
    var m := MarkMessagesAsAcknowledged(AfterOpening(s), 1, Calm());
    assert m.out == [] && m.s.send.unacknowledged == 2;
  }

  // The server's side.
  lemma AckLeavesIdle(s: Session, e: Entry, g: Frame)
    requires Opening(s, e) && s.state == SynReceived && s.owner.Some? && s.send.lastAckCount == 0
    requires Pristine(s.recv) && s.recv.unread == 2
    requires g.kind == Ack && g.sequence == 1
    ensures Coherent(AfterOpening(s))
    ensures var h := HandleMessage(AfterOpening(s), g, Calm());
            ReaderIdle(h.s, 1) && h.out == [] && h.s.sid == s.sid
  {
    AfterOpeningIsCoherent(s, e);
    AckEstablishes(AfterOpening(s), g);
    HandleMessageIsReported(AfterOpening(s), g, Calm());
    var m := MarkMessagesAsAcknowledged(AfterOpening(s).(state := Established), 1, Calm());
    assert m.out == [] && m.s.send.unacknowledged == 2;
  }

  /** The ack of its SynAck establishes a server session that has an owner. */
  lemma AckEstablishes(s: Session, f: Frame)
    requires Coherent(s) && s.state == SynReceived && s.owner.Some? && f.kind == Ack
    ensures HandleMessage(s, f, Calm()).s.state == Established
  {
    MarkKeeps(s.(state := Established), f.sequence, Calm(), Some(f));
  }

  // ------------------------------------------------------------------ the run

  function ServerId(cfg: Config): SessionId {
    cfg.connectId + 1
  }

  // The request and the answer, as the two opening updates transmit them.
  function RequestFrame(cfg: Config): Frame {
    Carry(Request(cfg), 1, Start(cfg).client.s.recv.availableSize)
  }

  function ServerPeer(cfg: Config): Peer
    requires Sensible(cfg)
  {
    Accepted(cfg, RequestFrame(cfg), ServerId(cfg), AgreedVersion(cfg), Calm())
  }

  function AnswerFrame(cfg: Config): Frame
    requires Sensible(cfg)
  {
    Carry(SynAckEntry(cfg, ServerId(cfg)), 1, ServerPeer(cfg).s.recv.availableSize)
  }

  function Asked(cfg: Config): System
    requires Sensible(cfg)
  {
    var start := Start(cfg);
    start.(client := start.client.(s := AfterOpening(start.client.s)), toServer := {RequestFrame(cfg)})
  }

  lemma ClientAsks(cfg: Config)
    requires Sensible(cfg)
    ensures AllWindows(Start(cfg)) && Apply(Start(cfg), ClientOp(UpdateOp(Calm()))) == Asked(cfg)
  {
    hide UpdateWindows, Connect, AfterOpening;
    StartIsOpening(cfg);
    FirstUpdateTransmits(Start(cfg).client.s, Request(cfg));
    assert FramesOf([RequestFrame(cfg)]) == {RequestFrame(cfg)};
  }

  function Heard(cfg: Config): System
    requires Sensible(cfg)
  {
    Asked(cfg).(servers := map[ServerId(cfg) := ServerPeer(cfg)])
  }

  ghost predicate Supported(cfg: Config) {
    Sensible(cfg) && Negotiate(cfg.serverMin, cfg.serverMax, Request(cfg).payload).supported
  }

  lemma ServerHears(cfg: Config)
    requires Supported(cfg) && AllWindows(Asked(cfg))
    ensures var a := ToServer(RequestFrame(cfg), Calm(), ServerId(cfg), true, true);
            Enabled(Asked(cfg), a) && Apply(Asked(cfg), a) == Heard(cfg)
  {
    hide Start, AfterOpening, Accepted, Negotiate;
    assert Asked(cfg).cfg == cfg && Asked(cfg).servers == map[] by {
      StartHasConfig(cfg);
      StartIsEmpty(cfg);
    }
  }

  lemma StartIsEmpty(cfg: Config)
    ensures Start(cfg).servers == map[] && Start(cfg).toServer == {} && Start(cfg).toClient == {}
  {}

  function Answered(cfg: Config): System
    requires Sensible(cfg)
  {
    var p := ServerPeer(cfg);
    Heard(cfg).(servers := map[ServerId(cfg) := p.(s := AfterOpening(p.s))], toClient := {AnswerFrame(cfg)})
  }

  lemma ServerAnswers(cfg: Config)
    requires Supported(cfg) && AllWindows(Heard(cfg))
    ensures var a := ServerOp(ServerId(cfg), UpdateOp(Calm()));
            Enabled(Heard(cfg), a) && Apply(Heard(cfg), a) == Answered(cfg)
  {
    hide Start, AfterOpening, Accepted, UpdateWindows;
    AcceptedIsOpening(cfg, RequestFrame(cfg), ServerId(cfg));
    FirstUpdateTransmits(ServerPeer(cfg).s, SynAckEntry(cfg, ServerId(cfg)));
    StartIsEmpty(cfg);
    StartHasConfig(cfg);
    assert FramesOf([AnswerFrame(cfg)]) == {AnswerFrame(cfg)};
    var p := ServerPeer(cfg);
    assert Told(p, Report(AfterOpening(p.s), [AnswerFrame(cfg)], [])) == p.(s := AfterOpening(p.s));
    assert Heard(cfg).servers[ServerId(cfg) := p.(s := AfterOpening(p.s))] == Answered(cfg).servers;
  }

  lemma AfterOpeningIsCoherent(s: Session, e: Entry)
    requires Opening(s, e)
    ensures Coherent(AfterOpening(s)) && AfterOpening(s).state == s.state && AfterOpening(s).owner == s.owner
    ensures AfterOpening(s).send.lastAckCount == s.send.lastAckCount
  {}

  lemma StartIsPending(cfg: Config)
    requires Sensible(cfg)
    ensures var c := Start(cfg).client;
            && c.key == Some(cfg.connectId) && c.s.state == SynSent && c.s.send.lastAckCount == 0
            && c.accepted == [] && c.received == [] && !c.ended
  {}

  /** Both ends are idle and bound to each other, and all that was said so far - `said`, by the client - has
      been read. */
  ghost predicate Settled(cfg: Config, sys: System, said: seq<Bytes>) {
    var c, id := sys.client, ServerId(cfg);
    && sys.cfg == cfg && id in sys.servers
    && var p := sys.servers[id];
    && c.s.sid == id && c.key == Some(id) && WriterIdle(c.s, |said| + 1) && c.accepted == said
    && c.s.sessionVersion == AgreedSessionVersion(cfg)
    && p.s.sid == id && p.key == Some(id) && ReaderIdle(p.s, |said| + 1) && p.received == said && !p.ended
  }

  // The client's half of being settled, before the server has heard its ack.
  ghost predicate ClientSettled(cfg: Config, c: Peer) {
    && c.s.sid == ServerId(cfg) && c.key == Some(ServerId(cfg)) && WriterIdle(c.s, 1)
    && c.accepted == [] && c.received == [] && !c.ended && c.s.sessionVersion == AgreedSessionVersion(cfg)
  }

  // The answer binds the client, and its ack is on the wire.
  lemma ClientIsBound(cfg: Config)
    requires Supported(cfg) && AllWindows(Answered(cfg))
    ensures var a := ToClient(AnswerFrame(cfg), Calm(), true);
            && Enabled(Answered(cfg), a)
            && var sys := Apply(Answered(cfg), a);
            && ClientSettled(cfg, sys.client) && sys.servers == Answered(cfg).servers
            && exists g :: g in sys.toServer && g.kind == Ack && g.sid == ServerId(cfg) && g.sequence == 1
  {
    hide Start, AfterOpening, Accepted, HandleMessage, Opening, Coherent, Negotiate, WriterIdle;
    StartIsOpening(cfg);
    StartIsPending(cfg);
    AcceptedIsOpening(cfg, RequestFrame(cfg), ServerId(cfg));
    var c, f := Answered(cfg).client, AnswerFrame(cfg);
    AnswerHasWindow(ServerPeer(cfg).s);
    AnswerLeavesIdle(Start(cfg).client.s, Request(cfg), f);
    var g := HandleMessage(c.s, f, Calm()).out[0];
    assert g in FramesOf(HandleMessage(c.s, f, Calm()).out);
  }

  lemma AnswerHasWindow(s: Session)
    requires exists e :: Opening(s, e)
    ensures s.recv.availableSize >= 1
  {}

  // That ack establishes the server session.
  lemma ServerIsEstablished(cfg: Config, sys: System, g: Frame)
    requires Supported(cfg) && AllWindows(sys) && sys.servers == Answered(cfg).servers && sys.cfg == cfg
    requires g in sys.toServer && g.kind == Ack && g.sid == ServerId(cfg) && g.sequence == 1
    requires ClientSettled(cfg, sys.client)
    ensures var a := ToServer(g, Calm(), ServerId(cfg) + 1, true, true);
            Enabled(sys, a) && Settled(cfg, Apply(sys, a), [])
  {
    hide Start, AfterOpening, Accepted, HandleMessage, Opening, Coherent, Negotiate, WriterIdle, ReaderIdle;
    AcceptedIsOpening(cfg, RequestFrame(cfg), ServerId(cfg));
    var p := ServerPeer(cfg);
    AckLeavesIdle(p.s, SynAckEntry(cfg, ServerId(cfg)), g);
    AfterOpeningKeepsState(p.s);
  }

  lemma AfterOpeningKeepsState(s: Session)
    ensures AfterOpening(s).state == s.state && AfterOpening(s).sid == s.sid
  {}

  lemma ReachedHasWindows(cfg: Config, run: seq<Action>, sys: System)
    requires Sensible(cfg) && Reached(cfg, run, sys)
    ensures AllWindows(sys) && sys.cfg == cfg
  {
    hide Inv;
    RunsKeepInv(cfg, run, sys);
    InvHasWindows(sys);
  }

  lemma OneMore(cfg: Config, run: seq<Action>, sys: System, a: Action)
    requires Sensible(cfg) && Reached(cfg, run, sys) && Enabled(sys, a)
    ensures AllWindows(sys) && AllWindows(Apply(sys, a)) && Apply(sys, a).cfg == cfg
    ensures Reached(cfg, run + [a], Apply(sys, a))
  {
    hide Reached, AllWindows, Enabled, Apply;
    ReachedHasWindows(cfg, run, sys);
    RunsExtend(cfg, run, sys, a);
    ReachedHasWindows(cfg, run + [a], Apply(sys, a));
  }

  // The run of a handshake without a hitch.
  lemma HandshakeSettles(cfg: Config) returns (run: seq<Action>, sys: System)
    requires Supported(cfg)
    ensures Reached(cfg, run, sys) && Settled(cfg, sys, [])
  {
    hide Start, AfterOpening, Accepted, HandleMessage, Reached, AllWindows, Asked, Heard, Answered, Apply, Enabled,
         Negotiate, AnswerFrame, RequestFrame, Settled, ClientSettled;
    ClientAsks(cfg);
    EverySystemMayUpdateItsClient(Start(cfg));
    RunsExtend(cfg, [], Start(cfg), ClientOp(UpdateOp(Calm())));
    var asks := [ClientOp(UpdateOp(Calm()))];
    assert [] + asks == asks;
    OneMore(cfg, [], Start(cfg), asks[0]);
    var hears := ToServer(RequestFrame(cfg), Calm(), ServerId(cfg), true, true);
    ServerHears(cfg);
    OneMore(cfg, asks, Asked(cfg), hears);
    var answers := ServerOp(ServerId(cfg), UpdateOp(Calm()));
    ServerAnswers(cfg);
    OneMore(cfg, asks + [hears], Heard(cfg), answers);
    var binds := ToClient(AnswerFrame(cfg), Calm(), true);
    ClientIsBound(cfg);
    OneMore(cfg, asks + [hears] + [answers], Answered(cfg), binds);
    var bound := Apply(Answered(cfg), binds);
    var g :| g in bound.toServer && g.kind == Ack && g.sid == ServerId(cfg) && g.sequence == 1;
    var establishes := ToServer(g, Calm(), ServerId(cfg) + 1, true, true);
    ServerIsEstablished(cfg, bound, g);
    OneMore(cfg, asks + [hears] + [answers] + [binds], bound, establishes);
    run := asks + [hears] + [answers] + [binds] + [establishes];
    sys := Apply(bound, establishes);
  }

  /** Whenever the client's range has a version that the server supports, some run leaves both ends established, with
      the client bound to that server session: what the theorems say of established ends is not said of nothing. */
  lemma HandshakeCanSucceed(cfg: Config)
    requires Supported(cfg)
    ensures exists run, sys ::
              && Reached(cfg, run, sys) && sys.client.s.state == Established
              && sys.client.s.sid in sys.servers && sys.servers[sys.client.s.sid].s.state == Established
  {
    hide Reached, Coherent;
    var run, sys := HandshakeSettles(cfg);
  }

  /** A request that is refused fails with the reason of the refusal, and its owner is told. */
  lemma RefusalsAreHeard(s: Session, reason: Result, version: Version, env: Env)
    requires Coherent(s) && s.state == SynSent && s.owner.Some? && reason != Success
    requires reason.Other? ==> 8 < reason.code < 0x1_0000_0000
    ensures var h := HandleMessage(s, Reset(s.sid, reason, version), env);
            && h.s.state == Closed && h.s.reason == reason && h.out == []
            && UpdateTermination(h.s).calls == [SessionTerminated(reason)] && UpdateTermination(h.s).s.owner == None
  {
    Effects.ResetsEnd(s, Reset(s.sid, reason, version), env, reason);
  }

  lemma EverySystemMayUpdateItsClient(sys: System)
    ensures Enabled(sys, ClientOp(UpdateOp(Calm())))
  {}
}
