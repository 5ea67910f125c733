/** What the session protocol promises, for every run of the system. */
module SessionTheorems {
  import opened Wire
  import Out = OutgoingStream
  import opened SessionSteps
  import opened SessionInvariant
  import opened Versions
  import opened Protocol
  import opened ProtocolSafety

  // ------------------------------------------------------------------ streams

  /** In order, without loss in the middle, without duplicates: what `Receive` has returned at one end is a prefix of
      what `Send` has accepted at the other, whatever the network did. */
  lemma StreamsArePrefixes(cfg: Config, run: seq<Action>, sys: System)
    requires Sensible(cfg) && Reached(cfg, run, sys)
    ensures forall id :: id in sys.servers ==> sys.servers[id].received <= sys.client.accepted
    ensures if sys.client.s.sid == cfg.connectId then sys.client.received == []
            else sys.client.s.sid in sys.servers && sys.client.received <= sys.servers[sys.client.s.sid].accepted
  {
    hide Reached, Coherent;
    RunsKeepInv(cfg, run, sys);
    forall id | id in sys.servers ensures sys.servers[id].received <= sys.client.accepted {
      FollowersReadPrefixes(sys.servers[id], sys.client);
    }
    if sys.client.s.sid != cfg.connectId {
      var p := sys.servers[sys.client.s.sid];
      assert PairOk(cfg, sys.client, sys.client.s.sid, p);
      FollowersReadPrefixes(sys.client, p);
    }
  }

  lemma FollowersReadPrefixes(dst: Peer, src: Peer)
    requires Follows(dst, src) && PeerOk(src)
    ensures dst.received <= src.accepted
  {
    SequencedPrefix(src.s.send.log, dst.s.recv.unread - 1);
  }

  /** The end of the stream is the end: once `Receive` has reported it, or while the Fin is the next message to be
      read, everything the other end ever sequenced has been returned, and its Fin is the last thing in its log. */
  lemma EndOfStreamIsComplete(cfg: Config, run: seq<Action>, sys: System, id: SessionId)
    requires Sensible(cfg) && Reached(cfg, run, sys) && id in sys.servers
    ensures sys.servers[id].ended || NextIsFin(sys.servers[id].s) ==>
              && sys.servers[id].received == sys.client.accepted
              && HasFin(sys.client.s.send.log) && (sys.client.s.state == FinWait2 || sys.client.s.state == Closed)
    ensures sys.client.s.sid == id && (sys.client.ended || NextIsFin(sys.client.s)) ==>
              && sys.client.received == sys.servers[id].accepted
              && HasFin(sys.servers[id].s.send.log)
              && (sys.servers[id].s.state == FinWait2 || sys.servers[id].s.state == Closed)
  {
    hide Reached;
    RunsKeepInv(cfg, run, sys);
    assert ServerOk(cfg, id, sys.servers[id]) && PairOk(cfg, sys.client, id, sys.servers[id]);
    FinIsLast(sys.servers[id], sys.client);
    if sys.client.s.sid == id {
      FinIsLast(sys.client, sys.servers[id]);
    }
  }

  lemma FinIsLast(dst: Peer, src: Peer)
    requires PeerOk(dst) && PeerOk(src) && Follows(dst, src)
    ensures dst.ended || NextIsFin(dst.s) ==>
              && dst.received == src.accepted && HasFin(src.s.send.log)
              && (src.s.state == FinWait2 || src.s.state == Closed)
  {
    hide CallsOk;
    var log, n := src.s.send.log, dst.s.recv.unread;
    if dst.ended {
      assert log[..n - 1] == log;
    } else if NextIsFin(dst.s) {
      assert Out.Logged(src.s.send, dst.s.recv.buffer[n]);
      assert log == log[..n - 1] + [log[n - 1]];
      SequencedAppend(log[..n - 1], log[n - 1]);
    }
  }

  /** Whatever is on a wire, however old or often resent, carries the message its sender logged under that number; or
      it is a control message without content, or the blank slot of a fast retransmission. */
  lemma FramesCarryWhatWasLogged(cfg: Config, run: seq<Action>, sys: System, f: Frame)
    requires Sensible(cfg) && Reached(cfg, run, sys)
    requires f.kind == Syn || f.kind == SynAck || f.kind == Data || f.kind == Fin
    ensures f in sys.toServer ==> f.kind != SynAck && Out.Logged(sys.client.s.send, f)
    ensures f in sys.toClient ==> f.kind != Syn && f.sid in sys.servers && Out.Logged(sys.servers[f.sid].s.send, f)
  {
    hide Reached, Coherent, Follows, ClientOk, ServersOk;
    RunsKeepInv(cfg, run, sys);
    if f in sys.toServer {
      assert FromClient(cfg, sys.client, f);
      ClientSendsNoAnswers(cfg, sys.client, f);
    }
    if f in sys.toClient {
      assert FromServers(sys.servers, f);
      ServersSendNoRequests(cfg, sys, f);
    }
  }

  lemma ClientSendsNoAnswers(cfg: Config, c: Peer, f: Frame)
    requires ClientOk(cfg, c) && Out.Logged(c.s.send, f)
    ensures f.kind != SynAck
  {
    hide Sequenced, CallsOk;
    LoggedKinds(c, f);
  }

  lemma ServersSendNoRequests(cfg: Config, sys: System, f: Frame)
    requires ServersOk(cfg, sys.client, sys.servers) && f.sid in sys.servers && Out.Logged(sys.servers[f.sid].s.send, f)
    ensures f.kind != Syn
  {
    hide Sequenced, CallsOk, PairOk;
    assert ServerOk(cfg, f.sid, sys.servers[f.sid]);
    LoggedKinds(sys.servers[f.sid], f);
  }

  // ------------------------------------------------------------------ acknowledgements

  /** Acks are sound: neither end takes for acknowledged what the other has not accepted in sequence. */
  lemma AcksAreSound(cfg: Config, run: seq<Action>, sys: System)
    requires Sensible(cfg) && Reached(cfg, run, sys)
    ensures sys.client.s.sid != cfg.connectId ==>
              && sys.client.s.sid in sys.servers
              && sys.client.s.send.unacknowledged <= sys.servers[sys.client.s.sid].s.recv.expected
    ensures sys.client.s.sid == cfg.connectId ==> sys.client.s.send.unacknowledged == 1
    ensures forall id :: id in sys.servers ==>
              sys.servers[id].s.send.unacknowledged <= if id == sys.client.s.sid then sys.client.s.recv.expected else 1
  {
    hide Reached, Coherent, Follows;
    RunsKeepInv(cfg, run, sys);
    forall id | id in sys.servers
      ensures sys.servers[id].s.send.unacknowledged <= if id == sys.client.s.sid then sys.client.s.recv.expected else 1
    {
      assert PairOk(cfg, sys.client, id, sys.servers[id]);
    }
  }

  // The update's timer closes a session that waits for its last acks: the drain path.
  ghost predicate Drains(s: Session, env: Env)
    requires Windows(s)
  {
    && s.state == FinWait2
    && SendingPart(s, env).state == FinWait2
    && UpdateTimeout(SendingPart(s, env)).state == Closed
  }

  function SendingPart(s: Session, env: Env): Session
    requires Windows(s)
  {
    UpdateSendWindow(UpdateReceiveWindow(s, env.link(0)).s, 1, env).s
  }

  /** The drain path is taken only when nothing sequenced is left unacknowledged. */
  lemma DrainedMeansAcknowledged(s: Session, env: Env)
    requires Coherent(s) && s.sessionVersion >= SESSION_PROTOCOL_SYNACK_VERSION && Drains(s, env)
    ensures s.send.unacknowledged == Out.NextSequence(s.send) && HasFin(s.send.log)
  {
    hide UpdateSendWindow, Evolves, LogShape;
    SendAckKeeps(s, env.link(0));
    UpdateSendWindowKeeps(UpdateReceiveWindow(s, env.link(0)).s, 1, env);
  }

  /** A graceful close is graceful: a session of at least the SynAck version that closes through the drain path has had
      everything it sequenced, Fin included, accepted by its peer. */
  lemma GracefulCloseDelivers(cfg: Config, run: seq<Action>, sys: System, env: Env)
    requires Sensible(cfg) && Reached(cfg, run, sys) && cfg.clientSessionVersion >= SESSION_PROTOCOL_SYNACK_VERSION
    requires sys.client.s.sid != cfg.connectId
    ensures sys.client.s.sid in sys.servers && AllWindows(sys)
    ensures var p := sys.servers[sys.client.s.sid];
            && (Drains(sys.client.s, env) ==>
                  p.s.recv.expected == Out.NextSequence(sys.client.s.send) && HasFin(sys.client.s.send.log))
            && (Drains(p.s, env) ==>
                  sys.client.s.recv.expected == Out.NextSequence(p.s.send) && HasFin(p.s.send.log))
  {
    hide Reached, Drains, CallsOk, Sequenced;
    RunsKeepInv(cfg, run, sys);
    InvHasWindows(sys);
    AcksAreSound(cfg, run, sys);
    var c, p := sys.client, sys.servers[sys.client.s.sid];
    assert ServerOk(cfg, c.s.sid, p) && PairOk(cfg, c, c.s.sid, p);
    ExpectsNoMoreThanLogged(c, p);
    ExpectsNoMoreThanLogged(p, c);
    if Drains(c.s, env) {
      DrainedMeansAcknowledged(c.s, env);
    }
    if Drains(p.s, env) {
      DrainedMeansAcknowledged(p.s, env);
    }
  }

  lemma ExpectsNoMoreThanLogged(dst: Peer, src: Peer)
    requires Follows(dst, src) && PeerOk(dst)
    ensures dst.s.recv.expected <= Out.NextSequence(src.s.send)
  {
    if dst.s.recv.expected > dst.s.recv.unread {
      var q := dst.s.recv.expected - 1;
      assert q in dst.s.recv.buffer && Out.Logged(src.s.send, dst.s.recv.buffer[q]);
    }
  }

  // ------------------------------------------------------------------ the handshake

  /** Whatever requests were duplicated or answered twice: only the server session the client is bound to was ever
      established, and only it has ever been sent anything but resets. */
  lemma SingleEstablishment(cfg: Config, run: seq<Action>, sys: System, id: SessionId)
    requires Sensible(cfg) && Reached(cfg, run, sys) && id in sys.servers
    requires Rank(sys.servers[id].s.state) >= Rank(Established) || SessionEstablished in sys.servers[id].calls
             || sys.servers[id].received != [] || sys.servers[id].s.recv.expected > 2
    ensures id == sys.client.s.sid
  {
    hide Reached, Coherent, Follows;
    RunsKeepInv(cfg, run, sys);
    assert PairOk(cfg, sys.client, id, sys.servers[id]);
  }

  /** A SynAck of any other server session is answered with a reset, and the bound client is left alone. */
  lemma LateSynAckIsReset(cfg: Config, run: seq<Action>, sys: System, f: Frame, env: Env, active: bool)
    requires Sensible(cfg) && Reached(cfg, run, sys)
    requires f in sys.toClient && f.kind == SynAck
    requires sys.client.s.sid != cfg.connectId && f.sid != sys.client.s.sid
    ensures AllWindows(sys)
    ensures DeliverToClient(sys, f, env, active) == sys.(toServer := sys.toServer + {Reset(f.sid, Unavailable, 0)})
  {
    hide Reached, Coherent, PeerOk, ServersOk, FromClient;
    RunsKeepInv(cfg, run, sys);
    InvHasWindows(sys);
    SynAckOnTheWire(sys, f);
  }

  /** Both ends agree: once both are established they hold the same versions - the best common protocol version, and
      the lower of the two session versions. */
  lemma VersionsAgree(cfg: Config, run: seq<Action>, sys: System)
    requires Sensible(cfg) && Reached(cfg, run, sys)
    requires sys.client.s.sid in sys.servers
    requires Rank(sys.client.s.state) >= Rank(Established)
    requires Rank(sys.servers[sys.client.s.sid].s.state) >= Rank(Established)
    ensures var c, p := sys.client.s, sys.servers[sys.client.s.sid].s;
            && c.protocolVersion == p.protocolVersion
            && c.sessionVersion == p.sessionVersion == Min(cfg.clientSessionVersion, SESSION_PROTOCOL_VERSION)
            && (cfg.serverMin <= cfg.serverMax ==>
                  IsBestAnswer(Answer(true, c.protocolVersion), cfg.serverMin, cfg.serverMax, cfg.clientMin,
                               RequestedMax(cfg.clientSessionVersion, cfg.clientMin, cfg.clientMax)))
  {
    hide Reached, Coherent, Follows, PeerOk;
    RunsKeepInv(cfg, run, sys);
    var p := sys.servers[sys.client.s.sid];
    assert ServerOk(cfg, sys.client.s.sid, p) && PairOk(cfg, sys.client, sys.client.s.sid, p);
    DecisionIsBestAnswer(cfg.serverMin, cfg.serverMax, cfg.clientMin,
                         RequestedMax(cfg.clientSessionVersion, cfg.clientMin, cfg.clientMax));
  }

  /** A server session exists only for a request whose range overlaps the server's. */
  lemma SessionsNeedAnOverlap(cfg: Config, run: seq<Action>, sys: System)
    requires Sensible(cfg) && Reached(cfg, run, sys) && cfg.serverMin <= cfg.serverMax
    requires sys.servers != map[]
    ensures exists v: Version :: InBoth(v, cfg.serverMin, cfg.serverMax, cfg.clientMin,
                                        RequestedMax(cfg.clientSessionVersion, cfg.clientMin, cfg.clientMax))
  {
    hide Reached, Coherent, Follows, PeerOk;
    RunsKeepInv(cfg, run, sys);
    var id :| id in sys.servers;
    assert ServerOk(cfg, id, sys.servers[id]);
    DecisionIsBestAnswer(cfg.serverMin, cfg.serverMax, cfg.clientMin,
                         RequestedMax(cfg.clientSessionVersion, cfg.clientMin, cfg.clientMax));
    assert InBoth(AgreedVersion(cfg), cfg.serverMin, cfg.serverMax, cfg.clientMin,
                  RequestedMax(cfg.clientSessionVersion, cfg.clientMin, cfg.clientMax));
  }

  // ------------------------------------------------------------------ the life of a session

  /** What time does to an end: its state only climbs until it is closed for good, and nothing it accepted, returned
      or reported is taken back. */
  ghost predicate Later(p: Peer, q: Peer) {
    && (q.s.state == p.s.state || q.s.state == Closed || (p.s.state != Closed && Rank(p.s.state) < Rank(q.s.state)))
    && p.s.send.log <= q.s.send.log && p.calls <= q.calls
    && p.accepted <= q.accepted && p.received <= q.received && (p.ended ==> q.ended)
  }

  lemma OpIsLater(p: Peer, op: Op)
    requires PeerOk(p) && p.s.state != Listening
    ensures Later(p, PeerStep(p, op).p)
  {
    hide UpdateWindows, Sequenced, CallsOk, LogShape;
    if op.SendOp? {
      SendWrites(p, op.data, op.waits);
    } else if op.ReceiveOp? {
      ReceiveReads(p, op.room);
    } else {
      QuietOp(p, op);
    }
  }

  lemma MessageIsLater(p: Peer, f: Frame, env: Env)
    requires PeerOk(p) && WellFormed(f) && f.kind != Syn && p.s.state != Listening
    requires f.kind == SynAck || p.s.state != Closed
    requires f.kind == SynAck && p.s.state == SynSent ==> f.payload.SynAckInfo?
    ensures Later(p, Told(p, HandleMessage(p.s, f, env)))
  {
    hide HandleMessage, Sequenced, CallsOk, LogShape;
    if f.kind == SynAck && p.s.state == SynSent {
      SynAckBinds(p.s, f, env);
    } else {
      HandleMessageIsReported(p.s, f, env);
      ReportIsQuiet(p, Some(f), HandleMessage(p.s, f, env));
    }
  }

  lemma DeliveryIsLater(sys: System, f: Frame, env: Env, active: bool)
    requires Inv(sys) && AllWindows(sys) && f in sys.toClient
    ensures Later(sys.client, DeliverToClient(sys, f, env, active).client)
  {
    hide HandleMessage, ServersOk, FromClient, FromServers, PeerOk, Later;
    LaterReflexive(sys.client);
    if WellFormed(f) && f.kind != Syn && (f.kind == SynAck || sys.client.s.state != Closed) {
      MessageIsLater(sys.client, f, env);
      LaterIgnoresKey(sys.client, Told(sys.client, HandleMessage(sys.client.s, f, env)), Some(f.sid));
    }
  }

  lemma LaterReflexive(p: Peer)
    ensures Later(p, p)
  {}

  lemma LaterIgnoresKey(p: Peer, q: Peer, key: Option<SessionId>)
    requires Later(p, q)
    ensures Later(p, q.(key := key))
  {}

  // All ends of `next` are later than those of `sys`; a client that is bound stays bound to the same session.
  ghost predicate Forward(sys: System, next: System) {
    && Later(sys.client, next.client)
    && (Bound(sys.cfg, sys.client) ==> next.client.s.sid == sys.client.s.sid)
    && forall id :: id in sys.servers ==> id in next.servers && Later(sys.servers[id], next.servers[id])
  }

  lemma ServersOnlyForward(sys: System, next: System, id: SessionId)
    requires id in next.servers && next.client == sys.client && next.servers == sys.servers[id := next.servers[id]]
    requires id in sys.servers ==> Later(sys.servers[id], next.servers[id])
    ensures Forward(sys, next)
  {
    hide Later;
    LaterReflexive(sys.client);
    forall k | k in sys.servers ensures Later(sys.servers[k], next.servers[k]) {
      LaterReflexive(sys.servers[k]);
    }
  }

  lemma ClientOnlyForward(sys: System, next: System)
    requires next.servers == sys.servers && Later(sys.client, next.client)
    requires Bound(sys.cfg, sys.client) ==> next.client.s.sid == sys.client.s.sid
    ensures Forward(sys, next)
  {
    hide Later;
    forall k | k in sys.servers ensures Later(sys.servers[k], next.servers[k]) {
      LaterReflexive(sys.servers[k]);
    }
  }

  lemma ToServerGoesForward(sys: System, f: Frame, env: Env, newId: SessionId, serving: bool, accepts: bool)
    requires Inv(sys) && AllWindows(sys) && Enabled(sys, ToServer(f, env, newId, serving, accepts))
    ensures Forward(sys, DeliverToServer(sys, f, env, newId, serving, accepts))
  {
    hide Later, HandleMessage, PeerOk, FromClient, FromServers, PairOk, Accepted, Forward, ClientOk;
    var next := DeliverToServer(sys, f, env, newId, serving, accepts);
    LaterReflexive(sys.client);
    if next.servers == sys.servers {
      ClientOnlyForward(sys, next);
    } else if f.kind == Syn {
      ServersOnlyForward(sys, next, newId);
    } else {
      var p := sys.servers[f.sid];
      assert ServerOk(sys.cfg, f.sid, p);
      MessageIsLater(p, f, env);
      ServersOnlyForward(sys, next, f.sid);
    }
  }

  lemma StepGoesForward(sys: System, a: Action)
    requires Inv(sys) && Enabled(sys, a)
    ensures AllWindows(sys) && Forward(sys, Apply(sys, a))
  {
    hide Later, HandleMessage, PeerOk, FromClient, FromServers, PairOk, PeerStep, DeliverToServer,
         DeliverToClient, Forward;
    InvHasWindows(sys);
    match a {
      case ClientOp(op) =>
        OpIsLater(sys.client, op);
        ClientOpKeepsId(sys, op);
        ClientOnlyForward(sys, Apply(sys, a));
      case ServerOp(id, op) =>
        assert ServerOk(sys.cfg, id, sys.servers[id]);
        OpIsLater(sys.servers[id], op);
        ServersOnlyForward(sys, Apply(sys, a), id);
      case ToClient(f, env, active) =>
        DeliveryIsLater(sys, f, env, active);
        DeliveryKeepsId(sys, f, env, active);
        ServersUntouched(sys, f, env, active);
        ClientOnlyForward(sys, Apply(sys, a));
      case ToServer(g, env, newId, serving, accepts) =>
        ToServerGoesForward(sys, g, env, newId, serving, accepts);
    }
  }

  /** Every step of every run moves every session forward only; the filter on open sessions keeps closed ones closed. */
  lemma StepsGoForward(cfg: Config, run: seq<Action>, sys: System, a: Action)
    requires Sensible(cfg) && Reached(cfg, run, sys) && Enabled(sys, a)
    ensures AllWindows(sys) && Forward(sys, Apply(sys, a))
  {
    hide Reached, Inv, Forward, Apply, Enabled;
    RunsKeepInv(cfg, run, sys);
    StepGoesForward(sys, a);
  }

  lemma ForwardTwice(a: System, b: System, c: System)
    requires a.cfg == b.cfg && Forward(a, b) && Forward(b, c)
    ensures Forward(a, c)
  {
    hide Later;
    LaterTwice(a.client, b.client, c.client);
    forall id | id in a.servers ensures id in c.servers && Later(a.servers[id], c.servers[id]) {
      LaterTwice(a.servers[id], b.servers[id], c.servers[id]);
    }
  }

  lemma LaterTwice(p: Peer, q: Peer, r: Peer)
    requires Later(p, q) && Later(q, r)
    ensures Later(p, r)
  {}

  lemma ForwardReflexive(sys: System)
    ensures Forward(sys, sys)
  {
    hide Later;
    LaterReflexive(sys.client);
    forall id | id in sys.servers ensures Later(sys.servers[id], sys.servers[id]) {
      LaterReflexive(sys.servers[id]);
    }
  }

  /** So does every stretch of every run. */
  lemma {:induction false} RunsGoForward(cfg: Config, run: seq<Action>, states: seq<System>, i: nat, j: nat)
    requires Sensible(cfg) && IsRun(cfg, run, states) && i <= j <= |run|
    ensures Forward(states[i], states[j])
    decreases j
  {
    hide Forward, Inv, Apply, Start, Enabled;
    if i == j {
      ForwardReflexive(states[i]);
    } else {
      RunsGoForward(cfg, run, states, i, j - 1);
      StatesKeepInv(cfg, run, states, i);
      StatesKeepInv(cfg, run, states, j - 1);
      assert StateAt(cfg, run, states, j);
      StepGoesForward(states[j - 1], run[j - 1]);
      ForwardTwice(states[i], states[j - 1], states[j]);
    }
  }

  // Nothing follows a Fin.
  lemma FinEndsTheLog(p: Peer, q: Peer)
    requires Later(p, q) && PeerOk(p) && PeerOk(q) && HasFin(p.s.send.log)
    ensures q.s.send.log == p.s.send.log && q.accepted == p.accepted
  {
    hide Sequenced, CallsOk;
    var log, longer := p.s.send.log, q.s.send.log;
    assert longer[|log| - 1].kind == Fin;
  }

  // What a reader that saw the end has returned is all there will ever be.
  lemma EndIsFinal(dst: Peer, src: Peer, dst2: Peer, src2: Peer)
    requires PeerOk(dst) && PeerOk(src) && Follows(dst, src) && (dst.ended || NextIsFin(dst.s))
    requires PeerOk(dst2) && PeerOk(src2) && Follows(dst2, src2) && Later(dst, dst2) && Later(src, src2)
    ensures src2.s.send.log == src.s.send.log && src2.accepted == src.accepted
    ensures dst2.received == dst.received == src2.accepted
  {
    hide PeerOk, Follows, NextIsFin;
    FinIsLast(dst, src);
    FinEndsTheLog(src, src2);
    FollowersReadPrefixes(dst2, src2);
  }

  /** The end of the stream is final: once it was reported, or only the Fin was left, neither the other end's log nor
      what it accepted nor what was returned changes any more, in whatever way the run goes on. */
  lemma EndOfStreamIsFinal(cfg: Config, run: seq<Action>, states: seq<System>, i: nat, j: nat, id: SessionId)
    requires Sensible(cfg) && IsRun(cfg, run, states) && i <= j <= |run| && id in states[i].servers
    ensures id in states[j].servers
    ensures var s, t := states[i], states[j];
            && (s.servers[id].ended || NextIsFin(s.servers[id].s) ==>
                  && t.client.s.send.log == s.client.s.send.log && t.client.accepted == s.client.accepted
                  && t.servers[id].received == s.servers[id].received == t.client.accepted)
            && (s.client.s.sid == id && (s.client.ended || NextIsFin(s.client.s)) ==>
                  && t.servers[id].s.send.log == s.servers[id].s.send.log
                  && t.servers[id].accepted == s.servers[id].accepted
                  && t.client.received == s.client.received == t.servers[id].accepted)
  {
    hide PeerOk, Follows, NextIsFin, Later, FromClient, FromServers;
    RunsGoForward(cfg, run, states, i, j);
    StatesKeepInv(cfg, run, states, i);
    StatesKeepInv(cfg, run, states, j);
    var s, t := states[i], states[j];
    assert ServerOk(cfg, id, s.servers[id]) && PairOk(cfg, s.client, id, s.servers[id]);
    assert ServerOk(cfg, id, t.servers[id]) && PairOk(cfg, t.client, id, t.servers[id]);
    if s.servers[id].ended || NextIsFin(s.servers[id].s) {
      EndIsFinal(s.servers[id], s.client, t.servers[id], t.client);
    }
    if s.client.s.sid == id && (s.client.ended || NextIsFin(s.client.s)) {
      EndIsFinal(s.client, s.servers[id], t.client, t.servers[id]);
    }
  }

  lemma ServersUntouched(sys: System, f: Frame, env: Env, active: bool)
    requires AllWindows(sys)
    ensures DeliverToClient(sys, f, env, active).servers == sys.servers
  {}

  lemma ClientOpKeepsId(sys: System, op: Op)
    requires Inv(sys) && Windows(sys.client.s)
    ensures PeerStep(sys.client, op).p.s.sid == sys.client.s.sid
  {
    hide UpdateWindows, Sequenced, CallsOk, LogShape, ServersOk;
    if op.SendOp? {
      SendWrites(sys.client, op.data, op.waits);
    } else if op.ReceiveOp? {
      ReceiveReads(sys.client, op.room);
    } else {
      QuietOp(sys.client, op);
    }
  }

  lemma DeliveryKeepsId(sys: System, f: Frame, env: Env, active: bool)
    requires Inv(sys) && AllWindows(sys) && f in sys.toClient
    ensures Bound(sys.cfg, sys.client) ==> DeliverToClient(sys, f, env, active).client.s.sid == sys.client.s.sid
  {
    hide HandleMessage, ServersOk, FromClient, FromServers, Sequenced, CallsOk, LogShape;
    if Bound(sys.cfg, sys.client) && WellFormed(f) && f.kind != Syn
       && (f.kind == SynAck || sys.client.s.state != Closed) {
      HandleMessageIsReported(sys.client.s, f, env);
    }
  }

  /** What the owner of any session hears, over any run: at most one establishment, at most one termination, and
      nothing after that. */
  lemma CallbacksAreInOrder(cfg: Config, run: seq<Action>, sys: System, p: Peer)
    requires Sensible(cfg) && Reached(cfg, run, sys)
    requires p == sys.client || exists id :: id in sys.servers && p == sys.servers[id]
    ensures forall i, j :: 0 <= i < j < |p.calls| ==>
              !p.calls[i].SessionTerminated? && !(p.calls[i] == SessionEstablished && p.calls[j] == SessionEstablished)
  {
    hide Reached, Coherent, Follows, Sequenced;
    RunsKeepInv(cfg, run, sys);
    if p != sys.client {
      var id :| id in sys.servers && p == sys.servers[id];
      assert ServerOk(cfg, id, p);
    }
  }

  /** The filter matters: a Fin handed to a closed session would reopen it. */
  lemma FinReopensAClosedSession(s: Session, f: Frame, env: Env)
    requires Coherent(s) && s.state == Closed && f.kind == Fin
    ensures HandleMessage(s, f, env).s.state == Closing
  {}
}
