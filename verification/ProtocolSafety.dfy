/** Safety over whole runs of the session protocol. */
module ProtocolSafety {
  import opened Wire
  import Out = OutgoingStream
  import opened SessionSteps
  import opened SessionInvariant
  import opened Versions
  import opened Protocol

  // ------------------------------------------------------------------ one stream, from log to reader

  /** The payloads of the data messages of a log. */
  function Sequenced(log: seq<Entry>): seq<Bytes>
    decreases |log|
  {
    if log == [] then []
    else
      var e := log[|log| - 1];
      Sequenced(log[..|log| - 1]) + (if e.kind == Data then [ContentOf(e.payload)] else [])
  }

  lemma SequencedAppend(log: seq<Entry>, e: Entry)
    ensures Sequenced(log + [e]) == Sequenced(log) + if e.kind == Data then [ContentOf(e.payload)] else []
  {
    assert (log + [e])[..|log|] == log;
  }

  lemma {:induction false} SequencedPrefix(log: seq<Entry>, n: nat)
    requires n <= |log|
    ensures Sequenced(log[..n]) <= Sequenced(log)
    decreases |log|
  {
    if n == |log| {
      assert log[..n] == log;
    } else {
      SequencedPrefix(log[..|log| - 1], n);
      assert log[..|log| - 1][..n] == log[..n];
    }
  }

  /** `dst` reads the stream that `src` writes: what it holds was logged by `src` under the same number, and what it
      has returned is the data of the log up to its read position; an end of stream means the Fin was reached. */
  ghost predicate Follows(dst: Peer, src: Peer) {
    && 2 <= dst.s.recv.unread <= |src.s.send.log| + 1
    && (forall q :: q in dst.s.recv.buffer ==> Out.Logged(src.s.send, dst.s.recv.buffer[q]))
    && dst.received == Sequenced(src.s.send.log[..dst.s.recv.unread - 1])
    && (dst.ended ==> src.s.send.log[dst.s.recv.unread - 2].kind == Fin && dst.s.recv.unread > 2)
  }

  lemma WriterGrows(dst: Peer, src: Peer, src2: Peer)
    requires Follows(dst, src) && src.s.send.log <= src2.s.send.log
    ensures Follows(dst, src2)
  {
    assert src2.s.send.log[..dst.s.recv.unread - 1] == src.s.send.log[..dst.s.recv.unread - 1];
  }

  lemma ReaderGrows(dst: Peer, dst2: Peer, src: Peer, input: Option<Frame>)
    requires Follows(dst, src) && RecvGrows(dst.s.recv, dst2.s.recv, input)
    requires input.Some? && (input.value.kind == Data || input.value.kind == Fin) ==>
               Out.Logged(src.s.send, input.value)
    requires dst2.received == dst.received && dst2.ended == dst.ended
    ensures Follows(dst2, src)
  {}

  lemma ReaderTakes(dst: Peer, room: nat, src: Peer)
    requires Follows(dst, src) && Coherent(dst.s) && (dst.ended ==> dst.s.state == Closed)
    ensures Follows(PeerStep(dst, ReceiveOp(room)).p, src)
  {
    ReceiveKeeps(dst.s, room);
    var (t, result) := Receive(dst.s, room);
    var q := dst.s.recv.unread;
    var dst2 := PeerStep(dst, ReceiveOp(room)).p;
    var log := src.s.send.log;
    if !result.Failed? {
      var f := dst.s.recv.buffer[q];
      assert Out.Logged(src.s.send, f);
      assert log[..q] == log[..q - 1] + [log[q - 1]];
      SequencedAppend(log[..q - 1], log[q - 1]);
      assert dst2.s.recv.unread == q + 1;
      assert dst2.received == Sequenced(log[..q]);
    }
  }

  // ------------------------------------------------------------------ the invariant of the system

  ghost predicate PeerOk(p: Peer) {
    && Coherent(p.s) && p.s.send.log != []
    && p.accepted == Sequenced(p.s.send.log)
    && (p.ended ==> p.s.state == Closed)
    && CallsOk(p)
  }

  /** The owner hears of the establishment at most once, of the termination at most once, and of nothing after that. */
  ghost predicate CallsOk(p: Peer) {
    && (forall i, j :: 0 <= i < j < |p.calls| ==>
          !(p.calls[i] == SessionEstablished && p.calls[j] == SessionEstablished))
    && (forall i :: 0 <= i < |p.calls| && p.calls[i].SessionTerminated? ==> i == |p.calls| - 1 && p.s.owner.None?)
    && (forall i :: 0 <= i < |p.calls| && p.calls[i] == SessionEstablished ==>
          p.s.state == Closed || Rank(p.s.state) >= Rank(Established))
  }

  predicate Bound(cfg: Config, c: Peer) {
    c.s.sid != cfg.connectId
  }

  ghost predicate ClientOk(cfg: Config, c: Peer) {
    && PeerOk(c) && c.s.send.log[0] == Request(cfg)
    && c.s.state != Listening && c.s.state != SynReceived
    && (forall i :: 0 <= i < |c.s.send.log| ==> c.s.send.log[i].sid == cfg.connectId || c.s.send.log[i].sid == c.s.sid)
    && (c.key.Some? && (c.s.state != Closed || Bound(cfg, c)) ==> c.key == Some(c.s.sid))
    && (c.s.state == SynSent ==> !Bound(cfg, c))
    && (!Bound(cfg, c) ==>
          && (c.s.state == SynSent || c.s.state == Closed)
          && c.s.send.unacknowledged == 1 && Pristine(c.s.recv) && c.s.recv.unread == 1
          && c.received == [] && !c.ended
          && c.s.sessionVersion == cfg.clientSessionVersion
          && (c.s.owner.Some? ==> c.s.owner.value == cfg.clientMin))
  }

  // The versions every server session of this system is given.
  function AgreedVersion(cfg: Config): Version {
    Negotiate(cfg.serverMin, cfg.serverMax, Request(cfg).payload).version
  }

  function AgreedSessionVersion(cfg: Config): Version {
    Min(cfg.clientSessionVersion, SESSION_PROTOCOL_VERSION)
  }

  function SynAckEntry(cfg: Config, id: SessionId): Entry {
    Entry(SynAck, id, SynAckInfo(1, cfg.connectId, AgreedVersion(cfg), AgreedSessionVersion(cfg)))
  }

  ghost predicate ServerOk(cfg: Config, id: SessionId, p: Peer) {
    && PeerOk(p) && p.s.send.log[0] == SynAckEntry(cfg, id)
    && p.s.sid == id && id != cfg.connectId
    && p.s.state != Listening && p.s.state != SynSent
    && (forall i :: 0 <= i < |p.s.send.log| ==> p.s.send.log[i].sid == id)
    && p.s.protocolVersion == AgreedVersion(cfg) && p.s.sessionVersion == AgreedSessionVersion(cfg)
    && Negotiate(cfg.serverMin, cfg.serverMax, Request(cfg).payload).supported
    && (p.key.Some? ==> p.key.value == id)
  }

  /** A server session the client is not bound to has heard nothing since its request. */
  ghost predicate Unheard(p: Peer) {
    && (p.s.state == SynReceived || p.s.state == Closed)
    && Pristine(p.s.recv) && p.s.recv.unread == 2 && p.s.send.unacknowledged == 1
    && p.received == [] && !p.ended
    && SessionEstablished !in p.calls
  }

  ghost predicate PairOk(cfg: Config, c: Peer, id: SessionId, p: Peer) {
    && Follows(p, c)
    && (c.s.sid != id ==> Unheard(p))
    && (c.s.sid == id ==>
          && Follows(c, p)
          && c.s.send.unacknowledged <= p.s.recv.expected
          && p.s.send.unacknowledged <= c.s.recv.expected
          && c.s.sessionVersion == p.s.sessionVersion
          && (c.s.state != Closed ==> c.s.protocolVersion == p.s.protocolVersion))
  }

  /** Frames to the servers: resets, blanks, acks under the connecting id (which reach nobody), and what the client
      has genuinely logged or received. */
  ghost predicate FromClient(cfg: Config, c: Peer, f: Frame) {
    f.kind == Rst || f.kind == Unknown || (f.kind == Ack && f.sid == cfg.connectId) || Genuine(c.s, f)
  }

  ghost predicate FromServers(servers: map<SessionId, Peer>, f: Frame) {
    f.kind == Rst || f.kind == Unknown || (f.sid in servers && Genuine(servers[f.sid].s, f))
  }

  ghost predicate ServersOk(cfg: Config, c: Peer, servers: map<SessionId, Peer>) {
    forall id :: id in servers ==> ServerOk(cfg, id, servers[id]) && PairOk(cfg, c, id, servers[id])
  }

  ghost predicate Inv(sys: System) {
    && Sensible(sys.cfg)
    && ClientOk(sys.cfg, sys.client)
    && (Bound(sys.cfg, sys.client) ==> sys.client.s.sid in sys.servers)
    && ServersOk(sys.cfg, sys.client, sys.servers)
    && (forall f :: f in sys.toServer ==> FromClient(sys.cfg, sys.client, f))
    && (forall f :: f in sys.toClient ==> FromServers(sys.servers, f))
  }

  // ------------------------------------------------------------------ quiet steps: everything but Send and Receive

  /** A step of one end that neither sequences data nor reads. */
  ghost predicate Quiet(p: Peer, q: Peer, input: Option<Frame>, out: seq<Frame>) {
    && Evolves(p.s, q.s, input, out) && PeerOk(q) && Advances(p.s.state, q.s.state, input)
    && (q.s.owner == p.s.owner || q.s.owner == None)
    && q.accepted == p.accepted && q.received == p.received && q.ended == p.ended
    && (q.key == p.key || q.key == None)
    && (SessionEstablished in q.calls ==> SessionEstablished in p.calls || q.s.state == Established)
  }

  lemma FinSequencesNothing(log: seq<Entry>, sid: SessionId)
    ensures Sequenced(log + [Entry(Fin, sid, Empty)]) == Sequenced(log)
  {
    SequencedAppend(log, Entry(Fin, sid, Empty));
  }

  lemma ReportIsQuiet(p: Peer, input: Option<Frame>, r: Report)
    requires PeerOk(p) && Reported(p.s, input, r)
    ensures Quiet(p, Told(p, r), input, r.out)
  {
    hide Coherent, Sequenced, RecvGrows, AllGenuine;
    assert forall c :: c in p.calls + r.calls <==> c in p.calls || c in r.calls;
    FinSequencesNothing(p.s.send.log, p.s.sid);
    CallsStayOk(p, input, r);
  }

  lemma CallsStayOk(p: Peer, input: Option<Frame>, r: Report)
    requires CallsOk(p) && Reported(p.s, input, r)
    ensures CallsOk(Told(p, r))
  {
    hide Coherent, Evolves;
  }

  // Calls that touch neither stream: only the state, the owner and what it was told.
  lemma SameStreamsAreQuiet(p: Peer, t: Session, calls: seq<Callback>, key: Option<SessionId>)
    requires PeerOk(p) && SameStreams(p.s, t) && Coherent(t) && Advances(p.s.state, t.state, None)
    requires (t.owner == p.s.owner && calls == []) || (t.owner == None && calls == [])
             || (t.owner == None && p.s.owner.Some? && |calls| == 1 && calls[0].SessionTerminated?)
    requires key == p.key || key == None
    ensures Quiet(p, p.(s := t, calls := p.calls + calls, key := key), None, [])
  {
    hide Coherent, Sequenced;
    EvolvesNot(p.s, t, None);
    assert p.calls + [] == p.calls;
  }

  lemma QuietOp(p: Peer, op: Op)
    requires PeerOk(p) && !op.SendOp? && !op.ReceiveOp?
    ensures var r := PeerStep(p, op); Quiet(p, r.p, None, r.out)
  {
    hide UpdateWindows, Resume, Sequenced, Quiet, CallsOk;
    assert p.calls + [] == p.calls;
    match op {
      case UpdateOp(env) =>
        if p.key.Some? {
          UpdateWindowsIsReported(p.s, env);
          ReportIsQuiet(p, None, UpdateWindows(p.s, env));
        } else {
          SameStreamsAreQuiet(p, p.s, [], p.key);
        }
      case ResumeOp =>
        SameStreamsAreQuiet(p, p.s, [], p.key);
        ResumeIsReported(p.s);
        ReportIsQuiet(p, None, Resume(p.s));
      case TerminateOp =>
        var r := UpdateTermination(p.s);
        SameStreamsAreQuiet(p, p.s, [], p.key);
        SameStreamsAreQuiet(p, r.s, r.calls, if r.s.state == Closed then None else p.key);
      case ShutdownOp(reason) =>
        ShutdownKeeps(p.s, reason);
        SameStreamsAreQuiet(p, Shutdown(p.s, reason), [], p.key);
      case CloseOp(reason) =>
        ShutdownKeeps(Orphan(p.s), reason);
        SameStreamsAreQuiet(p, Close(p.s, reason), [], p.key);
      case OrphanOp =>
        SameStreamsAreQuiet(p, Orphan(p.s), [], p.key);
      case CloseIfOwnedOp =>
        ShutdownKeeps(Orphan(p.s), Success);
        var r := CloseIfOwnedBy(p.s, true);
        SameStreamsAreQuiet(p, r.s, r.calls, p.key);
    }
  }

  // ------------------------------------------------------------------ steps of the client

  /** What reaches the client's session: from its server, genuinely; before it is bound, only resets. */
  ghost predicate ClientHears(sys: System, input: Option<Frame>) {
    input.Some? ==> input.value.sid == sys.client.s.sid && FromServers(sys.servers, input.value)
  }

  // A step that brings no data leaves an empty window empty.
  lemma StaysPristine(p: Peer, q: Peer, input: Option<Frame>, out: seq<Frame>)
    requires Quiet(p, q, input, out) && Pristine(p.s.recv)
    requires input.Some? ==> input.value.kind == Rst || input.value.kind == Unknown
    ensures Pristine(q.s.recv) && q.s.recv.unread == p.s.recv.unread
    ensures q.s.send.unacknowledged == p.s.send.unacknowledged || p.s.send.unacknowledged < 1
  {
    hide Sequenced, LogShape, CallsOk, AllGenuine;
    assert q.s.recv.buffer == map[];
    assert q.s.recv.unread < q.s.recv.expected ==> q.s.recv.unread in q.s.recv.buffer;
  }

  lemma UnboundHearsResets(sys: System, input: Option<Frame>)
    requires Inv(sys) && !Bound(sys.cfg, sys.client) && ClientHears(sys, input)
    ensures input.Some? ==> input.value.kind == Rst || input.value.kind == Unknown
  {
    assert sys.client.s.sid !in sys.servers;
  }

  lemma ClientStaysOk(sys: System, c2: Peer, out: seq<Frame>, input: Option<Frame>)
    requires Inv(sys) && Quiet(sys.client, c2, input, out) && ClientHears(sys, input)
    ensures ClientOk(sys.cfg, c2)
  {
    hide Sequenced, LogShape, CallsOk, AllGenuine, RecvGrows, ServersOk, FromClient, FromServers, Coherent, Pristine;
    var c := sys.client;
    if !Bound(sys.cfg, c) {
      UnboundHearsResets(sys, input);
      StaysPristine(c, c2, input, out);
    }
  }

  // A logged opening message is number one; acks and SynAcks of a log are never anything else.
  lemma LoggedKinds(p: Peer, f: Frame)
    requires PeerOk(p) && Out.Logged(p.s.send, f)
    ensures f.kind != Ack && f.kind != Rst && f.kind != Unknown
    ensures f.kind == SynAck || f.kind == Syn ==> f.sequence == 1
  {}

  lemma ReadsPastOpening(p: Peer)
    requires PeerOk(p) && 2 <= p.s.recv.unread
    ensures 2 <= p.s.recv.expected
  {}

  lemma ClientStepKeepsPair(sys: System, c2: Peer, out: seq<Frame>, input: Option<Frame>, id: SessionId)
    requires Inv(sys) && Quiet(sys.client, c2, input, out) && ClientHears(sys, input)
    requires id in sys.servers
    ensures PairOk(sys.cfg, c2, id, sys.servers[id])
  {
    hide Sequenced, Coherent, CallsOk;
    var c, p := sys.client, sys.servers[id];
    assert ServerOk(sys.cfg, id, p) && PairOk(sys.cfg, c, id, p);
    WriterGrows(p, c, c2);
    ReadsPastOpening(p);
    if id == c.s.sid {
      if input.Some? {
        var f := input.value;
        if Out.Logged(p.s.send, f) {
          LoggedKinds(p, f);
        }
      }
      ReaderGrows(c, c2, p, input);
    }
  }

  lemma ClientFramesStay(sys: System, c2: Peer, out: seq<Frame>, input: Option<Frame>)
    requires Inv(sys) && Quiet(sys.client, c2, input, out)
    ensures forall f :: f in sys.toServer + FramesOf(out) ==> FromClient(sys.cfg, c2, f)
  {
    forall f | f in sys.toServer + FramesOf(out) ensures FromClient(sys.cfg, c2, f) {
      if f in sys.toServer {
        assert FromClient(sys.cfg, sys.client, f);
        if Genuine(sys.client.s, f) {
          GenuineLasts(sys.client.s, c2.s, input, out, f);
        }
      }
    }
  }

  lemma ClientStep(sys: System, c2: Peer, out: seq<Frame>, input: Option<Frame>)
    requires Inv(sys) && Quiet(sys.client, c2, input, out) && ClientHears(sys, input)
    ensures Inv(sys.(client := c2, toServer := sys.toServer + FramesOf(out)))
  {
    hide ClientOk, PairOk, ServerOk, Genuine, PeerOk, FromServers, FromClient;
    ClientStaysOk(sys, c2, out, input);
    ClientFramesStay(sys, c2, out, input);
    forall id | id in sys.servers ensures PairOk(sys.cfg, c2, id, sys.servers[id]) {
      ClientStepKeepsPair(sys, c2, out, input, id);
    }
  }

  // ------------------------------------------------------------------ steps of a server session

  ghost predicate ServerHears(sys: System, id: SessionId, input: Option<Frame>) {
    input.Some? ==> input.value.sid == id && input.value.kind != SynAck && input.value.kind != Syn
                    && FromClient(sys.cfg, sys.client, input.value)
  }

  /** Only the bound session is ever sent more than resets. */
  lemma UnboundHearResets(sys: System, id: SessionId, f: Frame)
    requires Inv(sys) && id in sys.servers && ServerHears(sys, id, Some(f)) && id != sys.client.s.sid
    ensures f.kind == Rst || f.kind == Unknown
  {
    assert ServerOk(sys.cfg, id, sys.servers[id]);
  }

  lemma ServerStepKeepsPair(sys: System, id: SessionId, p2: Peer, out: seq<Frame>, input: Option<Frame>)
    requires Inv(sys) && id in sys.servers && Quiet(sys.servers[id], p2, input, out) && ServerHears(sys, id, input)
    ensures PairOk(sys.cfg, sys.client, id, p2)
  {
    hide Sequenced, CallsOk, LogShape;
    var c, p := sys.client, sys.servers[id];
    assert ServerOk(sys.cfg, id, p) && PairOk(sys.cfg, c, id, p);
    if input.Some? {
      var f := input.value;
      if Out.Logged(c.s.send, f) {
        LoggedKinds(c, f);
      }
      if id != c.s.sid {
        UnboundHearResets(sys, id, f);
      }
    }
    ReaderGrows(p, p2, c, input);
    if id == c.s.sid {
      WriterGrows(c, p, p2);
    } else {
      StaysPristine(p, p2, input, out);
    }
  }

  lemma ServerStaysOk(sys: System, id: SessionId, p2: Peer, out: seq<Frame>, input: Option<Frame>)
    requires Inv(sys) && id in sys.servers && Quiet(sys.servers[id], p2, input, out)
    ensures ServerOk(sys.cfg, id, p2)
  {
    hide Sequenced, CallsOk, LogShape, AllGenuine, RecvGrows;
    assert ServerOk(sys.cfg, id, sys.servers[id]);
  }

  lemma ServerFramesStay(sys: System, id: SessionId, p2: Peer, out: seq<Frame>, input: Option<Frame>)
    requires Inv(sys) && id in sys.servers && Quiet(sys.servers[id], p2, input, out)
    requires forall f :: f in out ==> f.sid == id || f.kind == Unknown
    ensures forall f :: f in sys.toClient + FramesOf(out) ==> FromServers(sys.servers[id := p2], f)
  {
    hide PeerOk, ClientOk, ServersOk;
    var servers2 := sys.servers[id := p2];
    forall f | f in sys.toClient + FramesOf(out) ensures FromServers(servers2, f) {
      if f in sys.toClient {
        assert FromServers(sys.servers, f);
        if f.sid == id && Genuine(sys.servers[id].s, f) {
          GenuineLasts(sys.servers[id].s, p2.s, input, out, f);
        }
      } else {
        assert Genuine(p2.s, f);
      }
    }
  }

  // All that a server session logs and acknowledges carries its own id.
  lemma ServerSpeaksAsItself(cfg: Config, id: SessionId, p2: Peer, out: seq<Frame>)
    requires ServerOk(cfg, id, p2) && AllGenuine(p2.s, out)
    ensures forall f :: f in out ==> f.sid == id || f.kind == Unknown
  {
    forall f | f in out ensures f.sid == id || f.kind == Unknown {
      assert Genuine(p2.s, f);
    }
  }

  lemma ServerStep(sys: System, id: SessionId, p2: Peer, out: seq<Frame>, input: Option<Frame>)
    requires Inv(sys) && id in sys.servers && Quiet(sys.servers[id], p2, input, out) && ServerHears(sys, id, input)
    ensures Inv(sys.(servers := sys.servers[id := p2], toClient := sys.toClient + FramesOf(out)))
  {
    hide ClientOk, PairOk, ServerOk, Genuine, PeerOk, FromServers, FromClient;
    ServerStepKeepsPair(sys, id, p2, out, input);
    ServerStaysOk(sys, id, p2, out, input);
    ServerSpeaksAsItself(sys.cfg, id, p2, out);
    ServerFramesStay(sys, id, p2, out, input);
  }

  // ------------------------------------------------------------------ the writers and the readers

  /** What a successful Send does to an end: one more data message, one more accepted payload. */
  ghost predicate Wrote(p: Peer, q: Peer, data: Bytes) {
    && q == p.(s := p.s.(send := q.s.send), accepted := p.accepted + [data])
    && q.s.send == p.s.send.(log := p.s.send.log + [Entry(Data, p.s.sid, Content(data))])
    && PeerOk(q)
  }

  lemma SendWrites(p: Peer, data: Bytes, waits: bool)
    requires PeerOk(p) && p.s.state != Listening
    ensures var q := PeerStep(p, SendOp(data, waits)).p;
            q == p || Wrote(p, q, data)
  {
    hide Sequenced;
    SendKeeps(p.s, data, waits);
    SequencedAppend(p.s.send.log, Entry(Data, p.s.sid, Content(data)));
  }

  lemma ClientWrites(sys: System, c2: Peer, data: Bytes)
    requires Inv(sys) && Wrote(sys.client, c2, data)
    ensures Inv(sys.(client := c2))
  {
    hide Sequenced, CallsOk, Coherent;
    var c := sys.client;
    forall id | id in sys.servers ensures PairOk(sys.cfg, c2, id, sys.servers[id]) {
      assert PairOk(sys.cfg, c, id, sys.servers[id]);
      WriterGrows(sys.servers[id], c, c2);
    }
    forall f | f in sys.toServer ensures FromClient(sys.cfg, c2, f) {
      assert FromClient(sys.cfg, c, f);
    }
  }

  lemma ServerWrites(sys: System, id: SessionId, p2: Peer, data: Bytes)
    requires Inv(sys) && id in sys.servers && Wrote(sys.servers[id], p2, data)
    ensures Inv(sys.(servers := sys.servers[id := p2]))
  {
    hide Sequenced, CallsOk, Coherent, ClientOk, FromClient;
    var c, p := sys.client, sys.servers[id];
    assert ServerOk(sys.cfg, id, p) && PairOk(sys.cfg, c, id, p);
    if c.s.sid == id {
      WriterGrows(c, p, p2);
    }
    forall f | f in sys.toClient ensures FromServers(sys.servers[id := p2], f) {
      assert FromServers(sys.servers, f);
    }
  }

  /** What reading does to an end: the window moves on, or nothing happens. */
  ghost predicate Read(p: Peer, q: Peer) {
    && PeerOk(q) && q.s == p.s.(recv := q.s.recv, state := q.s.state) && q.accepted == p.accepted
    && q.calls == p.calls && q.key == p.key
    && q.s.recv.expected == p.s.recv.expected && (q.s.state == p.s.state || q.s.state == Closed)
    && (Pristine(p.s.recv) ==> q == p)
  }

  lemma ReceiveReads(p: Peer, room: nat)
    requires PeerOk(p)
    ensures Read(p, PeerStep(p, ReceiveOp(room)).p)
  {
    hide Sequenced, LogShape;
    ReceiveKeeps(p.s, room);
  }

  lemma ClientReads(sys: System, room: nat)
    requires Inv(sys)
    ensures Inv(sys.(client := PeerStep(sys.client, ReceiveOp(room)).p))
  {
    hide Sequenced, CallsOk, PeerStep, LogShape;
    var c := sys.client;
    ReceiveReads(c, room);
    var c2 := PeerStep(c, ReceiveOp(room)).p;
    forall id | id in sys.servers ensures PairOk(sys.cfg, c2, id, sys.servers[id]) {
      assert PairOk(sys.cfg, c, id, sys.servers[id]);
      WriterGrows(sys.servers[id], c, c2);
      if c.s.sid == id {
        ReaderTakes(c, room, sys.servers[id]);
      }
    }
    forall f | f in sys.toServer ensures FromClient(sys.cfg, c2, f) {
      assert FromClient(sys.cfg, c, f);
    }
  }

  lemma ServerReads(sys: System, id: SessionId, room: nat)
    requires Inv(sys) && id in sys.servers
    ensures Inv(sys.(servers := sys.servers[id := PeerStep(sys.servers[id], ReceiveOp(room)).p]))
  {
    hide Sequenced, CallsOk, ClientOk, FromClient, PeerStep, LogShape;
    var c, p := sys.client, sys.servers[id];
    assert ServerOk(sys.cfg, id, p) && PairOk(sys.cfg, c, id, p);
    ReceiveReads(p, room);
    ReaderTakes(p, room, c);
    var p2 := PeerStep(p, ReceiveOp(room)).p;
    if c.s.sid == id {
      WriterGrows(c, p, p2);
    }
    forall f | f in sys.toClient ensures FromServers(sys.servers[id := p2], f) {
      assert FromServers(sys.servers, f);
    }
  }

  // ------------------------------------------------------------------ the handshake

  /** A SynAck on the wire is the opening message of a server session of this request. */
  lemma SynAckOnTheWire(sys: System, f: Frame)
    requires Inv(sys) && f in sys.toClient && f.kind == SynAck
    ensures f.sid in sys.servers && f.sequence == 1
    ensures f.payload == SynAckInfo(1, sys.cfg.connectId, AgreedVersion(sys.cfg), AgreedSessionVersion(sys.cfg))
  {
    var p := sys.servers[f.sid];
    assert ServerOk(sys.cfg, f.sid, p);
    LoggedKinds(p, f);
  }

  /** The client's side of the handshake, as values: what it becomes when it binds to the server session `f.sid`. */
  lemma BindingIsOk(sys: System, f: Frame, env: Env)
    requires Inv(sys) && f in sys.toClient && f.kind == SynAck && sys.client.s.state == SynSent
    requires f.payload.SynAckInfo?
    ensures var c2 := Told(sys.client, HandleMessage(sys.client.s, f, env)).(key := Some(f.sid));
            && ClientOk(sys.cfg, c2) && c2.s.sid == f.sid && f.sid in sys.servers
            && c2.received == [] && !c2.ended && Pristine(c2.s.recv) && c2.s.recv.unread == 2
            && c2.s.send.unacknowledged <= 2 && c2.s.send.log == sys.client.s.send.log
            && c2.s.sessionVersion == AgreedSessionVersion(sys.cfg)
            && (c2.s.state != Closed ==> c2.s.protocolVersion == AgreedVersion(sys.cfg))
            && AllGenuine(c2.s, HandleMessage(sys.client.s, f, env).out)
  {
    hide Sequenced, HandleMessage, LogShape, FromClient, FromServers;
    var cfg, c := sys.cfg, sys.client;
    SynAckOnTheWire(sys, f);
    SynAckBinds(c.s, f, env);
    var r := HandleMessage(c.s, f, env);
    assert ServerOk(cfg, f.sid, sys.servers[f.sid]);
    if AgreedVersion(cfg) == 0 {
      ZeroIsTheMinimum(cfg.serverMin, cfg.serverMax, cfg.clientMin,
                       RequestedMax(cfg.clientSessionVersion, cfg.clientMin, cfg.clientMax));
    }
    FirstCall(c, r);
  }

  lemma FirstCall(c: Peer, r: Report)
    requires CallsOk(c) && c.s.state == SynSent && r.s.owner == c.s.owner
    requires r.calls == [] || (r.calls == [SessionEstablished] && r.s.state == Established && r.s.owner.Some?)
    ensures CallsOk(Told(c, r))
  {}

  lemma BindingKeepsPair(sys: System, f: Frame, env: Env, id: SessionId)
    requires Inv(sys) && f in sys.toClient && f.kind == SynAck && sys.client.s.state == SynSent
    requires f.payload.SynAckInfo? && id in sys.servers
    ensures var c2 := Told(sys.client, HandleMessage(sys.client.s, f, env)).(key := Some(f.sid));
            PairOk(sys.cfg, c2, id, sys.servers[id])
  {
    hide CallsOk, HandleMessage, FromClient, FromServers;
    BindingIsOk(sys, f, env);
    var c2 := Told(sys.client, HandleMessage(sys.client.s, f, env)).(key := Some(f.sid));
    var p := sys.servers[id];
    assert ServerOk(sys.cfg, id, p) && PairOk(sys.cfg, sys.client, id, p);
    assert c2.s.send.log == sys.client.s.send.log;
    WriterGrows(p, sys.client, c2);
    if id == f.sid {
      OpeningSequencesNothing(p.s.send.log);
    }
  }

  lemma OpeningSequencesNothing(log: seq<Entry>)
    requires log != [] && log[0].kind != Data
    ensures Sequenced(log[..1]) == []
  {
    assert log[..1] == [] + [log[0]];
    SequencedAppend([], log[0]);
  }

  lemma ClientBinds(sys: System, f: Frame, env: Env)
    requires Inv(sys) && f in sys.toClient && f.kind == SynAck && sys.client.s.state == SynSent
    requires f.payload.SynAckInfo?
    ensures Windows(sys.client.s)
    ensures var r := HandleMessage(sys.client.s, f, env);
            Inv(sys.(client := Told(sys.client, r).(key := Some(f.sid)), toServer := sys.toServer + FramesOf(r.out)))
  {
    hide ClientOk, PairOk, ServerOk, FromServers, HandleMessage;
    ClientHasWindows(sys);
    BindingIsOk(sys, f, env);
    var r := HandleMessage(sys.client.s, f, env);
    var c2 := Told(sys.client, r).(key := Some(f.sid));
    forall id | id in sys.servers ensures PairOk(sys.cfg, c2, id, sys.servers[id]) {
      BindingKeepsPair(sys, f, env, id);
    }
    Unbound(sys);
    forall g | g in sys.toServer + FramesOf(r.out) ensures FromClient(sys.cfg, c2, g) {
      if g in sys.toServer {
        assert FromClient(sys.cfg, sys.client, g);
      }
    }
  }

  lemma Unbound(sys: System)
    requires Inv(sys) && sys.client.s.state == SynSent
    ensures sys.client.s.sid == sys.cfg.connectId
  {}

  /** A Syn on the wire is the client's request, number one. */
  lemma SynOnTheWire(sys: System, f: Frame)
    requires Inv(sys) && f in sys.toServer && f.kind == Syn
    ensures f.sequence == 1 && f.sid == sys.cfg.connectId && f.payload == Request(sys.cfg).payload
  {
    hide Coherent, Sequenced, CallsOk, ServersOk, FromServers;
    assert FromClient(sys.cfg, sys.client, f);
    LoggedKinds(sys.client, f);
  }

  lemma AcceptedIsOk(cfg: Config, f: Frame, id: SessionId, env: Env)
    requires Sensible(cfg) && id != INVALID_SESSION_ID && id != cfg.connectId
    requires f.kind == Syn && f.sequence == 1 && f.sid == cfg.connectId && f.payload == Request(cfg).payload
    requires Negotiate(cfg.serverMin, cfg.serverMax, f.payload).supported
    ensures var p := Accepted(cfg, f, id, AgreedVersion(cfg), env);
            ServerOk(cfg, id, p) && Unheard(p)
  {
    hide HandleMessage;
    SynOpens(cfg.size, cfg.serverMin, f, AgreedVersion(cfg), id, env);
    var p := Accepted(cfg, f, id, AgreedVersion(cfg), env);
    assert p.s.send.log == [SynAckEntry(cfg, id)];
    OpeningSequencesNothing(p.s.send.log);
    assert p.s.send.log[..1] == p.s.send.log;
  }

  lemma ServerAccepts(sys: System, f: Frame, id: SessionId, env: Env)
    requires Inv(sys) && f in sys.toServer && f.kind == Syn
    requires id !in sys.servers && id != INVALID_SESSION_ID && id != sys.cfg.connectId
    requires f.payload.SynInfo? && Negotiate(sys.cfg.serverMin, sys.cfg.serverMax, f.payload).supported
    ensures var version := Negotiate(sys.cfg.serverMin, sys.cfg.serverMax, f.payload).version;
            Inv(sys.(servers := sys.servers[id := Accepted(sys.cfg, f, id, version, env)]))
  {
    hide ServerOk, Accepted, FromClient, Coherent;
    SynOnTheWire(sys, f);
    AcceptedIsOk(sys.cfg, f, id, env);
    var p := Accepted(sys.cfg, f, id, AgreedVersion(sys.cfg), env);
    OpeningSequencesNothing(sys.client.s.send.log);
    assert PairOk(sys.cfg, sys.client, id, p);
    forall g | g in sys.toClient ensures FromServers(sys.servers[id := p], g) {
      assert FromServers(sys.servers, g);
    }
  }

  // ------------------------------------------------------------------ every step keeps the invariant

  lemma InvHasWindows(sys: System)
    requires Inv(sys)
    ensures AllWindows(sys)
  {
    forall id | id in sys.servers ensures Windows(sys.servers[id].s) {
      assert ServerOk(sys.cfg, id, sys.servers[id]);
    }
  }

  lemma MoreResets(sys: System, toServer: bool, f: Frame)
    requires Inv(sys) && f.kind == Rst
    ensures Inv(if toServer then sys.(toServer := sys.toServer + {f}) else sys.(toClient := sys.toClient + {f}))
  {
    hide ClientOk, ServersOk;
  }

  lemma ClientOpKeepsInv(sys: System, op: Op)
    requires Inv(sys)
    ensures var r := PeerStep(sys.client, op);
            Inv(sys.(client := r.p, toServer := sys.toServer + FramesOf(r.out)))
  {
    hide PeerOk, ServersOk, FromClient, FromServers, Coherent;
    var c := sys.client;
    assert PeerOk(c) && c.s.state != Listening;
    ClientHasWindows(sys);
    var r := PeerStep(c, op);
    if op.SendOp? {
      SendWrites(c, op.data, op.waits);
      if r.p != c {
        ClientWrites(sys, r.p, op.data);
      }
      assert sys.toServer + FramesOf(r.out) == sys.toServer;
    } else if op.ReceiveOp? {
      ClientReads(sys, op.room);
      assert sys.toServer + FramesOf(r.out) == sys.toServer;
    } else {
      QuietOp(c, op);
      ClientStep(sys, r.p, r.out, None);
    }
  }

  lemma ClientHasWindows(sys: System)
    requires Inv(sys)
    ensures Windows(sys.client.s) && sys.client.s.send.log != []
  {}

  lemma ServerOpKeepsInv(sys: System, id: SessionId, op: Op)
    requires Inv(sys) && id in sys.servers
    ensures Windows(sys.servers[id].s)
    ensures var r := PeerStep(sys.servers[id], op);
            Inv(sys.(servers := sys.servers[id := r.p], toClient := sys.toClient + FramesOf(r.out)))
  {
    hide PeerOk, ClientOk, FromClient, FromServers, Coherent, PairOk;
    InvHasWindows(sys);
    var p := sys.servers[id];
    assert ServerOk(sys.cfg, id, p);
    assert PeerOk(p) && p.s.state != Listening;
    var r := PeerStep(p, op);
    if op.SendOp? {
      SendWrites(p, op.data, op.waits);
      if r.p == p {
        assert sys.servers[id := p] == sys.servers;
      } else {
        ServerWrites(sys, id, r.p, op.data);
      }
      assert sys.toClient + FramesOf(r.out) == sys.toClient;
    } else if op.ReceiveOp? {
      ServerReads(sys, id, op.room);
      assert sys.toClient + FramesOf(r.out) == sys.toClient;
    } else {
      QuietOp(p, op);
      ServerStep(sys, id, r.p, r.out, None);
    }
  }

  /** A frame for the client's session, other than the SynAck it waits for. */
  lemma ClientHandles(sys: System, f: Frame, env: Env)
    requires Inv(sys) && f in sys.toClient && WellFormed(f) && f.kind != Syn && sys.client.s.sid == f.sid
    requires if f.kind == SynAck then sys.client.s.state != SynSent else sys.client.s.state != Closed
    ensures Windows(sys.client.s)
    ensures var r := HandleMessage(sys.client.s, f, env);
            Inv(sys.(client := Told(sys.client, r), toServer := sys.toServer + FramesOf(r.out)))
  {
    hide HandleMessage, ServersOk, FromClient, FromServers, Coherent, Reported, Quiet;
    ClientHasWindows(sys);
    HandleMessageIsReported(sys.client.s, f, env);
    var r := HandleMessage(sys.client.s, f, env);
    ReportIsQuiet(sys.client, Some(f), r);
    ClientStep(sys, Told(sys.client, r), r.out, Some(f));
  }

  /** A SynAck for a client session that is already closed changes nothing of note. */
  lemma ClosedClientIgnoresSynAck(sys: System, f: Frame, env: Env)
    requires Inv(sys) && WellFormed(f) && f.kind == SynAck && sys.client.s.state == Closed
    requires Bound(sys.cfg, sys.client) ==> f.sid == sys.client.s.sid
    ensures Windows(sys.client.s)
    ensures var r := HandleMessage(sys.client.s, f, env);
            Inv(sys.(client := Told(sys.client, r).(key := Some(f.sid)), toServer := sys.toServer + FramesOf(r.out)))
  {
    hide ServersOk, FromClient, FromServers;
    var c := sys.client;
    var c2 := c.(s := WithWindow(c.s, f));
    assert HandleMessage(c.s, f, env) == Report(WithWindow(c.s, f), [], []);
    EvolvesNot(c.s, c.s, None);
    WithWindowEvolves(c.s, c.s, f, None, []);
    assert Quiet(c, c2, None, []);
    ClientStep(sys, c2, [], None);
    assert c.calls + [] == c.calls;
    Rekeyed(sys.(client := c2, toServer := sys.toServer + FramesOf([])), f.sid);
  }

  // While a session that was never bound is closed, its place in the table says nothing about its id.
  lemma Rekeyed(sys: System, key: SessionId)
    requires Inv(sys) && sys.client.s.state == Closed
    requires Bound(sys.cfg, sys.client) ==> key == sys.client.s.sid
    ensures Inv(sys.(client := sys.client.(key := Some(key))))
  {
    hide Sequenced, Coherent;
    var c2 := sys.client.(key := Some(key));
    forall id | id in sys.servers ensures PairOk(sys.cfg, c2, id, sys.servers[id]) {
      assert PairOk(sys.cfg, sys.client, id, sys.servers[id]);
    }
    forall f | f in sys.toServer ensures FromClient(sys.cfg, c2, f) {
      assert FromClient(sys.cfg, sys.client, f);
    }
  }

  lemma DeliverToClientKeepsInv(sys: System, f: Frame, env: Env, active: bool)
    requires Inv(sys) && f in sys.toClient
    ensures Windows(sys.client.s) && Inv(DeliverToClient(sys, f, env, active))
  {
    hide HandleMessage, ServersOk, FromClient, FromServers, PeerOk;
    ClientHasWindows(sys);
    var c := sys.client;
    if !WellFormed(f) {
    } else if f.kind == SynAck && active && (c.key == Some(f.sid) || c.key == Some(f.payload.initialSessionId)) {
      SynAckOnTheWire(sys, f);
      if c.s.state == Closed {
        ClosedClientIgnoresSynAck(sys, f, env);
      } else if c.s.state == SynSent {
        ClientBinds(sys, f, env);
      } else {
        ClientHandles(sys, f, env);
      }
    } else if f.kind != SynAck && f.kind != Syn && c.key == Some(f.sid) && c.s.state != Closed {
      ClientHandles(sys, f, env);
    } else {
      MoreResets(sys, true, Reset(f.sid, Unavailable, 0));
    }
  }

  lemma ServerHandles(sys: System, f: Frame, env: Env)
    requires Inv(sys) && f in sys.toServer && WellFormed(f) && f.kind != Syn && f.kind != SynAck
    requires f.sid in sys.servers && sys.servers[f.sid].s.state != Closed
    ensures Windows(sys.servers[f.sid].s)
    ensures var r := HandleMessage(sys.servers[f.sid].s, f, env);
            Inv(sys.(servers := sys.servers[f.sid := Told(sys.servers[f.sid], r)],
                     toClient := sys.toClient + FramesOf(r.out)))
  {
    hide HandleMessage, FromClient, FromServers, Coherent, Reported, Quiet, PairOk, ClientOk;
    InvHasWindows(sys);
    var p := sys.servers[f.sid];
    assert ServerOk(sys.cfg, f.sid, p);
    HandleMessageIsReported(p.s, f, env);
    var r := HandleMessage(p.s, f, env);
    ReportIsQuiet(p, Some(f), r);
    ServerStep(sys, f.sid, Told(p, r), r.out, Some(f));
  }

  lemma DeliverToServerKeepsInv(sys: System, f: Frame, env: Env, newId: SessionId, serving: bool, accepts: bool)
    requires Inv(sys) && Enabled(sys, ToServer(f, env, newId, serving, accepts))
    ensures AllWindows(sys) && Inv(DeliverToServer(sys, f, env, newId, serving, accepts))
  {
    hide HandleMessage, FromClient, FromServers, PeerOk, PairOk, ClientOk, Accepted, Inv;
    InvHasWindows(sys);
    MoreResets(sys, false, Reset(f.sid, Unavailable, 0));
    if !WellFormed(f) || f.kind == SynAck {
    } else if f.kind == Syn {
      if f.payload.SynInfo? && serving {
        var answer := Negotiate(sys.cfg.serverMin, sys.cfg.serverMax, f.payload);
        MoreResets(sys, false, Reset(f.sid, VersionMismatch, answer.version));
        MoreResets(sys, false, Reset(f.sid, Rejected, answer.version));
        if answer.supported {
          ServerAccepts(sys, f, newId, env);
        }
      }
    } else if f.sid in sys.servers && sys.servers[f.sid].key.Some? && sys.servers[f.sid].s.state != Closed {
      ServerHandles(sys, f, env);
    }
  }

  lemma StepKeepsInv(sys: System, a: Action)
    requires Inv(sys) && Enabled(sys, a)
    ensures AllWindows(sys) && Inv(Apply(sys, a))
  {
    hide Inv, PeerStep, DeliverToClient, DeliverToServer;
    InvHasWindows(sys);
    match a {
      case ClientOp(op) => ClientOpKeepsInv(sys, op);
      case ServerOp(id, op) => ServerOpKeepsInv(sys, id, op);
      case ToClient(f, env, active) => DeliverToClientKeepsInv(sys, f, env, active);
      case ToServer(g, env, newId, serving, accepts) => DeliverToServerKeepsInv(sys, g, env, newId, serving, accepts);
    }
  }

  lemma StartIsOk(cfg: Config)
    requires Sensible(cfg)
    ensures Inv(Start(cfg))
  {
    ConnectOpens(cfg.size, cfg.clientSessionVersion, cfg.protocol, cfg.clientMin, cfg.clientMax, cfg.connectId);
    var c := Start(cfg).client;
    assert c.s.send.log == [Request(cfg)];
    OpeningSequencesNothing(c.s.send.log);
    assert c.s.send.log[..1] == c.s.send.log;
  }

  lemma {:induction false} StatesKeepInv(cfg: Config, run: seq<Action>, states: seq<System>, i: nat)
    requires Sensible(cfg) && IsRun(cfg, run, states) && i <= |run|
    ensures Inv(states[i]) && states[i].cfg == cfg
  {
    hide Inv, Apply, Start;
    assert StateAt(cfg, run, states, i);
    if i == 0 {
      StartIsOk(cfg);
      StartHasConfig(cfg);
    } else {
      StatesKeepInv(cfg, run, states, i - 1);
      StepKeepsInv(states[i - 1], run[i - 1]);
      StepKeepsConfig(states[i - 1], run[i - 1]);
    }
  }

  /** In every state of every run the invariant holds. */
  lemma RunsKeepInv(cfg: Config, run: seq<Action>, sys: System)
    requires Sensible(cfg) && Reached(cfg, run, sys)
    ensures Inv(sys) && sys.cfg == cfg
  {
    hide Inv;
    var states :| IsRun(cfg, run, states) && states[|run|] == sys;
    StatesKeepInv(cfg, run, states, |run|);
  }

  lemma StartHasConfig(cfg: Config)
    ensures Start(cfg).cfg == cfg
  {}

  lemma StepKeepsConfig(sys: System, a: Action)
    requires AllWindows(sys) && Enabled(sys, a)
    ensures Apply(sys, a).cfg == sys.cfg
  {}
}
