/** One connecting client, the server sessions its requests give rise to, and a network that may lose, duplicate and
    reorder: the system whose runs the safety theorems speak of. */
module Protocol {
  import opened Wire
  import opened SessionSteps
  import opened Versions

  // ------------------------------------------------------------------ the system

  /** What a run does not change: the ring size, the version ranges of the two protocol ends, the session version of
      the client's build, and the id under which it connects. */
  datatype Config = Config(
    size: nat, protocol: nat, clientMin: Version, clientMax: Version, clientSessionVersion: Version,
    serverMin: Version, serverMax: Version, connectId: SessionId)

  /** A session with what its users saw: the payloads `Send` accepted, the payloads `Receive` returned, whether it
      reported the end of the stream, and what the owner was told. `key` is the session's place in its manager's table
      while it has one. */
  datatype Peer = Peer(
    s: Session, accepted: seq<Bytes>, received: seq<Bytes>, ended: bool, calls: seq<Callback>, key: Option<SessionId>)

  /** The wires hold every frame ever transmitted: a frame may be delivered never, once or often, in any order.
      `servers` keeps a session after its removal from the table, so an id is never used twice. */
  datatype System = System(
    cfg: Config, client: Peer, servers: map<SessionId, Peer>, toServer: set<Frame>, toClient: set<Frame>)

  datatype Op =
    | SendOp(data: Bytes, waits: bool)
    | ReceiveOp(room: nat)
    | UpdateOp(env: Env)
    | ResumeOp
    | TerminateOp
    | ShutdownOp(reason: Result)
    | CloseOp(closeReason: Result)
    | OrphanOp
    | CloseIfOwnedOp

  /** One atomic step: a call of a public method, an update pass - or the rest of one that had to wait - or the delivery
      of a frame from a wire. `active`: the client's manager has not been destroyed. For a Syn, `newId` is the id the
      server manager draws, `serving` tells whether it is active and has a protocol server for it, and `accepts` is the
      decision of that server. */
  datatype Action =
    | ClientOp(op: Op)
    | ServerOp(id: SessionId, sop: Op)
    | ToClient(f: Frame, env: Env, active: bool)
    | ToServer(g: Frame, senv: Env, newId: SessionId, serving: bool, accepts: bool)

  function FramesOf(out: seq<Frame>): set<Frame> {
    set f | f in out
  }

  function Reset(sid: SessionId, reason: Result, version: Version): Frame {
    Frame(Rst, sid, CodeOf(reason), version, Empty)
  }

  // ------------------------------------------------------------------ calls of one end

  datatype PeerReply = PeerReply(p: Peer, out: seq<Frame>)

  function Told(p: Peer, r: Report): Peer {
    p.(s := r.s, calls := p.calls + r.calls)
  }

  function PeerStep(p: Peer, op: Op): PeerReply
    requires Windows(p.s)
  {
    match op
    case SendOp(data, waits) =>
      var (t, result) := Send(p.s, data, waits);
      PeerReply(p.(s := t, accepted := if result == Success then p.accepted + [data] else p.accepted), [])
    case ReceiveOp(room) =>
      var (t, result) := Receive(p.s, room);
      PeerReply(p.(s := t, received := if result.Got? then p.received + [result.data] else p.received,
                   ended := p.ended || result.AtEnd?), [])
    case UpdateOp(env) =>
      if p.key.None? then PeerReply(p, [])
      else
        var r := UpdateWindows(p.s, env);
        PeerReply(Told(p, r), r.out)
    case ResumeOp =>
      if p.key.None? then PeerReply(p, []) else PeerReply(Told(p, Resume(p.s)), [])
    case TerminateOp =>
      if p.key.None? then PeerReply(p, [])
      else
        var r := UpdateTermination(p.s);
        PeerReply(Told(p, r).(key := if r.s.state == Closed then None else p.key), [])
    case ShutdownOp(reason) => PeerReply(p.(s := Shutdown(p.s, reason)), [])
    case CloseOp(reason) => PeerReply(p.(s := Close(p.s, reason)), [])
    case OrphanOp => PeerReply(p.(s := Orphan(p.s)), [])
    case CloseIfOwnedOp => PeerReply(Told(p, CloseIfOwnedBy(p.s, true)), [])
  }

  // ------------------------------------------------------------------ deliveries

  /** The client manager's lookup. A SynAck is looked up by its sender's id first, then by the id of the request it
      answers, which moves the session to the sender's id; anything else needs an open session under its id. Requests
      are refused: the client serves no protocol. */
  function DeliverToClient(sys: System, f: Frame, env: Env, active: bool): System
    requires Windows(sys.client.s)
  {
    var c := sys.client;
    if !WellFormed(f) then sys
    else if f.kind == SynAck && active && (c.key == Some(f.sid) || c.key == Some(f.payload.initialSessionId)) then
      var r := HandleMessage(c.s, f, env);
      sys.(client := Told(c, r).(key := Some(f.sid)), toServer := sys.toServer + FramesOf(r.out))
    else if f.kind != SynAck && f.kind != Syn && c.key == Some(f.sid) && c.s.state != Closed then
      var r := HandleMessage(c.s, f, env);
      sys.(client := Told(c, r), toServer := sys.toServer + FramesOf(r.out))
    else sys.(toServer := sys.toServer + {Reset(f.sid, Unavailable, 0)})
  }

  /** A session for a request: fresh, bound to the protocol server, and handed the request. */
  function Accepted(cfg: Config, f: Frame, id: SessionId, version: Version, env: Env): Peer
    requires cfg.size > 0 && f.kind == Syn && f.payload.SynInfo?
  {
    var (b, _) := BindToServer(New(cfg.size), cfg.serverMin, f.payload.clientSessionVersion, version, id);
    var r := HandleMessage(b, f, env);
    Peer(r.s, [], [], false, r.calls, Some(id))
  }

  ghost predicate AllWindows(sys: System) {
    sys.cfg.size > 0 && Windows(sys.client.s) && forall id :: id in sys.servers ==> Windows(sys.servers[id].s)
  }

  function DeliverToServer(sys: System, f: Frame, env: Env, newId: SessionId, serving: bool, accepts: bool): System
    requires AllWindows(sys)
  {
    if !WellFormed(f) || f.kind == SynAck then sys
    else if f.kind == Syn then
      if !f.payload.SynInfo? then sys
      else if !serving then sys.(toClient := sys.toClient + {Reset(f.sid, Unavailable, 0)})
      else
        var answer := Negotiate(sys.cfg.serverMin, sys.cfg.serverMax, f.payload);
        if !answer.supported then sys.(toClient := sys.toClient + {Reset(f.sid, VersionMismatch, answer.version)})
        else if !accepts then sys.(toClient := sys.toClient + {Reset(f.sid, Rejected, answer.version)})
        else sys.(servers := sys.servers[newId := Accepted(sys.cfg, f, newId, answer.version, env)])
    else if f.sid in sys.servers && sys.servers[f.sid].key.Some? && sys.servers[f.sid].s.state != Closed then
      var p := sys.servers[f.sid];
      var r := HandleMessage(p.s, f, env);
      sys.(servers := sys.servers[f.sid := Told(p, r)], toClient := sys.toClient + FramesOf(r.out))
    else sys.(toClient := sys.toClient + {Reset(f.sid, Unavailable, 0)})
  }

  // ------------------------------------------------------------------ runs

  /** Frames come from the wires; session ids are not reused, and ids drawn by a server differ from pending
      client ids. */
  predicate Enabled(sys: System, a: Action) {
    match a
    case ClientOp(_) => true
    case ServerOp(id, _) => id in sys.servers
    case ToClient(f, _, _) => f in sys.toClient
    case ToServer(g, _, newId, _, _) =>
      && g in sys.toServer
      && (g.kind == Syn ==> newId !in sys.servers && newId != INVALID_SESSION_ID && newId != sys.cfg.connectId)
  }

  function Apply(sys: System, a: Action): System
    requires AllWindows(sys) && Enabled(sys, a)
  {
    match a
    case ClientOp(op) =>
      var r := PeerStep(sys.client, op);
      sys.(client := r.p, toServer := sys.toServer + FramesOf(r.out))
    case ServerOp(id, op) =>
      var r := PeerStep(sys.servers[id], op);
      sys.(servers := sys.servers[id := r.p], toClient := sys.toClient + FramesOf(r.out))
    case ToClient(f, env, active) => DeliverToClient(sys, f, env, active)
    case ToServer(g, env, newId, serving, accepts) => DeliverToServer(sys, g, env, newId, serving, accepts)
  }

  predicate Sensible(cfg: Config) {
    cfg.size > 0 && cfg.connectId != INVALID_SESSION_ID
  }

  function Request(cfg: Config): Entry {
    Entry(Syn, cfg.connectId, SynInfo(cfg.protocol, cfg.clientMin, cfg.clientMax, cfg.clientSessionVersion))
  }

  /** Just after the client manager has established the session for its client. */
  function Start(cfg: Config): System {
    var unopened := New(cfg.size).(sessionVersion := cfg.clientSessionVersion);
    var (s, _) := Connect(unopened, cfg.protocol, cfg.clientMin, cfg.clientMax, cfg.connectId);
    System(cfg, Peer(s, [], [], false, [], Some(cfg.connectId)), map[], {}, {})
  }

  /** State `i` of a run: the start, or what the action before it made of the state before it. */
  ghost predicate StateAt(cfg: Config, run: seq<Action>, states: seq<System>, i: nat)
    requires |states| == |run| + 1 && i <= |run|
  {
    if i == 0 then states[0] == Start(cfg)
    else
      var before, action := states[i - 1], run[i - 1];
      AllWindows(before) && Enabled(before, action) && states[i] == Apply(before, action)
  }

  ghost predicate IsRun(cfg: Config, run: seq<Action>, states: seq<System>) {
    |states| == |run| + 1 && forall i :: 0 <= i <= |run| ==> StateAt(cfg, run, states, i)
  }

  /** `sys` is reached from the start by this run of enabled actions. */
  ghost predicate Reached(cfg: Config, run: seq<Action>, sys: System) {
    exists states :: IsRun(cfg, run, states) && states[|run|] == sys
  }

  /** The start is reached by doing nothing; and whatever is enabled where a run leads can be done next. */
  lemma RunsExtend(cfg: Config, run: seq<Action>, sys: System, a: Action)
    ensures Reached(cfg, [], Start(cfg))
    ensures Reached(cfg, run, sys) && AllWindows(sys) && Enabled(sys, a) ==> Reached(cfg, run + [a], Apply(sys, a))
  {
    hide Start, Enabled, Apply, AllWindows;
    assert StateAt(cfg, [], [Start(cfg)], 0);
    assert IsRun(cfg, [], [Start(cfg)]) && [Start(cfg)][0] == Start(cfg);
    if Reached(cfg, run, sys) && AllWindows(sys) && Enabled(sys, a) {
      var states :| IsRun(cfg, run, states) && states[|run|] == sys;
      var longer := states + [Apply(sys, a)];
      forall i | 0 <= i <= |run + [a]| ensures StateAt(cfg, run + [a], longer, i) {
        if i <= |run| {
          assert StateAt(cfg, run, states, i);
        }
      }
      assert IsRun(cfg, run + [a], longer) && longer[|run + [a]|] == Apply(sys, a);
    }
  }
}
