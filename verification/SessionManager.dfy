/** The session manager: the table of open sessions, the ids it draws for them, and where it takes each message. */
module SessionManagers {
  import opened Wire
  import Out = OutgoingStream
  import In = IncomingStream
  import opened SessionSteps
  import opened SessionInvariant
  import opened Versions
  import opened Protocol

  const CLIENT_SESSION_IDS := 0x1_0000   // ids of this many low values; what is above them is the peer's own id
  const ID_SPACE := 0x1_0000_0000

  // ------------------------------------------------------------------ the ids

  /** The id drawn at a counter value: its low half, under the low half of the id the peer asked with. */
  function Compose(counter: nat, remote: SessionId): (id: SessionId) {
    counter % CLIENT_SESSION_IDS + remote % CLIENT_SESSION_IDS * CLIENT_SESSION_IDS
  }

  // The id drawn so many counts after `start`.
  function Drawn(start: nat, steps: nat, remote: SessionId): SessionId {
    Compose(start + steps, remote)
  }

  lemma MultiplesVanish(x: nat, k: nat)
    requires x == k * ID_SPACE + x % ID_SPACE
    ensures x % CLIENT_SESSION_IDS == x % ID_SPACE % CLIENT_SESSION_IDS
  {
    assert x == CLIENT_SESSION_IDS * (k * CLIENT_SESSION_IDS) + x % ID_SPACE;
  }

  lemma NextCount(x: nat)
    ensures (x % ID_SPACE + 1) % ID_SPACE == (x + 1) % ID_SPACE
  {
    var k := x / ID_SPACE;
    assert x + 1 == k * ID_SPACE + (x % ID_SPACE + 1);
  }

  // The 32-bit counter wraps without disturbing its low half.
  lemma CounterWraps(start: nat, steps: nat, remote: SessionId)
    ensures ((start + steps) % ID_SPACE + 1) % ID_SPACE == (start + steps + 1) % ID_SPACE
    ensures Compose((start + steps) % ID_SPACE, remote) == Drawn(start, steps, remote)
  {
    NextCount(start + steps);
    MultiplesVanish(start + steps, (start + steps) / ID_SPACE);
  }

  // How far ahead of the counter a low half lies.
  function Distance(start: nat, low: nat): (d: nat)
    ensures 1 <= d <= CLIENT_SESSION_IDS
    ensures low < CLIENT_SESSION_IDS ==> (start + d) % CLIENT_SESSION_IDS == low
  {
    (low - start - 1) % CLIENT_SESSION_IDS + 1
  }

  predicate Free(id: SessionId, taken: set<SessionId>) {
    id != INVALID_SESSION_ID && id !in taken
  }

  /** What a server draws for a pending client is never the id of a pending client, provided the request came under an
      id with a low half; under any other id it always is. */
  lemma ServerIdsAreNotPendingIds(counter: nat, remote: SessionId)
    ensures Compose(counter, remote) % CLIENT_SESSION_IDS == counter % CLIENT_SESSION_IDS
    ensures Compose(counter, remote) / CLIENT_SESSION_IDS == remote % CLIENT_SESSION_IDS
    ensures (forall c: nat :: Compose(c, INVALID_SESSION_ID) != Compose(counter, remote))
            <==> remote % CLIENT_SESSION_IDS != 0
  {
    if remote % CLIENT_SESSION_IDS == 0 {
      assert Compose(counter, INVALID_SESSION_ID) == Compose(counter, remote);
    }
  }

  // ------------------------------------------------------------------ the table

  datatype Server = Server(identity: nat, minVersion: Version, maxVersion: Version)

  // A session with the identity of the protocol client or server it was given to.
  datatype Held = Held(s: Session, owner: nat)

  type Table = map<SessionId, Held>

  datatype Manager = Manager(size: nat, active: bool, sessions: Table, servers: map<nat, Server>)

  datatype Delivery = Delivery(m: Manager, out: seq<Frame>, calls: seq<Callback>)

  /** A session in the table: coherent, and past its opening step; or rejected before it took it. */
  ghost predicate Kept(s: Session) {
    && Coherent(s) && s.state != Listening
    && (s.send.log == [] ==> s.state == Closed && s.recv.expected == s.recv.lastUnacknowledged && s.owner.None?)
  }

  ghost predicate AllKept(t: Table) {
    forall id :: id in t ==> Kept(t[id].s)
  }

  /** A message a peer's session manager may send; a request states what it asks for. */
  predicate Deliverable(f: Frame) {
    WellFormed(f) && (f.kind == Syn ==> f.payload.SynInfo?)
  }

  function Requested(m: Manager, id: SessionId, protocol: nat, owner: nat, minVersion: Version,
                     maxVersion: Version): Manager {
    var (s, _) := Connect(New(m.size), protocol, minVersion, maxVersion, id);
    m.(sessions := m.sessions[id := Held(s, owner)])
  }

  function Bound(m: Manager, server: Server, f: Frame, version: Version, id: SessionId): Session
    requires f.payload.SynInfo?
  {
    var (b, _) := BindToServer(New(m.size), server.minVersion, f.payload.clientSessionVersion, version, id);
    b
  }

  // Hands the message to the session under `key` of the table.
  function Pass(m: Manager, key: SessionId, f: Frame, env: Env): Delivery
    requires key in m.sessions && Windows(m.sessions[key].s) && WellFormed(f)
  {
    var r := HandleMessage(m.sessions[key].s, f, env);
    Delivery(m.(sessions := m.sessions[key := m.sessions[key].(s := r.s)]), r.out, r.calls)
  }

  function Rekeyed(t: Table, from: SessionId, to: SessionId): Table
    requires from in t
  {
    (t - {from})[to := t[from]]
  }

  /** A request: refused, rejected by its protocol server, or given to a fresh session. The rejected session stays in
      the table, closed, until the next update. */
  function DeliverSyn(m: Manager, f: Frame, env: Env, id: SessionId, accepts: bool): Delivery
    requires m.size > 0 && f.kind == Syn && f.payload.SynInfo?
  {
    if !m.active || f.payload.protocol !in m.servers then Delivery(m, [Reset(f.sid, Unavailable, 0)], [])
    else
      var server := m.servers[f.payload.protocol];
      var answer := Negotiate(server.minVersion, server.maxVersion, f.payload);
      if !answer.supported then Delivery(m, [Reset(f.sid, VersionMismatch, answer.version)], [])
      else
        var b := Bound(m, server, f, answer.version, id);
        if !accepts then
          Delivery(m.(sessions := m.sessions[id := Held(Close(b, Rejected), server.identity)]),
                   [Reset(f.sid, Rejected, answer.version)], [])
        else Pass(m.(sessions := m.sessions[id := Held(b, server.identity)]), id, f, env)
  }

  ghost predicate TableWindows(t: Table) {
    forall id :: id in t ==> Windows(t[id].s)
  }

  /** A SynAck goes to the session under its sender's id; or else to the one that asked, which moves there. */
  function DeliverSynAck(m: Manager, f: Frame, env: Env): Delivery
    requires TableWindows(m.sessions) && f.kind == SynAck && f.payload.SynAckInfo?
  {
    if m.active && f.sid in m.sessions then Pass(m, f.sid, f, env)
    else if m.active && f.payload.initialSessionId in m.sessions then
      Pass(m.(sessions := Rekeyed(m.sessions, f.payload.initialSessionId, f.sid)), f.sid, f, env)
    else Delivery(m, [Reset(f.sid, Unavailable, 0)], [])
  }

  predicate IsOpen(t: Table, id: SessionId) {
    id in t && t[id].s.state != Closed
  }

  /** One received message; `id` is the id to draw should it be a request, `accepts` the protocol server's decision. */
  function Deliver(m: Manager, f: Frame, env: Env, id: SessionId, accepts: bool): Delivery
    requires m.size > 0 && TableWindows(m.sessions) && Deliverable(f)
  {
    if f.kind == Syn then DeliverSyn(m, f, env, id, accepts)
    else if f.kind == SynAck then DeliverSynAck(m, f, env)
    else if IsOpen(m.sessions, f.sid) then Pass(m, f.sid, f, env)
    else Delivery(m, [Reset(f.sid, Unavailable, 0)], [])
  }

  // ------------------------------------------------------------------ every session under its own id

  ghost predicate Filed(t: Table) {
    forall id :: id in t ==> t[id].s.sid == id
  }

  // The id of a session after a message, if it is not a request.
  function IdAfter(s: Session, f: Frame): SessionId {
    if f.kind == SynAck && s.state == SynSent then f.sid else s.sid
  }

  lemma KeptHasWindows(t: Table)
    requires AllKept(t)
    ensures TableWindows(t)
  {}

  lemma MessageKeepsSession(s: Session, f: Frame, env: Env)
    requires Kept(s) && WellFormed(f) && f.kind != Syn && (f.kind == SynAck || s.state != Closed)
    ensures var t := HandleMessage(s, f, env).s;
            && Kept(t) && t.sid == IdAfter(s, f)
            && (s.state == Closed ==> t.state == Closed)
            && (t.state == SynSent ==> s.state == SynSent && f.kind != SynAck)
            && (s.state == SynSent && f.kind != SynAck ==> t.state == SynSent || t.state == Closed || f.kind == Fin)
  {
    hide LogShape, BufferKinds, FinMeansClosing, SendGrows, RecvGrows, AllGenuine, Windows;
    if s.send.log != [] {
      if f.kind == SynAck && s.state == SynSent {
        SynAckBinds(s, f, env);
      } else {
        HandleMessageIsReported(s, f, env);
        SameLogLength(s, HandleMessage(s, f, env).s);
      }
    } else {
      ClosedIgnoresSynAck(s, f, env);
    }
  }

  lemma SameLogLength(s: Session, t: Session)
    requires exists input: Option<Frame>, out: seq<Frame> :: Evolves(s, t, input, out)
    ensures s.send.log != [] ==> t.send.log != []
  {}

  lemma ClosedIgnoresSynAck(s: Session, f: Frame, env: Env)
    requires Kept(s) && s.state == Closed && f.kind == SynAck && WellFormed(f)
    ensures HandleMessage(s, f, env) == Report(WithWindow(s, f), [], []) && Kept(WithWindow(s, f))
  {}

  lemma RequestKeepsSession(m: Manager, server: Server, f: Frame, version: Version, id: SessionId, env: Env)
    requires m.size > 0 && id != INVALID_SESSION_ID && f.kind == Syn && f.payload.SynInfo?
    ensures var b := Bound(m, server, f, version, id);
            && Windows(b)
            && Kept(Close(b, Rejected)) && Close(b, Rejected).sid == id && Close(b, Rejected).state == Closed
            && Kept(HandleMessage(b, f, env).s) && HandleMessage(b, f, env).s.sid == id
            && HandleMessage(b, f, env).s.state == SynReceived
  {
    hide HandleMessage;
    SynOpens(m.size, server.minVersion, f, version, id, env);
  }

  lemma DeliveryKeepsSessions(m: Manager, f: Frame, env: Env, id: SessionId, accepts: bool)
    requires m.size > 0 && AllKept(m.sessions) && TableWindows(m.sessions) && Deliverable(f)
    requires f.kind == Syn ==> id != INVALID_SESSION_ID
    ensures AllKept(Deliver(m, f, env, id, accepts).m.sessions)
  {
    hide Kept, Coherent, HandleMessage, Bound, Windows;
    if f.kind == Syn {
      if m.active && f.payload.protocol in m.servers {
        var server := m.servers[f.payload.protocol];
        RequestKeepsSession(m, server, f, Negotiate(server.minVersion, server.maxVersion, f.payload).version, id, env);
      }
    } else if f.kind == SynAck && m.active && f.sid !in m.sessions && f.payload.initialSessionId in m.sessions {
      MessageKeepsSession(m.sessions[f.payload.initialSessionId].s, f, env);
    } else if f.sid in m.sessions {
      if f.kind == SynAck || m.sessions[f.sid].s.state != Closed {
        MessageKeepsSession(m.sessions[f.sid].s, f, env);
      }
    }
  }

  /** A connect that was given up before its answer came: the answer moves the closed session, which keeps
      its old id. */
  lemma AnswerMisfilesClosedSession(env: Env)
    ensures var m := Requested(Manager(1, true, map[], map[]), 1, 0, 0, 0, 0);
            var closed := m.(sessions := map[1 := m.sessions[1].(s := Shutdown(m.sessions[1].s, Error))]);
            var f := Frame(SynAck, 0x1_0001, 1, 1, SynAckInfo(1, 1, 0, 2));
            && AllKept(closed.sessions) && TableWindows(closed.sessions) && Filed(closed.sessions) && FromPeer(f)
            && !Filed(Deliver(closed, f, env, 0, false).m.sessions)
  {
    var m := Requested(Manager(1, true, map[], map[]), 1, 0, 0, 0, 0);
    ConnectOpens(1, SESSION_PROTOCOL_VERSION, 0, 0, 0, 1);
    assert New(1).(sessionVersion := SESSION_PROTOCOL_VERSION) == New(1);
    ShutdownKeeps(m.sessions[1].s, Error);
    var closed := m.(sessions := map[1 := m.sessions[1].(s := Shutdown(m.sessions[1].s, Error))]);
    KeptHasWindows(closed.sessions);
    DeliveryFiles(closed, Frame(SynAck, 0x1_0001, 1, 1, SynAckInfo(1, 1, 0, 2)), env, 0, false);
  }

  /** Exactly one thing can misfile a session: a SynAck moves the session that its payload names even if that session no
      longer waits for one, and keeps its id. `FindOpenSession` asserts that it does not happen. */
  lemma DeliveryFiles(m: Manager, f: Frame, env: Env, id: SessionId, accepts: bool)
    requires m.size > 0 && AllKept(m.sessions) && Deliverable(f) && Filed(m.sessions)
    requires f.kind == Syn ==> Free(id, m.sessions.Keys)
    ensures TableWindows(m.sessions)
    ensures Filed(Deliver(m, f, env, id, accepts).m.sessions)
            <==> !(&& f.kind == SynAck && m.active && f.sid !in m.sessions
                   && f.payload.initialSessionId in m.sessions
                   && m.sessions[f.payload.initialSessionId].s.state != SynSent)
  {
    hide Kept, Coherent, HandleMessage, Bound, Windows;
    KeptHasWindows(m.sessions);
    var d := Deliver(m, f, env, id, accepts);
    if f.kind == Syn {
      if m.active && f.payload.protocol in m.servers {
        var server := m.servers[f.payload.protocol];
        RequestKeepsSession(m, server, f, Negotiate(server.minVersion, server.maxVersion, f.payload).version, id, env);
      }
    } else if f.kind == SynAck && m.active && f.sid !in m.sessions && f.payload.initialSessionId in m.sessions {
      MessageKeepsSession(m.sessions[f.payload.initialSessionId].s, f, env);
      assert f.sid in d.m.sessions;
    } else if f.sid in m.sessions {
      if f.kind == SynAck || m.sessions[f.sid].s.state != Closed {
        MessageKeepsSession(m.sessions[f.sid].s, f, env);
      }
    }
  }

  // ------------------------------------------------------------------ runs of a manager

  predicate IsPendingId(id: SessionId) {
    0 < id < CLIENT_SESSION_IDS
  }

  /** What peers send whose own managers draw ids this way: requests come under pending ids, and everything that is said
      by a server session, under an id no client draws. */
  predicate FromPeer(f: Frame) {
    && Deliverable(f)
    && (f.kind == Syn ==> IsPendingId(f.sid))
    && (f.kind == SynAck ==> f.sid >= CLIENT_SESSION_IDS && IsPendingId(f.payload.initialSessionId))
    && (f.kind == Fin ==> f.sid >= CLIENT_SESSION_IDS)
  }

  // What a session's user may do to it.
  datatype Use =
    | Sends(data: Bytes, waits: bool) | Receives(room: nat) | Shuts(reason: Result) | Closes(why: Result) | Lets

  function Used(s: Session, use: Use): Session
    requires Windows(s)
  {
    match use
    case Sends(data, waits) => Send(s, data, waits).0
    case Receives(room) => Receive(s, room).0
    case Shuts(reason) => Shutdown(s, reason)
    case Closes(reason) => Close(s, reason)
    case Lets => Orphan(s)
  }

  function Updated(s: Session, env: Env): Session
    requires Windows(s)
  {
    UpdateTermination(UpdateWindows(s, env).s).s
  }

  /** Updates every session, and removes those that are closed by then. */
  function UpdateSessions(t: Table, envs: SessionId -> Env): Table
    requires TableWindows(t)
  {
    map id | id in t && Updated(t[id].s, envs(id)).state != Closed :: Held(Updated(t[id].s, envs(id)), t[id].owner)
  }

  /** Unregistering a protocol server closes all sessions that still report to it, and no others. */
  function Disowned(t: Table, identity: nat): Table {
    map id | id in t :: t[id].(s := CloseIfOwnedBy(t[id].s, t[id].owner == identity).s)
  }

  datatype Event =
    | Establishes(counter: nat, protocol: nat, owner: nat, minVersion: Version, maxVersion: Version)
    | Delivers(f: Frame, env: Env, drawn: nat, accepts: bool)
    | Updates(envs: SessionId -> Env)
    | Uses(id: SessionId, use: Use)
    | Unregisters(unregistered: nat, identity: nat)

  predicate Registered(m: Manager, protocol: nat, identity: nat) {
    protocol in m.servers && m.servers[protocol].identity == identity
  }

  ghost predicate Proper(m: Manager, e: Event) {
    match e
    case Establishes(counter, _, _, _, _) => Free(Compose(counter, INVALID_SESSION_ID), m.sessions.Keys)
    case Delivers(f, _, drawn, _) => FromPeer(f) && (f.kind == Syn ==> Free(Compose(drawn, f.sid), m.sessions.Keys))
    case Updates(_) => true
    case Uses(id, _) => id in m.sessions
    case Unregisters(_, _) => true
  }

  function Step(m: Manager, e: Event): Manager
    requires m.size > 0 && TableWindows(m.sessions) && Proper(m, e)
  {
    match e
    case Establishes(counter, protocol, owner, minVersion, maxVersion) =>
      Requested(m, Compose(counter, INVALID_SESSION_ID), protocol, owner, minVersion, maxVersion)
    case Delivers(f, env, drawn, accepts) => Deliver(m, f, env, Compose(drawn, f.sid), accepts).m
    case Updates(envs) => m.(sessions := UpdateSessions(m.sessions, envs))
    case Uses(id, use) => m.(sessions := m.sessions[id := m.sessions[id].(s := Used(m.sessions[id].s, use))])
    case Unregisters(protocol, identity) =>
      if Registered(m, protocol, identity) then
        m.(sessions := Disowned(m.sessions, identity), servers := m.servers - {protocol})
      else m
  }

  // The low ids are those of sessions that wait for their SynAck, or have failed.
  ghost predicate InPlace(id: SessionId, s: Session) {
    && Kept(s)
    && (s.state != Closed ==> s.sid == id)
    && (s.state == SynSent ==> id < CLIENT_SESSION_IDS)
    && (id < CLIENT_SESSION_IDS ==> s.state == SynSent || s.state == Closed)
  }

  ghost predicate Ordered(m: Manager) {
    m.size > 0 && forall id :: id in m.sessions ==> InPlace(id, m.sessions[id].s)
  }

  lemma OrderedHasWindows(m: Manager)
    requires Ordered(m)
    ensures AllKept(m.sessions) && TableWindows(m.sessions)
  {}

  lemma DeliveryKeepsOrder(m: Manager, f: Frame, env: Env, id: SessionId, accepts: bool)
    requires Ordered(m) && TableWindows(m.sessions) && FromPeer(f)
    requires f.kind == Syn ==> id >= CLIENT_SESSION_IDS
    ensures Ordered(Deliver(m, f, env, id, accepts).m)
  {
    hide Kept, Coherent, HandleMessage, Bound, Windows;
    if f.kind == Syn {
      if m.active && f.payload.protocol in m.servers {
        var server := m.servers[f.payload.protocol];
        RequestKeepsSession(m, server, f, Negotiate(server.minVersion, server.maxVersion, f.payload).version, id, env);
      }
    } else if f.kind == SynAck && m.active && f.sid !in m.sessions && f.payload.initialSessionId in m.sessions {
      MessageKeepsSession(m.sessions[f.payload.initialSessionId].s, f, env);
    } else if f.sid in m.sessions {
      if f.kind == SynAck || m.sessions[f.sid].s.state != Closed {
        MessageKeepsSession(m.sessions[f.sid].s, f, env);
      }
    }
  }

  lemma UpdateKeepsSession(s: Session, env: Env)
    requires Kept(s)
    ensures Kept(Updated(s, env)) && Updated(s, env).sid == s.sid
    ensures Updated(s, env).state == s.state || Updated(s, env).state == Closed
            || (s.state != SynSent && s.state != Closed && Updated(s, env).state != SynSent)
  {
    hide LogShape, BufferKinds, FinMeansClosing, SendGrows, RecvGrows, AllGenuine, Windows, UpdateWindows;
    if s.send.log != [] {
      UpdateWindowsIsReported(s, env);
      SameLogLength(s, UpdateWindows(s, env).s);
      OrphanKeeps(UpdateWindows(s, env).s);
    } else {
      UpdateOfRejected(s, env);
    }
  }

  lemma OrphanKeeps(s: Session)
    requires Kept(s)
    ensures Kept(Orphan(s)) && Kept(UpdateTermination(s).s)
  {}

  lemma UpdateOfRejected(s: Session, env: Env)
    requires Kept(s) && s.send.log == []
    ensures Updated(s, env) == s
  {}

  lemma UseKeepsSession(s: Session, use: Use)
    requires Kept(s)
    ensures Kept(Used(s, use)) && Used(s, use).sid == s.sid
    ensures Used(s, use).state == s.state || Used(s, use).state == Closed
            || (s.state != SynSent && s.state != Closed && Used(s, use).state != SynSent)
  {
    match use {
      case Sends(data, waits) => SendKeeps(s, data, waits);
      case Receives(room) => ReceiveKeeps(s, room);
      case Shuts(reason) => ShutdownKeeps(s, reason);
      case Closes(reason) => ShutdownKeeps(Orphan(s), reason);
      case Lets => OrphanKeeps(s);
    }
  }

  lemma DisownKeepsSession(s: Session, isOwner: bool)
    requires Kept(s)
    ensures var t := CloseIfOwnedBy(s, isOwner).s;
            && Kept(t) && t.sid == s.sid
            && (t.state == s.state || t.state == Closed
                || (s.state != SynSent && s.state != Closed && t.state != SynSent))
  {
    ShutdownKeeps(Orphan(s), Success);
  }

  /** Every open session stays under its own id, over every step. */
  lemma StepKeepsOrder(m: Manager, e: Event)
    requires Ordered(m) && Proper(m, e)
    ensures TableWindows(m.sessions) && Ordered(Step(m, e))
  {
    hide Kept, Coherent, HandleMessage, Bound, Windows, Deliver, Updated, Used, CloseIfOwnedBy, Connect;
    OrderedHasWindows(m);
    match e {
      case Establishes(counter, protocol, owner, minVersion, maxVersion) =>
        ConnectedIsKept(m, Compose(counter, INVALID_SESSION_ID), protocol, minVersion, maxVersion);
      case Delivers(f, env, drawn, accepts) => DeliveryKeepsOrder(m, f, env, Compose(drawn, f.sid), accepts);
      case Updates(envs) =>
        forall id | id in m.sessions ensures Updated(m.sessions[id].s, envs(id)).state != Closed ==>
                                               InPlace(id, Updated(m.sessions[id].s, envs(id))) {
          UpdateKeepsSession(m.sessions[id].s, envs(id));
        }
      case Uses(id, use) => UseKeepsSession(m.sessions[id].s, use);
      case Unregisters(protocol, identity) =>
        forall id | id in m.sessions
          ensures InPlace(id, CloseIfOwnedBy(m.sessions[id].s, m.sessions[id].owner == identity).s)
        {
          DisownKeepsSession(m.sessions[id].s, m.sessions[id].owner == identity);
        }
    }
  }

  lemma ConnectedIsKept(m: Manager, id: SessionId, protocol: nat, minVersion: Version, maxVersion: Version)
    requires m.size > 0 && IsPendingId(id)
    ensures InPlace(id, Connect(New(m.size), protocol, minVersion, maxVersion, id).0)
  {
    ConnectOpens(m.size, SESSION_PROTOCOL_VERSION, protocol, minVersion, maxVersion, id);
    assert New(m.size).(sessionVersion := SESSION_PROTOCOL_VERSION) == New(m.size);
  }

  /** The session of a connecting client waits under its id, with the request queued that asks for the versions wanted;
      nothing else in the table changes. */
  lemma RequestsAreQueued(m: Manager, id: SessionId, protocol: nat, owner: nat, minVersion: Version,
                          maxVersion: Version)
    requires m.size > 0 && id != INVALID_SESSION_ID
    ensures var t := Requested(m, id, protocol, owner, minVersion, maxVersion).sessions;
            && t.Keys == m.sessions.Keys + {id} && t[id].owner == owner
            && (forall other :: other in m.sessions && other != id ==> t[other] == m.sessions[other])
            && t[id].s.state == SynSent && t[id].s.sid == id && t[id].s.owner.Some?
            && t[id].s.send.log
               == [Entry(Syn, id, SynInfo(protocol, minVersion, maxVersion, SESSION_PROTOCOL_VERSION))]
  {
    ConnectOpens(m.size, SESSION_PROTOCOL_VERSION, protocol, minVersion, maxVersion, id);
    assert New(m.size).(sessionVersion := SESSION_PROTOCOL_VERSION) == New(m.size);
  }

  /** Manager `i` of a run: an empty table, or what the event before it made of the manager before it. */
  ghost predicate ManagerAt(size: nat, events: seq<Event>, ms: seq<Manager>, i: nat)
    requires |ms| == |events| + 1 && i <= |events|
  {
    if i == 0 then ms[0].size == size && ms[0].sessions == map[]
    else ms[i - 1].size > 0 && TableWindows(ms[i - 1].sessions) && Proper(ms[i - 1], events[i - 1])
         && ms[i] == Step(ms[i - 1], events[i - 1])
  }

  ghost predicate IsHistory(size: nat, events: seq<Event>, ms: seq<Manager>) {
    |ms| == |events| + 1 && forall i :: 0 <= i <= |events| ==> ManagerAt(size, events, ms, i)
  }

  lemma {:induction false} ManagersAreOrdered(size: nat, events: seq<Event>, ms: seq<Manager>, i: nat)
    requires size > 0 && IsHistory(size, events, ms) && i <= |events|
    ensures Ordered(ms[i])
  {
    hide InPlace, Step, Proper;
    assert ManagerAt(size, events, ms, i);
    if i > 0 {
      ManagersAreOrdered(size, events, ms, i - 1);
      StepKeepsOrder(ms[i - 1], events[i - 1]);
    }
  }

  /** In every run from an empty table every open session is stored under its own id, across all re-keying; so the
      assert of the lookup holds for all but closed sessions. */
  lemma OpenSessionsAreFiled(size: nat, events: seq<Event>, ms: seq<Manager>, i: nat)
    requires size > 0 && IsHistory(size, events, ms) && i <= |events|
    ensures forall id :: IsOpen(ms[i].sessions, id) ==> ms[i].sessions[id].s.sid == id
  {
    ManagersAreOrdered(size, events, ms, i);
    FiledByPlace(ms[i]);
  }

  lemma FiledByPlace(m: Manager)
    requires Ordered(m)
    ensures forall id :: IsOpen(m.sessions, id) ==> m.sessions[id].s.sid == id
  {}

  /** Unregistering leaves no session that reports to the server: each is orphaned and on its way out. */
  lemma UnregisteredServersAreLeft(t: Table, identity: nat, id: SessionId)
    requires id in t
    ensures id in Disowned(t, identity)
    ensures var s := Disowned(t, identity)[id].s;
            if t[id].owner == identity && t[id].s.owner.Some?
            then s.owner.None? && Rank(s.state) !in {1, 2, 3, 4}
            else s == t[id].s
  {}

  // ------------------------------------------------------------------ the manager object

  // Each key exactly once, but for those that are left.
  ghost predicate Visited(order: seq<SessionId>, keys: set<SessionId>, left: set<SessionId>) {
    && (forall id :: id in order <==> id in keys && id !in left)
    && (forall i, j :: 0 <= i < j < |order| ==> order[i] != order[j])
  }

  lemma NothingVisited(keys: set<SessionId>)
    ensures Visited([], keys, keys)
  {}

  lemma VisitOne(order: seq<SessionId>, keys: set<SessionId>, left: set<SessionId>, id: SessionId)
    requires Visited(order, keys, left) && id in left && left <= keys
    ensures Visited(order + [id], keys, left - {id})
  {}

  // The frames of an update that takes the sessions in the given order.
  function Outputs(t: Table, order: seq<SessionId>, envs: SessionId -> Env): seq<Frame>
    requires TableWindows(t)
  {
    if order == [] then []
    else
      var id := order[|order| - 1];
      Outputs(t, order[..|order| - 1], envs) + if id in t then UpdateWindows(t[id].s, envs(id)).out else []
  }

  lemma NothingSent(t: Table, envs: SessionId -> Env)
    requires TableWindows(t)
    ensures Outputs(t, [], envs) == []
  {}

  lemma UpdateIsBothParts(s: Session, env: Env)
    requires Windows(s)
    ensures Updated(s, env) == UpdateTermination(UpdateWindows(s, env).s).s
  {}

  lemma OutputsAppend(t: Table, order: seq<SessionId>, envs: SessionId -> Env, id: SessionId)
    requires TableWindows(t) && id in t
    ensures Outputs(t, order + [id], envs) == Outputs(t, order, envs) + UpdateWindows(t[id].s, envs(id)).out
  {
    assert (order + [id])[..|order|] == order;
  }

  // The table half way through an update.
  function PartlyUpdated(t: Table, left: set<SessionId>, envs: SessionId -> Env): Table
    requires TableWindows(t)
  {
    map id | id in t && (id in left || Updated(t[id].s, envs(id)).state != Closed) ::
      if id in left then t[id] else Held(Updated(t[id].s, envs(id)), t[id].owner)
  }

  lemma NothingUpdated(t: Table, envs: SessionId -> Env)
    requires TableWindows(t)
    ensures PartlyUpdated(t, t.Keys, envs) == t
  {}

  lemma OneMoreUpdated(t: Table, left: set<SessionId>, envs: SessionId -> Env, id: SessionId)
    requires TableWindows(t) && left <= t.Keys && id in left
    ensures var before, u := PartlyUpdated(t, left, envs), Updated(t[id].s, envs(id));
            && id in before && before[id] == t[id]
            && PartlyUpdated(t, left - {id}, envs)
               == if u.state == Closed then before - {id} else before[id := Held(u, t[id].owner)]
  {
    hide Updated, Windows;
  }

  lemma AllUpdated(t: Table, envs: SessionId -> Env)
    requires TableWindows(t) && AllKept(t)
    ensures PartlyUpdated(t, {}, envs) == UpdateSessions(t, envs)
    ensures AllKept(UpdateSessions(t, envs)) && TableWindows(UpdateSessions(t, envs))
  {
    hide Kept, Updated;
    forall id | id in t ensures Kept(Updated(t[id].s, envs(id))) {
      UpdateKeepsSession(t[id].s, envs(id));
    }
    KeptHasWindows(UpdateSessions(t, envs));
  }

  class SessionManager {
    const size: nat
    var active: bool
    var lastSessionId: nat
    var sessions: Table
    var protocolServers: map<nat, Server>
    var channel: seq<Frame>

    function Value(): Manager
      reads this
    {
      Manager(size, active, sessions, protocolServers)
    }

    ghost predicate Valid()
      reads this
    {
      size > 0 && lastSessionId < ID_SPACE && AllKept(sessions) && TableWindows(sessions)
    }

    ghost predicate HasFreeId(remote: SessionId)
      reads this
    {
      exists low: nat :: low < CLIENT_SESSION_IDS && Free(Compose(low, remote), sessions.Keys)
    }

    constructor (size: nat, seed: nat)
      requires size > 0 && seed < ID_SPACE
      ensures Valid() && Value() == Manager(size, true, map[], map[]) && lastSessionId == seed && channel == []
    {
      this.size, active, lastSessionId := size, true, seed;
      sessions, protocolServers, channel := map[], map[], [];
    }

    /** Counts on until the id is free; it ends whenever some low half is free for the peer's id, and draws the first
        free one. */
    method GetNewSessionId(remote: SessionId) returns (sessionId: SessionId, ghost steps: nat)
      requires lastSessionId < ID_SPACE && HasFreeId(remote)
      modifies this`lastSessionId
      ensures lastSessionId < ID_SPACE
      ensures sessionId == Compose(lastSessionId, remote) && Free(sessionId, sessions.Keys)
      ensures 1 <= steps <= CLIENT_SESSION_IDS && lastSessionId == (old(lastSessionId) + steps) % ID_SPACE
      ensures forall j: nat :: 1 <= j < steps ==> !Free(Drawn(old(lastSessionId), j, remote), sessions.Keys)
    {
      hide Compose, Distance;
      ghost var start := lastSessionId;
      ghost var low: nat :| low < CLIENT_SESSION_IDS && Free(Compose(low, remote), sessions.Keys);
      ghost var enough := Distance(start, low);
      SameLowHalf(start + enough, low, remote);
      CounterWraps(start, 0, remote);
      CounterWraps(start, 1, remote);
      lastSessionId := (lastSessionId + 1) % ID_SPACE;
      steps := 1;
      sessionId := Compose(lastSessionId, remote);
      while sessionId == INVALID_SESSION_ID || sessionId in sessions
        invariant 1 <= steps <= enough && lastSessionId == (start + steps) % ID_SPACE
        invariant sessionId == Compose(lastSessionId, remote) == Drawn(start, steps, remote)
        invariant forall j: nat :: 1 <= j < steps ==> !Free(Drawn(start, j, remote), sessions.Keys)
        decreases enough - steps
      {
        CounterWraps(start, steps, remote);
        CounterWraps(start, steps + 1, remote);
        lastSessionId := (lastSessionId + 1) % ID_SPACE;
        steps := steps + 1;
        sessionId := Compose(lastSessionId, remote);
      }
    }

    lemma SameLowHalf(counter: nat, low: nat, remote: SessionId)
      requires counter % CLIENT_SESSION_IDS == low
      ensures Compose(counter, remote) == Compose(low, remote)
    {}

    method EstablishSessionForClient(protocol: nat, owner: nat, minVersion: Version, maxVersion: Version)
      returns (result: Result)
      requires Valid() && HasFreeId(INVALID_SESSION_ID)
      modifies this`lastSessionId, this`sessions
      ensures Valid() && result == Success
      ensures var e := Establishes(lastSessionId, protocol, owner, minVersion, maxVersion);
              Proper(old(Value()), e) && Value() == Step(old(Value()), e)
    {
      hide HandleMessage, Out.Valid, In.Valid;
      var sessionId, _ := GetNewSessionId(INVALID_SESSION_ID);
      ConnectOpens(size, SESSION_PROTOCOL_VERSION, protocol, minVersion, maxVersion, sessionId);
      assert New(size).(sessionVersion := SESSION_PROTOCOL_VERSION) == New(size);
      var (s, r) := Connect(New(size), protocol, minVersion, maxVersion, sessionId);
      result := r;
      if result == Success {
        sessions := sessions[sessionId := Held(s, owner)];
      }
    }

    method RegisterProtocolServer(protocol: nat, server: Server) returns (result: Result)
      requires Valid()
      modifies this`protocolServers
      ensures Valid() && result == (if protocol in old(protocolServers) then Error else Success)
      ensures protocolServers == old(protocolServers) + if result == Success then map[protocol := server] else map[]
    {
      if protocol in protocolServers {
        result := Error;
      } else {
        protocolServers := protocolServers[protocol := server];
        result := Success;
      }
    }

    method FindOpenSession(sessionId: SessionId) returns (key: Option<SessionId>)
      ensures key == if IsOpen(sessions, sessionId) then Some(sessionId) else None
    {
      key := None;
      if sessionId in sessions && sessions[sessionId].s.state != Closed {
        key := Some(sessionId);
      }
    }

    // Finds a server for the request, and binds a fresh session to it.
    method AcceptRequest(f: Frame, accepts: bool) returns (key: Option<SessionId>, reason: Result, version: Version)
      requires Valid() && f.kind == Syn && f.payload.SynInfo? && HasFreeId(f.sid)
      modifies this`lastSessionId, this`sessions
      ensures lastSessionId < ID_SPACE
      ensures var m, id := old(Value()), Compose(lastSessionId, f.sid);
              if !m.active || f.payload.protocol !in m.servers then
                Value() == m && key == None && reason == Unavailable && version == 0
              else
                var server := m.servers[f.payload.protocol];
                var answer := Negotiate(server.minVersion, server.maxVersion, f.payload);
                var b := Bound(m, server, f, answer.version, id);
                version == answer.version
                && if !answer.supported then Value() == m && key == None && reason == VersionMismatch
                   else Free(id, m.sessions.Keys)
                        && if accepts then
                             Value() == m.(sessions := m.sessions[id := Held(b, server.identity)]) && key == Some(id)
                           else
                             Value() == m.(sessions := m.sessions[id := Held(Close(b, Rejected), server.identity)])
                             && key == None && reason == Rejected
    {
      key, reason, version := None, Unavailable, 0;
      if active && f.payload.protocol in protocolServers {
        var server := protocolServers[f.payload.protocol];
        reason := VersionMismatch;
        var maxVersion: Version := f.payload.minVersion;
        if f.payload.clientSessionVersion >= SESSION_PROTOCOL_RANGE_VERSION {
          maxVersion := Max(f.payload.maxVersion, f.payload.minVersion);
        }
        var answer := GetSupportedVersion(server.minVersion, server.maxVersion, f.payload.minVersion, maxVersion);
        version := answer.version;
        if answer.supported {
          reason := Rejected;
          var sessionId, _ := GetNewSessionId(f.sid);
          var (b, result) := BindToServer(New(size), server.minVersion, f.payload.clientSessionVersion, version,
                                          sessionId);
          if result != Success || !accepts {
            b := Close(b, Rejected);
          } else {
            key := Some(sessionId);
          }
          sessions := sessions[sessionId := Held(b, server.identity)];
        }
      }
    }

    /** Takes a received message to its session, or answers it with a reset. */
    method HandleReceivedSessionMessage(f: Frame, env: Env, accepts: bool)
      requires Valid() && Deliverable(f) && (f.kind == Syn ==> HasFreeId(f.sid))
      modifies this`lastSessionId, this`sessions, this`channel
      ensures Valid()
      ensures var d := Deliver(old(Value()), f, env, Compose(lastSessionId, f.sid), accepts);
              Value() == d.m && channel == old(channel) + d.out
    {
      hide Kept, HandleMessage, Windows, Bound, Close;
      ghost var m := Value();
      var key: Option<SessionId> := None;
      var reason, version := Unavailable, 0;
      match f.kind {
        case Syn =>
          key, reason, version := AcceptRequest(f, accepts);
        case SynAck =>
          if active {
            if f.sid in sessions {
              key := Some(f.sid);
            } else if f.payload.initialSessionId in sessions {
              sessions := Rekeyed(sessions, f.payload.initialSessionId, f.sid);
              key := Some(f.sid);
            }
          }
        case Fin | Data | Ack | Rst =>
          key := FindOpenSession(f.sid);
      }
      ghost var drawn := Compose(lastSessionId, f.sid);
      if f.kind != Syn || drawn != INVALID_SESSION_ID {
        DeliveryKeepsSessions(m, f, env, drawn, accepts);
      }
      if key.Some? {
        if f.kind == Syn {
          RequestKeepsSession(m, m.servers[f.payload.protocol], f, version, drawn, env);
        }
        var r := HandleMessage(sessions[key.value].s, f, env);
        sessions := sessions[key.value := sessions[key.value].(s := r.s)];
        channel := channel + r.out;
      } else {
        channel := channel + [Reset(f.sid, reason, version)];
      }
      KeptHasWindows(sessions);
    }

    /** Updates all sessions, in the order the table yields them, removing the closed ones on the way. */
    method UpdateSessions(envs: SessionId -> Env) returns (order: seq<SessionId>)
      requires Valid()
      modifies this`sessions, this`channel
      ensures Valid() && Value() == Step(old(Value()), Updates(envs))
      ensures Visited(order, old(sessions).Keys, {})
      ensures channel == old(channel) + Outputs(old(sessions), order, envs)
    {
      hide Kept, Windows, UpdateWindows, UpdateTermination, Coherent, PartlyUpdated, Outputs, Visited, Updated;
      ghost var t := sessions;
      var left := sessions.Keys;
      order := [];
      NothingUpdated(t, envs);
      assert Outputs(t, order, envs) == [] by {
        NothingSent(t, envs);
      }
      assert Visited(order, t.Keys, left) by {
        NothingVisited(left);
      }
      while left != {}
        invariant left <= t.Keys && AllKept(t) && TableWindows(t)
        invariant Visited(order, t.Keys, left)
        invariant sessions == PartlyUpdated(t, left, envs)
        invariant channel == old(channel) + Outputs(t, order, envs)
        decreases left
      {
        var id :| id in left;
        OneMoreUpdated(t, left, envs, id);
        var r := UpdateWindows(sessions[id].s, envs(id));
        var s := UpdateTermination(r.s).s;
        UpdateIsBothParts(t[id].s, envs(id));
        channel := channel + r.out;
        VisitOne(order, t.Keys, left, id);
        OutputsAppend(t, order, envs, id);
        order := order + [id];
        if s.state == Closed {
          sessions := sessions - {id};
        } else {
          sessions := sessions[id := sessions[id].(s := s)];
        }
        left := left - {id};
      }
      AllUpdated(t, envs);
    }

    /** Closes every session that reports to the server, and forgets the server. */
    method UnregisterProtocolServer(protocol: nat, identity: nat) returns (result: Result)
      requires Valid()
      modifies this`sessions, this`protocolServers
      ensures Valid() && Value() == Step(old(Value()), Unregisters(protocol, identity))
      ensures result == if Registered(old(Value()), protocol, identity) then Success else Error
    {
      hide Kept, Windows, CloseIfOwnedBy, Coherent;
      result := Error;
      if protocol in protocolServers && protocolServers[protocol].identity == identity {
        ghost var t := sessions;
        var left := sessions.Keys;
        while left != {}
          invariant left <= t.Keys == sessions.Keys && AllKept(sessions) && AllKept(t)
          invariant protocolServers == old(protocolServers)
          invariant forall id :: id in left ==> sessions[id] == t[id]
          invariant forall id :: id in t && id !in left ==> sessions[id] == Disowned(t, identity)[id]
          decreases left
        {
          var id :| id in left;
          DisownKeepsSession(t[id].s, t[id].owner == identity);
          var r := CloseIfOwnedBy(sessions[id].s, sessions[id].owner == identity);
          sessions := sessions[id := sessions[id].(s := r.s)];
          left := left - {id};
        }
        assert sessions == Disowned(t, identity);
        protocolServers := protocolServers - {protocol};
        result := Success;
      }
      KeptHasWindows(sessions);
    }
  }

  // ------------------------------------------------------------------ the system of the protocol runs

  // The table of a manager that holds the client's session, if it holds one.
  function ClientTable(c: Peer, owner: nat): Table {
    match c.key
    case Some(k) => map[k := Held(c.s, owner)]
    case None => map[]
  }

  /** A connecting client's manager, active or not, does what the runs have its deliveries do. */
  lemma ClientDeliveriesAgree(m: Manager, sys: System, owner: nat, f: Frame, env: Env, id: SessionId, accepts: bool)
    requires m.size > 0 && m.servers == map[] && SessionSteps.Windows(sys.client.s)
    requires m.sessions == ClientTable(sys.client, owner) && Deliverable(f)
    ensures TableWindows(m.sessions)
    ensures var d, next := Deliver(m, f, env, id, accepts), DeliverToClient(sys, f, env, m.active);
            && d.m.sessions == ClientTable(next.client, owner)
            && next.toServer == sys.toServer + FramesOf(d.out)
            && next.client.calls == sys.client.calls + d.calls
  {
    hide HandleMessage, SessionSteps.Windows;
    OneReset(f.sid, Unavailable, 0);
  }

  // The table of a server's manager in such a system.
  function TableOf(servers: map<SessionId, Peer>, owner: nat): Table {
    map id | id in servers && servers[id].key.Some? :: Held(servers[id].s, owner)
  }

  lemma TableOfUpdated(servers: map<SessionId, Peer>, owner: nat, id: SessionId, p: Peer)
    requires p.key.Some?
    ensures TableOf(servers[id := p], owner) == TableOf(servers, owner)[id := Held(p.s, owner)]
  {}

  lemma TableOfHas(sys: System, owner: nat, id: SessionId)
    ensures IsOpen(TableOf(sys.servers, owner), id)
            <==> id in sys.servers && sys.servers[id].key.Some? && sys.servers[id].s.state != Closed
    ensures id in TableOf(sys.servers, owner) ==>
              id in sys.servers && TableOf(sys.servers, owner)[id] == Held(sys.servers[id].s, owner)
  {}

  lemma TableOfWindows(sys: System, owner: nat)
    requires Protocol.AllWindows(sys)
    ensures TableWindows(TableOf(sys.servers, owner))
  {}

  lemma OneReset(sid: SessionId, reason: Result, version: Version)
    ensures FramesOf([Reset(sid, reason, version)]) == {Reset(sid, reason, version)}
  {}

  /** A rejected session is gone after the next update, as if it had never been there. */
  lemma RejectedLeavesAtUpdate(m: Manager, f: Frame, env: Env, id: SessionId, envs: SessionId -> Env)
    requires m.size > 0 && TableWindows(m.sessions) && Serving(m, f) && Free(id, m.sessions.Keys)
    requires var server := m.servers[f.payload.protocol];
             Negotiate(server.minVersion, server.maxVersion, f.payload).supported
    ensures var d := Deliver(m, f, env, id, false);
            && id in d.m.sessions && d.m.sessions[id].s.state == Closed
            && TableWindows(d.m.sessions) && UpdateSessions(d.m.sessions, envs) == UpdateSessions(m.sessions, envs)
  {
    hide Updated, Windows, Coherent, Bound, Negotiate;
    var server := m.servers[f.payload.protocol];
    var version := Negotiate(server.minVersion, server.maxVersion, f.payload).version;
    RequestKeepsSession(m, server, f, version, id, env);
    var h := Held(Close(Bound(m, server, f, version, id), Rejected), server.identity);
    assert Deliver(m, f, env, id, false).m.sessions == m.sessions[id := h];
    BoundHasNoLog(m, server, f, version, id);
    KeptHasWindows(map[id := h]);
    assert Windows(map[id := h][id].s);
    UpdateOfRejected(h.s, envs(id));
  }

  lemma BoundHasNoLog(m: Manager, server: Server, f: Frame, version: Version, id: SessionId)
    requires f.payload.SynInfo?
    ensures Close(Bound(m, server, f, version, id), Rejected).send.log == []
  {}

  lemma WindowsOfKept(s: Session)
    requires Kept(s)
    ensures SessionSteps.Windows(s)
  {}

  /** One pass of a manager is, for each session in its table, an update and a termination of the runs. */
  lemma PassAgrees(p: Peer, env: Env)
    requires Kept(p.s) && p.key.Some?
    ensures SessionSteps.Windows(p.s)
    ensures var u := PeerStep(p, UpdateOp(env));
            && SessionSteps.Windows(u.p.s) && u.out == UpdateWindows(p.s, env).out
            && var t := PeerStep(u.p, TerminateOp);
            && t.out == [] && t.p.s == Updated(p.s, env)
            && t.p.key == (if Updated(p.s, env).state == Closed then None else p.key)
  {
    hide UpdateWindows, Coherent;
    WindowsOfKept(p.s);
    UpdateKeepsSession(p.s, env);
    WindowsOfKept(Updated(p.s, env));
  }

  // A peer after such a pass; one that is in no table has none.
  ghost predicate IsPassed(p: Peer, env: Env, q: Peer) {
    if p.key.None? then q == p
    else
      && SessionSteps.Windows(p.s) && SessionSteps.Windows(PeerStep(p, UpdateOp(env)).p.s)
      && q == PeerStep(PeerStep(p, UpdateOp(env)).p, TerminateOp).p
  }

  /** So the client's table follows the runs over an update, too, and the frames are those of the run. */
  lemma ClientUpdatesAgree(p: Peer, owner: nat, envs: SessionId -> Env)
    requires p.key.Some? && Kept(p.s)
    ensures TableWindows(ClientTable(p, owner)) && SessionSteps.Windows(p.s)
    ensures exists q :: IsPassed(p, envs(p.key.value), q)
                        && UpdateSessions(ClientTable(p, owner), envs) == ClientTable(q, owner)
    ensures Outputs(ClientTable(p, owner), [p.key.value], envs) == PeerStep(p, UpdateOp(envs(p.key.value))).out
  {
    hide UpdateWindows, Coherent, Updated, SessionSteps.Windows, Kept;
    var k, t := p.key.value, ClientTable(p, owner);
    KeptHasWindows(t);
    PassAgrees(p, envs(k));
    var q := PeerStep(PeerStep(p, UpdateOp(envs(k))).p, TerminateOp).p;
    assert IsPassed(p, envs(k), q);
    assert Outputs(t, [] + [k], envs) == Outputs(t, [], envs) + UpdateWindows(t[k].s, envs(k)).out by {
      OutputsAppend(t, [], envs, k);
    }
    assert [] + [k] == [k];
  }

  /** And so does the server's. */
  lemma ServerUpdatesAgree(servers: map<SessionId, Peer>, owner: nat, envs: SessionId -> Env,
                           passed: map<SessionId, Peer>)
    requires passed.Keys == servers.Keys
    requires forall id :: id in servers ==>
               (servers[id].key.Some? ==> Kept(servers[id].s)) && IsPassed(servers[id], envs(id), passed[id])
    ensures TableWindows(TableOf(servers, owner))
    ensures UpdateSessions(TableOf(servers, owner), envs) == TableOf(passed, owner)
  {
    hide UpdateWindows, Coherent, Updated, SessionSteps.Windows, Kept;
    var t := TableOf(servers, owner);
    KeptHasWindows(t);
    forall id | id in servers && servers[id].key.Some?
      ensures passed[id].s == Updated(servers[id].s, envs(id))
      ensures passed[id].key.Some? <==> passed[id].s.state != Closed
    {
      PassAgrees(servers[id], envs(id));
    }
    forall id | id in servers && servers[id].key.None? ensures passed[id].key.None? {}
  }

  predicate Serving(m: Manager, f: Frame) {
    m.active && f.kind == Syn && f.payload.SynInfo? && f.payload.protocol in m.servers
  }

  /** So does the server's manager; a session that its protocol server rejects stays in its table, closed, until the
      next update, while the runs leave it out at once. */
  lemma ServerDeliveriesAgree(m: Manager, sys: System, owner: nat, f: Frame, env: Env, id: SessionId, accepts: bool)
    requires m.size == sys.cfg.size && Protocol.AllWindows(sys)
    requires m.sessions == TableOf(sys.servers, owner)
    requires Deliverable(f) && f.kind != SynAck && id !in sys.servers && id != INVALID_SESSION_ID
    requires f.kind == Syn && f.payload.protocol in m.servers ==>
               m.servers[f.payload.protocol] == Server(owner, sys.cfg.serverMin, sys.cfg.serverMax)
    ensures TableWindows(m.sessions)
    ensures var d := Deliver(m, f, env, id, accepts);
            var next := DeliverToServer(sys, f, env, id, Serving(m, f), accepts);
            var answer := if f.kind == Syn then Negotiate(sys.cfg.serverMin, sys.cfg.serverMax, f.payload)
                          else Answer(false, 0);
            && next.toClient == sys.toClient + FramesOf(d.out)
            && d.m.sessions
               == if Serving(m, f) && answer.supported && !accepts then
                    var b := Bound(m, m.servers[f.payload.protocol], f, answer.version, id);
                    TableOf(next.servers, owner)[id := Held(Close(b, Rejected), owner)]
                  else TableOf(next.servers, owner)
  {
    hide HandleMessage, SessionSteps.Windows, TableOf, Negotiate;
    assert TableWindows(m.sessions) by { TableOfWindows(sys, owner); }
    OneReset(f.sid, Unavailable, 0);
    if f.kind == Syn {
      if m.active && f.payload.protocol in m.servers {
        var answer := Negotiate(sys.cfg.serverMin, sys.cfg.serverMax, f.payload);
        var p := Accepted(sys.cfg, f, id, answer.version, env);
        OneReset(f.sid, VersionMismatch, answer.version);
        OneReset(f.sid, Rejected, answer.version);
        TableOfUpdated(sys.servers, owner, id, p);
        SynOpens(m.size, sys.cfg.serverMin, f, answer.version, id, env);
      }
    } else {
      TableOfHas(sys, owner, f.sid);
      if f.sid in sys.servers && sys.servers[f.sid].key.Some? && sys.servers[f.sid].s.state != Closed {
        var p := sys.servers[f.sid];
        TableOfUpdated(sys.servers, owner, f.sid, Told(p, HandleMessage(p.s, f, env)));
      }
    }
  }
}
