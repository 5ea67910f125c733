/** The router's books: which client is reached over which transport, and which the client manager knows. */
module RouterBooks {
  import opened Wire

  type ClientId = nat
  type Handle = nat

  const BROADCAST_CLIENT_ID: ClientId := 0
  const CLIENT_TIMEOUT_COUNT := 3
  const CLIENT_DISCOVERY_INTERVAL_IN_MS := 3000

  // A transport with the address of a peer on it.
  datatype Connection = Connection(handle: Handle, address: nat)

  datatype ClientContext = ClientContext(
    connection: Connection, pingRetryCount: nat, receivedPong: bool, registeredClient: bool, hasBeenIdentified: bool)

  datatype Transport = Transport(forwarding: bool, clients: map<ClientId, Connection>)

  /** The two maps, the clients the client manager holds besides the host, and the ids it was told to forget. */
  datatype Books = Books(
    clients: map<ClientId, ClientContext>,
    transports: map<Handle, Transport>,
    managed: set<ClientId>,
    unregistered: seq<ClientId>)

  // ------------------------------------------------------------------ agreement

  ghost predicate ClientsHaveTransports(b: Books, inFlight: set<ClientId>) {
    forall id :: id in b.clients && id !in inFlight ==>
      var c := b.clients[id].connection;
      c.handle in b.transports && id in b.transports[c.handle].clients && b.transports[c.handle].clients[id] == c
  }

  ghost predicate TransportsHaveClients(b: Books, inFlight: set<ClientId>) {
    forall h, id :: h in b.transports && id in b.transports[h].clients ==>
      && id in b.clients && id !in inFlight
      && b.clients[id].connection == b.transports[h].clients[id] && b.clients[id].connection.handle == h
  }

  ghost predicate FlaggedAreManaged(b: Books, inFlight: set<ClientId>) {
    forall id :: id in b.managed <==> id in b.clients && id !in inFlight && b.clients[id].registeredClient
  }

  /** The maps agree, but for clients whose removal is under way: those are still known, but no longer reachable, and
      the client manager has been told. */
  ghost predicate Agrees(b: Books, inFlight: set<ClientId>) {
    && BROADCAST_CLIENT_ID !in b.clients && inFlight <= b.clients.Keys
    && ClientsHaveTransports(b, inFlight) && TransportsHaveClients(b, inFlight) && FlaggedAreManaged(b, inFlight)
  }

  // ------------------------------------------------------------------ adding

  // Both emplacements leave an entry alone that is there already.
  function Added(b: Books, id: ClientId, connection: Connection, registered: bool): Books {
    if id == BROADCAST_CLIENT_ID || connection.handle !in b.transports then b
    else
      var t := b.transports[connection.handle];
      b.(clients := if id in b.clients then b.clients
                    else b.clients[id := ClientContext(connection, 0, true, registered, false)],
         transports := b.transports[connection.handle := t.(clients := if id in t.clients then t.clients
                                                                       else t.clients[id := connection])])
  }

  function Managed(b: Books, id: ClientId, registered: bool): Books {
    if registered then b.(managed := b.managed + {id}) else b
  }

  lemma AddFreshClient(b: Books, id: ClientId, connection: Connection, registered: bool)
    requires Agrees(b, {}) && id != BROADCAST_CLIENT_ID && connection.handle in b.transports && id !in b.clients
    ensures Agrees(Added(Managed(b, id, registered), id, connection, registered), {})
  {
    var a := Added(Managed(b, id, registered), id, connection, registered);
    var h := connection.handle;
    var t := b.transports[h];
    var c := ClientContext(connection, 0, true, registered, false);
    assert id !in t.clients;
    assert a.clients == b.clients[id := c];
    assert a.transports == b.transports[h := t.(clients := t.clients[id := connection])];
    FreshClientHasTransport(b, a, id, c);
    FreshTransportHasClient(b, a, id, c);
    assert FlaggedAreManaged(a, {});
  }

  lemma FreshClientHasTransport(b: Books, a: Books, id: ClientId, c: ClientContext)
    requires ClientsHaveTransports(b, {}) && id !in b.clients && c.connection.handle in b.transports
    requires a.clients == b.clients[id := c]
    requires var t := b.transports[c.connection.handle];
             a.transports == b.transports[c.connection.handle := t.(clients := t.clients[id := c.connection])]
    ensures ClientsHaveTransports(a, {})
  {}

  lemma FreshTransportHasClient(b: Books, a: Books, id: ClientId, c: ClientContext)
    requires TransportsHaveClients(b, {}) && id !in b.clients && c.connection.handle in b.transports
    requires a.clients == b.clients[id := c]
    requires var t := b.transports[c.connection.handle];
             a.transports == b.transports[c.connection.handle := t.(clients := t.clients[id := c.connection])]
    ensures TransportsHaveClients(a, {})
  {
    forall h, k | h in a.transports && k in a.transports[h].clients
      ensures k in a.clients && a.clients[k].connection == a.transports[h].clients[k]
              && a.clients[k].connection.handle == h
    {
      assert k != id || h != c.connection.handle ==> k in b.transports[h].clients;
    }
  }

  lemma AddKnownClient(b: Books, id: ClientId, connection: Connection, registered: bool)
    requires Agrees(b, {}) && connection.handle in b.transports
    requires id in b.clients && b.clients[id].connection.handle == connection.handle
    ensures Added(b, id, connection, registered) == b
    ensures Agrees(Managed(b, id, registered), {}) <==> (registered ==> b.clients[id].registeredClient)
  {
    var t := b.transports[connection.handle];
    assert id in t.clients;
    assert b.transports[connection.handle := t.(clients := t.clients)] == b.transports;
  }

  /** Adding a client keeps the agreement exactly if its id is not known yet, or known on the same transport and, for
      one just registered, as registered. */
  lemma AddKeepsAgreement(b: Books, id: ClientId, connection: Connection, registered: bool)
    requires Agrees(b, {}) && id != BROADCAST_CLIENT_ID && connection.handle in b.transports
    ensures Agrees(Added(Managed(b, id, registered), id, connection, registered), {})
            <==> (|| id !in b.clients
                  || (b.clients[id].connection.handle == connection.handle
                      && (registered ==> b.clients[id].registeredClient)))
  {
    hide Agrees, Managed;
    if id !in b.clients {
      AddFreshClient(b, id, connection, registered);
    } else if b.clients[id].connection.handle == connection.handle {
      AddKnownClient(b, id, connection, registered);
      ManagedLeavesMaps(b, id, connection, registered);
    } else {
      AddElsewhereDisagrees(b, id, connection, registered);
    }
  }

  lemma ManagedLeavesMaps(b: Books, id: ClientId, connection: Connection, registered: bool)
    requires Added(b, id, connection, registered) == b
    ensures Added(Managed(b, id, registered), id, connection, registered) == Managed(b, id, registered)
  {}

  lemma AddElsewhereDisagrees(b: Books, id: ClientId, connection: Connection, registered: bool)
    requires id in b.clients && id != BROADCAST_CLIENT_ID && connection.handle in b.transports
    requires b.clients[id].connection.handle != connection.handle
    ensures !Agrees(Added(Managed(b, id, registered), id, connection, registered), {})
  {
    var a := Added(Managed(b, id, registered), id, connection, registered);
    assert id in a.transports[connection.handle].clients && a.clients[id] == b.clients[id];
  }

  /** Say client 7 was heard of on transport 1; if the client manager then gives id 7 to someone on transport 2, both
      transports reach "client 7", and the client manager holds a client the router does not know as registered. */
  lemma ReusedIdBreaksAgreement()
    ensures var heard := Connection(1, 0);
            var b := Books(map[7 := ClientContext(heard, 0, true, false, false)],
                           map[1 := Transport(false, map[7 := heard]), 2 := Transport(false, map[])], {}, []);
            Agrees(b, {}) && !Agrees(Added(Managed(b, 7, true), 7, Connection(2, 0), true), {})
  {
    var heard := Connection(1, 0);
    var b := Books(map[7 := ClientContext(heard, 0, true, false, false)],
                   map[1 := Transport(false, map[7 := heard]), 2 := Transport(false, map[])], {}, []);
    AddKeepsAgreement(b, 7, Connection(2, 0), true);
  }

  lemma NewTransportAgrees(b: Books, handle: Handle, t: Transport)
    requires Agrees(b, {}) && handle !in b.transports && t.clients == map[]
    ensures Agrees(b.(transports := b.transports[handle := t]), {})
  {}

  // ------------------------------------------------------------------ removing

  /** Each element of the set is in the sequence, once. */
  ghost predicate OnceEach(log: seq<ClientId>, ids: set<ClientId>) {
    && (forall id :: id in log <==> id in ids)
    && (forall i, j :: 0 <= i < j < |log| ==> log[i] != log[j])
  }

  ghost predicate WithoutClients(before: map<Handle, Transport>, after: map<Handle, Transport>, gone: set<ClientId>) {
    && after.Keys == before.Keys
    && forall h :: h in before ==>
         after[h] == before[h].(clients := before[h].clients - gone)
  }

  /** All that a removal changes: the clients that are gone are gone from both maps, and those of them that the client
      manager held it was told to forget, once each. */
  ghost predicate Removes(b: Books, a: Books, gone: set<ClientId>) {
    && gone <= b.clients.Keys
    && a.clients == b.clients - gone
    && WithoutClients(b.transports, a.transports, gone)
    && a.managed == b.managed - gone
    && |b.unregistered| <= |a.unregistered| && a.unregistered[..|b.unregistered|] == b.unregistered
    && OnceEach(a.unregistered[|b.unregistered|..], gone * b.managed)
  }

  lemma NothingRemoved(b: Books)
    ensures Removes(b, b, {})
  {
    assert b.clients - {} == b.clients;
    forall h | h in b.transports ensures b.transports[h] == b.transports[h].(clients := b.transports[h].clients - {}) {
      assert b.transports[h].clients - {} == b.transports[h].clients;
    }
  }

  lemma OnceEachJoin(x: seq<ClientId>, p: set<ClientId>, y: seq<ClientId>, q: set<ClientId>)
    requires OnceEach(x, p) && OnceEach(y, q) && p !! q
    ensures OnceEach(x + y, p + q)
  {
    var z := x + y;
    forall i, j | 0 <= i < j < |z| ensures z[i] != z[j] {
      if i < |x| <= j {
        assert z[i] in x && z[j] in y;
      }
    }
  }

  lemma RemovesTwice(b: Books, m: Books, a: Books, p: set<ClientId>, q: set<ClientId>)
    requires Removes(b, m, p) && Removes(m, a, q)
    ensures Removes(b, a, p + q) && p !! q
  {
    assert b.clients - p - q == b.clients - (p + q);
    forall h | h in b.transports
      ensures a.transports[h] == b.transports[h].(clients := b.transports[h].clients - (p + q))
    {
      assert b.transports[h].clients - p - q == b.transports[h].clients - (p + q);
    }
    var n := |b.unregistered|;
    var x, y := m.unregistered[n..], a.unregistered[|m.unregistered|..];
    assert a.unregistered[n..] == x + y;
    OnceEachJoin(x, p * b.managed, y, q * m.managed);
    assert p * b.managed + q * m.managed == (p + q) * b.managed;
  }

  lemma RemovalKeepsAgreement(b: Books, a: Books, gone: set<ClientId>, inFlight: set<ClientId>)
    requires Agrees(b, inFlight) && Removes(b, a, gone) && gone !! inFlight
    ensures Agrees(a, inFlight)
  {
    hide OnceEach;
    forall id | id in a.clients && id !in inFlight
      ensures var c := a.clients[id].connection;
              && c.handle in a.transports && id in a.transports[c.handle].clients
              && a.transports[c.handle].clients[id] == c
    {
      assert b.clients[id] == a.clients[id];
    }
  }

  // The first half of a removal: unreachable, and unregistered if it was registered.
  function Detached(b: Books, id: ClientId): Books
    requires id in b.clients && b.clients[id].connection.handle in b.transports
  {
    var h := b.clients[id].connection.handle;
    var t := b.transports[h];
    var d := b.(transports := b.transports[h := t.(clients := t.clients - {id})]);
    if b.clients[id].registeredClient then d.(managed := b.managed - {id}, unregistered := b.unregistered + [id]) else d
  }

  lemma DetachedAgrees(b: Books, id: ClientId, inFlight: set<ClientId>)
    requires Agrees(b, inFlight) && id in b.clients && id !in inFlight
    ensures b.clients[id].connection.handle in b.transports
    ensures Agrees(Detached(b, id), inFlight + {id})
  {}

  // What is told to the client manager, over a detachment and what follows it.
  lemma DetachTells(b: Books, a: Books, id: ClientId, gone: set<ClientId>)
    requires id in b.clients && b.clients[id].connection.handle in b.transports && id !in gone
    requires b.clients[id].registeredClient <==> id in b.managed
    requires Removes(Detached(b, id), a, gone)
    ensures var n := |b.unregistered|;
            && n <= |a.unregistered| && a.unregistered[..n] == b.unregistered
            && OnceEach(a.unregistered[n..], (gone + {id}) * b.managed)
    ensures a.managed == b.managed - (gone + {id})
  {
    hide OnceEach;
    var d := Detached(b, id);
    var n := |b.unregistered|;
    var y := a.unregistered[|d.unregistered|..];
    if b.clients[id].registeredClient {
      assert a.unregistered[..n + 1][..n] == a.unregistered[..n];
      assert a.unregistered[n] == a.unregistered[..n + 1][n] == id;
      assert a.unregistered[n..] == [id] + y;
      OnceAlone(id);
      OnceEachJoin([id], {id}, y, gone * d.managed);
      assert (gone + {id}) * b.managed == {id} + gone * d.managed;
    } else {
      assert (gone + {id}) * b.managed == gone * d.managed;
    }
  }

  lemma OnceAlone(id: ClientId)
    ensures OnceEach([id], {id})
  {}

  lemma DetachLeaves(b: Books, after: map<Handle, Transport>, id: ClientId, gone: set<ClientId>,
                     inFlight: set<ClientId>)
    requires Agrees(b, inFlight) && id in b.clients && id !in inFlight
    requires b.clients[id].connection.handle in b.transports
    requires WithoutClients(Detached(b, id).transports, after, gone)
    ensures WithoutClients(b.transports, after, gone + {id})
  {
    var d := Detached(b, id);
    forall h | h in b.transports
      ensures after[h] == b.transports[h].(clients := b.transports[h].clients - (gone + {id}))
    {
      assert d.transports[h].clients == b.transports[h].clients - {id};
      assert b.transports[h].clients - {id} - gone == b.transports[h].clients - (gone + {id});
    }
  }

  /** A detached client that is at last forgotten, with what the announcement of its departure removed. */
  lemma DetachThenForget(b: Books, a: Books, id: ClientId, gone: set<ClientId>, inFlight: set<ClientId>)
    requires Agrees(b, inFlight) && id in b.clients && id !in inFlight
    requires b.clients[id].connection.handle in b.transports
    requires Removes(Detached(b, id), a, gone) && gone !! inFlight + {id}
    ensures Removes(b, a.(clients := a.clients - {id}), gone + {id})
  {
    hide OnceEach, WithoutClients;
    DetachTells(b, a, id, gone);
    DetachLeaves(b, a.transports, id, gone, inFlight);
    assert b.clients - gone - {id} == b.clients - (gone + {id});
  }

  // ------------------------------------------------------------------ pinging

  /** One discovery round for one client: an answer since the last round starts the count over. */
  function Aged(c: ClientContext): ClientContext {
    if c.receivedPong then c.(pingRetryCount := 0, receivedPong := false)
    else c.(pingRetryCount := c.pingRetryCount + 1)
  }

  predicate TimedOut(c: ClientContext) {
    Aged(c).pingRetryCount > CLIENT_TIMEOUT_COUNT
  }

  function AfterRounds(c: ClientContext, rounds: nat): ClientContext {
    if rounds == 0 then c else Aged(AfterRounds(c, rounds - 1))
  }

  /** A client that falls silent right after an answer survives exactly four rounds, and not the fifth. */
  lemma {:induction false} SilenceIsNoticed(c: ClientContext, rounds: nat)
    requires c.receivedPong
    ensures AfterRounds(c, rounds + 1) == c.(pingRetryCount := rounds, receivedPong := false)
    ensures TimedOut(AfterRounds(c, rounds)) <==> rounds >= CLIENT_TIMEOUT_COUNT + 1
  {
    if rounds > 0 {
      SilenceIsNoticed(c, rounds - 1);
    }
  }

  function AgedClients(b: Books, ids: set<ClientId>): Books {
    b.(clients := map id | id in b.clients :: if id in ids then Aged(b.clients[id]) else b.clients[id])
  }

  lemma AgingKeepsAgreement(b: Books, ids: set<ClientId>, inFlight: set<ClientId>)
    requires Agrees(b, inFlight)
    ensures Agrees(AgedClients(b, ids), inFlight)
  {
    var a := AgedClients(b, ids);
    forall id | id in a.clients
      ensures id in b.clients && a.clients[id].connection == b.clients[id].connection
              && a.clients[id].registeredClient == b.clients[id].registeredClient
    {}
    forall h, id | h in a.transports && id in a.transports[h].clients
      ensures id in a.clients && id !in inFlight && a.clients[id].connection == a.transports[h].clients[id]
              && a.clients[id].connection.handle == h
    {
      assert id in b.transports[h].clients;
    }
  }

  lemma NobodyAged(b: Books)
    ensures AgedClients(b, {}) == b
  {}

  // One more client visited: aged if it is still there.
  lemma OneMoreAged(b: Books, ids: set<ClientId>, id: ClientId, a: Books, gone: set<ClientId>)
    requires id in b.clients && id !in ids && Removes(AgedClients(b, ids), a, gone)
    ensures id in a.clients <==> id !in gone
    ensures id in a.clients ==> a.clients[id] == b.clients[id]
    ensures Removes(AgedClients(b, ids + {id}),
                    if id in gone then a else a.(clients := a.clients[id := Aged(a.clients[id])]), gone)
  {
    hide OnceEach, WithoutClients, Aged;
  }

  // ------------------------------------------------------------------ the router

  datatype SystemMessage = ClientConnected | ClientDisconnected | Pong | ClientInfo | OtherMessage

  /** What a system message says about its sender: an unknown one is added, unless it leaves; an answer is noted. */
  function Noted(b: Books, kind: SystemMessage, src: ClientId, connection: Connection): Books {
    if src !in b.clients then
      if kind == ClientDisconnected then b else Added(b, src, connection, false)
    else if kind == Pong then b.(clients := b.clients[src := b.clients[src].(receivedPong := true)])
    else if kind == ClientInfo then
      var c := b.clients[src].(pingRetryCount := 0, receivedPong := true, hasBeenIdentified := true);
      b.(clients := b.clients[src := c])
    else b
  }

  // Is the sender asked who it is?
  predicate Queries(b: Books, kind: SystemMessage, src: ClientId) {
    if src !in b.clients then kind != ClientDisconnected
    else (kind == ClientConnected || kind == Pong) && !b.clients[src].hasBeenIdentified
  }

  lemma NotingKeepsAgreement(b: Books, kind: SystemMessage, src: ClientId, connection: Connection)
    requires Agrees(b, {}) && src != BROADCAST_CLIENT_ID && connection.handle in b.transports
    ensures Agrees(Noted(b, kind, src, connection), {})
  {
    hide Agrees;
    if src !in b.clients {
      AddFreshClient(b, src, connection, false);
    } else {
      ChangeKeepsAgreement(b, src, Noted(b, kind, src, connection).clients[src]);
      assert b.(clients := b.clients[src := b.clients[src]]) == b;
    }
  }

  lemma ChangeKeepsAgreement(b: Books, id: ClientId, c: ClientContext)
    requires Agrees(b, {}) && id in b.clients
    requires c.connection == b.clients[id].connection && c.registeredClient == b.clients[id].registeredClient
    ensures Agrees(b.(clients := b.clients[id := c]), {})
  {}

  /** What is heard of a sender: any word but goodbye makes a stranger a client, an answer starts a client's count over
      - either way it then has four rounds - and its name makes it identified; nobody else is affected. */
  lemma SendersAreNoted(b: Books, kind: SystemMessage, src: ClientId, connection: Connection, rounds: nat)
    requires Agrees(b, {}) && src != BROADCAST_CLIENT_ID && connection.handle in b.transports
    ensures var a := Noted(b, kind, src, connection);
            && (src in a.clients <==> src in b.clients || kind != ClientDisconnected)
            && (src !in b.clients && src in a.clients ==>
                  a.clients[src].connection == connection && !a.clients[src].registeredClient)
            && (src in a.clients && (src !in b.clients || kind in {Pong, ClientInfo}) ==>
                  (TimedOut(AfterRounds(a.clients[src], rounds)) <==> rounds >= CLIENT_TIMEOUT_COUNT + 1))
            && (src in b.clients && kind !in {Pong, ClientInfo} ==> a == b)
            && (src in b.clients ==>
                  (a.clients[src].hasBeenIdentified <==> b.clients[src].hasBeenIdentified || kind == ClientInfo))
            && a.managed == b.managed && a.unregistered == b.unregistered
            && forall id :: id in b.clients && id != src ==> id in a.clients && a.clients[id] == b.clients[id]
  {
    var a := Noted(b, kind, src, connection);
    if src in a.clients && a.clients[src].receivedPong {
      SilenceIsNoticed(a.clients[src], rounds);
    }
  }

  /** Whoever is not known is asked for its name; so is a client that has not told it, when it connects or answers; once
      it has, it is never asked again. */
  lemma QuestionsAreForStrangers(b: Books, src: ClientId, connection: Connection, kind: SystemMessage)
    ensures src !in b.clients && kind != ClientDisconnected ==> Queries(b, kind, src)
    ensures src in b.clients && !b.clients[src].hasBeenIdentified ==>
              Queries(b, Pong, src) && Queries(b, ClientConnected, src)
    ensures src in b.clients ==> !Queries(Noted(b, ClientInfo, src, connection), kind, src)
  {}

  /** What a connect request does to the books before anyone is told: a new address gets the id just registered. */
  function Accepted(b: Books, connection: Connection, wellSized: bool, known: Option<ClientId>,
                    registration: Option<ClientId>)
    : Books
  {
    if wellSized && connection.handle in b.transports && known.None? && registration.Some? then
      Added(Managed(b, registration.value, true), registration.value, connection, true)
    else b
  }

  ghost predicate Reaches(b: Books, id: ClientId, connection: Connection) {
    && connection.handle in b.transports && !b.transports[connection.handle].forwarding
    && id in b.transports[connection.handle].clients && b.transports[connection.handle].clients[id] == connection
  }

  /** Whoever asks and is given an id - the one it has, or the one just registered for it - is known by it, at its
      address, and to the client manager if the id is new. */
  lemma AcceptedIsKnown(b: Books, connection: Connection, wellSized: bool, known: Option<ClientId>,
                        registration: Option<ClientId>)
    requires Agrees(b, {}) && wellSized && connection.handle in b.transports
    requires known.Some? ==> Reaches(b, known.value, connection)
    requires registration.Some? ==> registration.value != BROADCAST_CLIENT_ID && registration.value !in b.clients
    ensures var a := Accepted(b, connection, wellSized, known, registration);
            && (known.Some? ==> a == b && known.value in b.clients && b.clients[known.value].connection == connection)
            && (known.None? && registration.Some? ==>
                  var id := registration.value;
                  && id in a.clients && a.clients[id].connection == connection && a.clients[id].registeredClient
                  && id in a.managed && id in a.transports[connection.handle].clients
                  && a.clients - {id} == b.clients)
            && (known.None? && registration.None? ==> a == b)
  {}

  // Out-of-band messages count as client management.
  datatype Channel = ClientManagement | System | OtherProtocol

  datatype Message = Message(channel: Channel, src: ClientId, dst: ClientId)

  datatype Received = Received(message: Message, source: Connection)

  /** Is the message for the client management thread of the router with this host? */
  predicate IsInternal(m: Message, host: ClientId) {
    || m.channel == ClientManagement
    || (m.src != BROADCAST_CLIENT_ID && m.channel == System && (m.dst == BROADCAST_CLIENT_ID || m.dst == host))
  }

  /** Is it to be routed on? Only what has a sender is, and no client management. */
  predicate IsRoutable(m: Message) {
    m.channel != ClientManagement && m.src != BROADCAST_CLIENT_ID
  }
}
