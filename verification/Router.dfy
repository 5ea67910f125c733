/** The router: clients come and go, are pinged, and are removed when they cannot be reached; and the routing caches of
    its transport threads. */
module Routers {
  import opened Wire
  import opened RouterBooks
  import opened Broadcasts

  class RouterCore {
    var clientId: ClientId                                // the host's own
    var clientMap: map<ClientId, ClientContext>
    var transportMap: map<Handle, Transport>
    var lastTransportId: Handle
    var lastClientPingTimeInMs: nat
    var queue: seq<Received>                              // what waits for the client management thread
    var managed: set<ClientId>
    var unregistered: seq<ClientId>

    // The clients to which a transmission ever failed.
    ghost var failures: set<ClientId>

    // Everything that was ever transmitted.
    ghost var sent: seq<Sending>

    function Value(): Books
      reads this
    {
      Books(clientMap, transportMap, managed, unregistered)
    }

    // What the books' upkeep leaves alone, but for the time of the last discovery round.
    ghost predicate Settings(id: ClientId, transport: Handle, waiting: seq<Received>, ping: nat)
      reads this
    {
      clientId == id && lastTransportId == transport && queue == waiting && lastClientPingTimeInMs == ping
    }

    /** The record is true, and the departures announced are those the client manager was told of - but for `pending`,
        whose announcement is due. */
    ghost predicate Recorded(pending: seq<ClientId>)
      reads this
    {
      Departures(sent) + pending == unregistered && forall i :: 0 <= i < |sent| ==> Honest(sent[i])
    }

    ghost predicate Valid()
      reads this
    {
      && Agrees(Value(), {}) && Recorded([])
      && (forall h :: h in transportMap ==> h <= lastTransportId)
    }

    constructor (host: ClientId)
      ensures Valid() && Value() == Books(map[], map[], {}, []) && Settings(host, 0, [], 0)
      ensures failures == {} && sent == []
    {
      clientId, clientMap, transportMap, managed, unregistered := host, map[], map[], {}, [];
      lastTransportId, lastClientPingTimeInMs, queue, failures, sent := 0, 0, [], {}, [];
    }

    // What a transport makes of a message to one of its clients: any transmission may fail.
    method Try(id: ClientId) returns (failed: bool)
      modifies this`failures
      ensures failures == old(failures) + if failed then {id} else {}
    {
      failed := *;
      if failed {
        failures := failures + {id};
      }
    }

    method TransmitMessage(notice: Notice, id: ClientId, connection: Connection) returns (outcome: Result)
      modifies this`failures, this`sent
      ensures outcome in {Success, NotReady, Error}
      ensures sent == old(sent) + [ToOne(notice, connection, outcome)]
      ensures failures == old(failures) + if outcome == Error then {id} else {}
    {
      var failed := Try(id);
      var busy: bool := *;
      outcome := if failed then Error else if busy then NotReady else Success;
      sent := sent + [ToOne(notice, connection, outcome)];
    }

    // The clients of one transport that serves them directly.
    method TransmitToClients(sender: ClientId, handle: Handle, ghost source: Option<Handle>, ghost batch: seq<Attempt>,
                             ghost left: set<Handle>, last: ClientId)
      returns (lastFailed: ClientId, ghost longer: seq<Attempt>)
      requires handle in transportMap && !transportMap[handle].forwarding && handle !in left
      requires last == LastFailure(batch)
      requires CoversBut(transportMap, sender, source, batch, left + {handle}, handle, {})
      requires FailedAreIn(batch, failures)
      modifies this`failures
      ensures CoversBut(transportMap, sender, source, longer, left, handle, {})
      ensures lastFailed == LastFailure(longer) && old(failures) <= failures
      ensures FailedAreIn(longer, failures)
    {
      hide CoversBut, LastFailure;
      lastFailed, longer := last, batch;
      var clients := transportMap[handle].clients.Keys;
      SameCovered(transportMap, sender, source, batch, left + {handle}, handle, {}, left, handle, clients);
      while clients != {}
        invariant clients <= transportMap[handle].clients.Keys && old(failures) <= failures
        invariant CoversBut(transportMap, sender, source, longer, left, handle, clients)
        invariant lastFailed == LastFailure(longer)
        invariant FailedAreIn(longer, failures)
        decreases clients
      {
        var client :| client in clients;
        if client != sender {
          var failed := Try(client);
          ghost var attempt := Attempt(Client(handle, client), failed);
          OneMoreCovered(transportMap, sender, source, longer, left, handle, clients, attempt, left, handle,
                         clients - {client});
          LastFailureNext(longer, attempt);
          longer := longer + [attempt];
          if failed {
            lastFailed := client;
          }
        } else {
          SameCovered(transportMap, sender, source, longer, left, handle, clients, left, handle, clients - {client});
        }
        clients := clients - {client};
      }
    }

    /** Sends a message to everyone it is for: to the clients of the transports that do not forward, and to those that
        do; and remembers the last client it failed for. */
    method TransmitToAll(notice: Notice, source: Option<Handle>)
      returns (lastFailed: ClientId, ghost batch: seq<Attempt>)
      modifies this`failures, this`sent
      ensures old(failures) <= failures
      ensures sent == old(sent) + [ToAll(notice, source, transportMap, batch)]
      ensures Covers(transportMap, SenderOf(notice), source, batch) && lastFailed == LastFailure(batch)
      ensures FailedAreIn(batch, failures)
    {
      hide CoversBut, LastFailure, Covers;
      lastFailed, batch := BROADCAST_CLIENT_ID, [];
      ghost var sender, last := SenderOf(notice), 0;
      NothingCovered(transportMap, sender, source);
      NothingFailed();
      var handles := transportMap.Keys;
      while handles != {}
        invariant handles <= transportMap.Keys && old(failures) <= failures
        invariant CoversBut(transportMap, sender, source, batch, handles, last, {}) && lastFailed == LastFailure(batch)
        invariant FailedAreIn(batch, failures)
        invariant sent == old(sent)
        decreases handles
      {
        var handle :| handle in handles;
        if transportMap[handle].forwarding {
          if source != Some(handle) {
            ghost var attempt := Attempt(Forwarder(handle), false);
            OneMoreCovered(transportMap, sender, source, batch, handles, last, {}, attempt, handles - {handle}, last,
                           {});
            LastFailureNext(batch, attempt);
            batch := batch + [attempt];
          } else {
            SameCovered(transportMap, sender, source, batch, handles, last, {}, handles - {handle}, last, {});
          }
        } else {
          assert handles == handles - {handle} + {handle};
          ghost var rest := handles - {handle};
          SameCovered(transportMap, sender, source, batch, handles, last, {}, rest + {handle}, handle, {});
          lastFailed, batch := TransmitToClients(SenderOf(notice), handle, source, batch, rest, lastFailed);
          last := handle;
        }
        handles := handles - {handle};
      }
      AllCovered(transportMap, sender, source, batch, last);
      sent := sent + [ToAll(notice, source, transportMap, batch)];
    }

    lemma NothingFailed()
      ensures LastFailure([]) == BROADCAST_CLIENT_ID
    {}

    /** A broadcast. If it failed for some client, the last such client is removed - which is announced by a
        broadcast. */
    method SendBroadcastMessage(notice: Notice, source: Option<Handle>, ghost inFlight: set<ClientId>)
      returns (ghost gone: set<ClientId>)
      requires Agrees(Value(), inFlight) && Recorded(if notice.Departure? then [notice.id] else [])
      modifies this
      ensures Removes(old(Value()), Value(), gone) && gone !! inFlight
      ensures Agrees(Value(), inFlight) && Recorded([])
      ensures old(sent) < sent && IsBroadcast(sent[|old(sent)|], notice, source, old(transportMap))
      ensures var last := LastFailure(sent[|old(sent)|].batch);
              if last == BROADCAST_CLIENT_ID then gone == {} else last in gone
      ensures old(failures) <= failures && gone <= failures
      ensures Settings(old(clientId), old(lastTransportId), old(queue), old(lastClientPingTimeInMs))
      decreases clientMap.Keys - inFlight, 1
    {
      hide Removes, Covers, LastFailure, Departures;
      gone := {};
      NothingRemoved(Value());
      OneMoreSent(sent, ToAll(notice, source, transportMap, []));
      var lastFailedClient, batch := TransmitToAll(notice, source);
      OneMoreSent(old(sent), sent[|old(sent)|]);
      FailuresAreClients(Value(), inFlight, notice, source, batch);
      if lastFailedClient != BROADCAST_CLIENT_ID {
        gone := RemoveClient(lastFailedClient, inFlight);
      }
    }

    // Who a broadcast failed for is a client, and none whose removal is under way.
    lemma FailuresAreClients(b: Books, inFlight: set<ClientId>, notice: Notice, source: Option<Handle>,
                             batch: seq<Attempt>)
      requires Agrees(b, inFlight) && Covers(b.transports, SenderOf(notice), source, batch)
      ensures LastFailure(batch) != BROADCAST_CLIENT_ID ==>
                && LastFailure(batch) in b.clients && LastFailure(batch) !in inFlight
                && exists i :: 0 <= i < |batch| && batch[i].failed && batch[i].target.Client?
                               && batch[i].target.id == LastFailure(batch)
    {
      hide LastFailure;
      forall i | 0 <= i < |batch| && batch[i].target.Client?
        ensures batch[i].target.id in b.clients && batch[i].target.id !in inFlight
      {
        assert Targets(batch)[i] in Targets(batch);
        assert IsTarget(b.transports, SenderOf(notice), source, batch[i].target);
      }
      LastFailureIsOne(batch);
    }

    /** Removes a client and whatever clients the announcement fails for, in whatever pattern transmissions fail. It
        never comes back to a client whose removal is still under way. The departure of a registered client is
        announced to everyone else. */
    method RemoveClient(id: ClientId, ghost inFlight: set<ClientId>) returns (ghost gone: set<ClientId>)
      requires Agrees(Value(), inFlight) && id !in inFlight && Recorded([])
      modifies this
      ensures Removes(old(Value()), Value(), gone) && gone !! inFlight
      ensures Agrees(Value(), inFlight) && Recorded([])
      ensures if id in old(clientMap) then id in gone else gone == {}
      ensures old(failures) <= failures && gone <= failures + {id}
      ensures old(sent) <= sent
      ensures id in old(clientMap) && old(clientMap)[id].registeredClient ==>
                && old(clientMap)[id].connection.handle in old(transportMap) && old(sent) < sent
                && IsBroadcast(sent[|old(sent)|], Departure(id), None, Detached(old(Value()), id).transports)
      ensures Settings(old(clientId), old(lastTransportId), old(queue), old(lastClientPingTimeInMs))
      decreases clientMap.Keys - inFlight, 0
    {
      hide Removes, Agrees, Departures, IsBroadcast, LastFailure;
      ghost var before := Value();
      gone := {};
      NothingRemoved(before);
      if id in clientMap {
        DetachedAgrees(before, id, inFlight);
        var handle := clientMap[id].connection.handle;
        var transport := transportMap[handle];
        transportMap := transportMap[handle := transport.(clients := transport.clients - {id})];
        if clientMap[id].registeredClient {
          managed := managed - {id};
          unregistered := unregistered + [id];
        }
        assert Value() == Detached(before, id);
        NothingRemoved(Value());
        if clientMap[id].registeredClient {
          gone := SendBroadcastMessage(Departure(id), None, inFlight + {id});
        }
        DetachThenForget(before, Value(), id, gone, inFlight);
        clientMap := clientMap - {id};
        gone := gone + {id};
        RemovalKeepsAgreement(before, Value(), gone, inFlight);
      }
    }

    /** Queues what the client management thread is to see, and says whether the message is to be routed as well. */
    method IsRoutableMessage(r: Received) returns (routable: bool)
      modifies this`queue
      ensures routable == IsRoutable(r.message)
      ensures queue == old(queue) + if IsInternal(r.message, clientId) then [r] else []
      ensures r.message.channel == ClientManagement ==> !routable && queue == old(queue) + [r]
      ensures r.message.channel != ClientManagement && r.message.src == BROADCAST_CLIENT_ID ==>
                !routable && queue == old(queue)
      ensures r.message.channel != ClientManagement && r.message.src != BROADCAST_CLIENT_ID ==>
                && routable
                && (r.message.channel == System && r.message.dst in {BROADCAST_CLIENT_ID, clientId} ==>
                      queue == old(queue) + [r])
                && (r.message.channel == OtherProtocol || r.message.dst !in {BROADCAST_CLIENT_ID, clientId} ==>
                      queue == old(queue))
    {
      routable := false;
      if r.message.channel == ClientManagement {
        queue := queue + [r];
      } else if r.message.src != BROADCAST_CLIENT_ID {
        if r.message.channel == System && (r.message.dst == BROADCAST_CLIENT_ID || r.message.dst == clientId) {
          queue := queue + [r];
        }
        routable := true;
      }
    }

    // The rest of the router: none of it finds a removal under way.

    ghost predicate Kept(before: Books, gone: set<ClientId>, id: ClientId, transport: Handle, waiting: seq<Received>,
                         ping: nat)
      reads this
    {
      Valid() && Removes(before, Value(), gone) && Settings(id, transport, waiting, ping)
    }

    lemma HandlesRemain(before: Books, gone: set<ClientId>)
      requires Removes(before, Value(), gone)
      requires forall h :: h in before.transports ==> h <= lastTransportId
      ensures forall h :: h in transportMap ==> h <= lastTransportId
    {}

    method RegisterTransport(forwarding: bool, enabled: bool) returns (handle: Handle)
      requires Valid()
      modifies this`lastTransportId, this`transportMap
      ensures Valid() && handle == lastTransportId == old(lastTransportId) + 1
      ensures var added := if enabled then map[handle := Transport(forwarding, map[])] else map[];
              Value() == old(Value()).(transports := old(transportMap) + added)
    {
      hide Agrees;
      lastTransportId := lastTransportId + 1;
      handle := lastTransportId;
      if enabled {
        NewTransportAgrees(Value(), handle, Transport(forwarding, map[]));
        transportMap := transportMap[handle := Transport(forwarding, map[])];
        assert transportMap == old(transportMap) + map[handle := Transport(forwarding, map[])];
      } else {
        assert transportMap == old(transportMap) + map[];
      }
    }

    method AddClient(id: ClientId, connection: Connection, registered: bool)
      requires id != BROADCAST_CLIENT_ID
      modifies this`clientMap, this`transportMap
      ensures Value() == Added(old(Value()), id, connection, registered)
    {
      if connection.handle in transportMap {
        var transport := transportMap[connection.handle];
        if id !in clientMap {
          clientMap := clientMap[id := ClientContext(connection, 0, true, registered, false)];
        }
        if id !in transport.clients {
          transportMap := transportMap[connection.handle := transport.(clients := transport.clients[id := connection])];
        } else {
          assert transportMap[connection.handle := transport.(clients := transport.clients)] == transportMap;
        }
      }
    }

    /** Takes a transport and all its clients off the books: no client refers to it any more. */
    method RemoveTransport(handle: Handle) returns (removed: bool, ghost gone: set<ClientId>)
      requires Valid()
      modifies this
      ensures Valid() && Settings(old(clientId), old(lastTransportId), old(queue), old(lastClientPingTimeInMs))
      ensures removed == (handle in old(transportMap)) && handle !in transportMap
      ensures forall id :: id in clientMap ==> clientMap[id].connection.handle != handle
      ensures old(failures) <= failures
      ensures removed ==> && old(transportMap)[handle].clients.Keys <= gone
                          && gone <= failures + old(transportMap)[handle].clients.Keys
      ensures exists b :: Removes(old(Value()), b, gone) && Value() == b.(transports := b.transports - {handle})
      ensures old(sent) <= sent
    {
      hide Removes;
      ghost var before := Value();
      removed, gone := false, {};
      NothingRemoved(before);
      if handle in transportMap {
        ghost var clients := transportMap[handle].clients.Keys;
        var left := transportMap[handle].clients.Keys;
        while left != {}
          invariant Kept(before, gone, old(clientId), old(lastTransportId), old(queue), old(lastClientPingTimeInMs))
          invariant left <= clients && clients - left <= gone && gone <= failures + clients
          invariant old(failures) <= failures && old(sent) <= sent
          decreases left
        {
          var id :| id in left;
          ghost var middle, wasGone := Value(), gone;
          ghost var more := RemoveClient(id, {});
          RemovesTwice(before, middle, Value(), gone, more);
          gone := gone + more;
          HandlesRemain(before, gone);
          GoneOrKnown(before, middle, wasGone, id);
          left := left - {id};
        }
        ghost var b := Value();
        NobodyLeftOn(before, b, gone, handle);
        transportMap := transportMap - {handle};
        assert Value() == b.(transports := b.transports - {handle});
        removed := true;
      } else {
        assert Value() == before.(transports := before.transports - {handle});
      }
    }

    lemma GoneOrKnown(before: Books, middle: Books, gone: set<ClientId>, id: ClientId)
      requires Removes(before, middle, gone) && id in before.clients
      ensures id in middle.clients <==> id !in gone
    {}

    lemma NobodyLeftOn(before: Books, after: Books, gone: set<ClientId>, handle: Handle)
      requires Agrees(after, {}) && Removes(before, after, gone) && handle in before.transports
      requires before.transports[handle].clients.Keys <= gone
      ensures forall id :: id in after.clients ==> after.clients[id].connection.handle != handle
      ensures Agrees(after.(transports := after.transports - {handle}), {})
    {
      assert after.transports[handle].clients == before.transports[handle].clients - gone;
      var f := after.(transports := after.transports - {handle});
      forall h, id | h in f.transports && id in f.transports[h].clients
        ensures id in f.clients && f.clients[id].connection == f.transports[h].clients[id]
                && f.clients[id].connection.handle == h
      {
        assert id in after.transports[h].clients;
      }
    }

    // One client's turn in a discovery round.
    method Visit(id: ClientId) returns (ghost gone: set<ClientId>)
      requires Valid() && id in clientMap
      modifies this
      ensures Valid() && Settings(old(clientId), old(lastTransportId), old(queue), old(lastClientPingTimeInMs))
      ensures Removes(old(Value()).(clients := old(clientMap)[id := Aged(old(clientMap)[id])]), Value(), gone)
      ensures if TimedOut(old(clientMap)[id]) then id in gone && gone <= failures + {id} else gone == {}
      ensures old(failures) <= failures && old(sent) <= sent
    {
      hide Removes, Agrees;
      ghost var before := Value();
      if clientMap[id].receivedPong {
        clientMap := clientMap[id := clientMap[id].(pingRetryCount := 0, receivedPong := false)];
      } else {
        clientMap := clientMap[id := clientMap[id].(pingRetryCount := clientMap[id].pingRetryCount + 1)];
      }
      ghost var middle := Value();
      AgingOneKeepsAgreement(before, id);
      gone := {};
      NothingRemoved(middle);
      if clientMap[id].pingRetryCount > CLIENT_TIMEOUT_COUNT {
        gone := RemoveClient(id, {});
        HandlesRemain(middle, gone);
      }
    }

    lemma AgingOneKeepsAgreement(b: Books, id: ClientId)
      requires Agrees(b, {}) && id in b.clients
      ensures Agrees(b.(clients := b.clients[id := Aged(b.clients[id])]), {})
    {
      AgingKeepsAgreement(b, {id}, {});
      assert AgedClients(b, {id}).clients == b.clients[id := Aged(b.clients[id])];
    }

    method RemoveSilentClients() returns (ghost gone: set<ClientId>)
      requires Valid()
      modifies this
      ensures Kept(AgedClients(old(Value()), old(clientMap).Keys), gone, old(clientId), old(lastTransportId),
                   old(queue), old(lastClientPingTimeInMs))
      ensures forall id :: id in old(clientMap) && TimedOut(old(clientMap)[id]) ==> id in gone
      ensures old(failures) <= failures && old(sent) <= sent
      ensures forall id :: id in gone ==> id in failures || (id in old(clientMap) && TimedOut(old(clientMap)[id]))
    {
      hide Removes, Agrees, Aged;
      ghost var before := Value();
      gone := {};
      NobodyAged(before);
      NothingRemoved(before);
      var left := clientMap.Keys;
      ghost var done: set<ClientId> := {};
      while left != {}
        invariant Kept(AgedClients(before, done), gone, old(clientId), old(lastTransportId), old(queue),
                       old(lastClientPingTimeInMs))
        invariant done + left == before.clients.Keys && done !! left
        invariant forall id :: id in done && TimedOut(before.clients[id]) ==> id in gone
        invariant old(failures) <= failures && old(sent) <= sent
        invariant forall id :: id in gone ==> id in failures || (id in before.clients && TimedOut(before.clients[id]))
        decreases left
      {
        var id :| id in left;
        OneMoreAged(before, done, id, Value(), gone);
        if id in clientMap {
          ghost var middle := Value().(clients := clientMap[id := Aged(clientMap[id])]);
          ghost var more := Visit(id);
          RemovesTwice(AgedClients(before, done + {id}), middle, Value(), gone, more);
          gone := gone + more;
        }
        done := done + {id};
        left := left - {id};
        HandlesRemain(AgedClients(before, done), gone);
      }
      assert done == before.clients.Keys;
    }

    // A ping to everyone who can be reached.
    ghost predicate Pings(s: Sending)
      reads this
    {
      && s.ToAll? && s.notice == Ping(clientId) && s.source == None && Honest(s)
      && forall h, id :: h in transportMap && id in transportMap[h].clients ==>
           && h in s.transports && id in s.transports[h].clients
           && s.transports[h].forwarding == transportMap[h].forwarding
    }

    /** A discovery round, if one is due: everyone's count moves on, the clients that were silent for too long are
        removed, and so are those that the announcements fail for; and all that are left have been pinged. */
    method UpdateClients(currentTimeInMs: nat) returns (ghost gone: set<ClientId>, ghost ping: nat)
      requires Valid()
      modifies this
      ensures var due := (currentTimeInMs - CLIENT_DISCOVERY_INTERVAL_IN_MS) % 0x1_0000_0000_0000_0000
                         >= old(lastClientPingTimeInMs);
              Kept(AgedClients(old(Value()), if due then old(clientMap).Keys else {}), gone, old(clientId),
                   old(lastTransportId), old(queue), if due then currentTimeInMs else old(lastClientPingTimeInMs))
              && (due ==> forall id :: id in old(clientMap) && TimedOut(old(clientMap)[id]) ==> id in gone)
              && (due ==> |old(sent)| <= ping < |sent| && Pings(sent[ping]))
              && (!due ==> gone == {} && sent == old(sent))
      ensures old(failures) <= failures && old(sent) <= sent
      ensures forall id :: id in gone ==> id in failures || (id in old(clientMap) && TimedOut(old(clientMap)[id]))
    {
      ghost var before := Value();
      gone, ping := {}, 0;
      NobodyAged(before);
      NothingRemoved(before);
      if (currentTimeInMs - CLIENT_DISCOVERY_INTERVAL_IN_MS) % 0x1_0000_0000_0000_0000 >= lastClientPingTimeInMs {
        gone := RemoveSilentClients();
        lastClientPingTimeInMs := currentTimeInMs;
        ghost var middle := Value();
        ping := |sent|;
        ghost var more := SendBroadcastMessage(Ping(clientId), None, {});
        RemovesTwice(AgedClients(before, before.clients.Keys), middle, Value(), gone, more);
        gone := gone + more;
        HandlesRemain(AgedClients(before, before.clients.Keys), gone);
      }
    }

    // A message to one client, or a broadcast of something else, announces no departure.
    lemma NotADeparture(before: seq<Sending>, s: Sending)
      requires s.ToOne? || !s.notice.Departure?
      ensures Departures(before + [s]) == Departures(before)
    {
      OneMoreSent(before, s);
    }

    lemma GoneIsGone(b: Books, a: Books, gone: set<ClientId>, id: ClientId)
      requires Removes(b, a, gone) && (id in b.clients ==> id in gone)
      ensures id !in a.clients
    {}

    // A message to the connection; if that failed, the client is gone.
    ghost predicate Answers(s: Sending, notice: Notice, id: ClientId, connection: Connection)
      reads this
    {
      s.ToOne? && s.notice == notice && s.connection == connection && (s.outcome == Error ==> id !in clientMap)
    }

    // The answer to a request, or a question; a client that cannot be reached is removed.
    method Respond(notice: Notice, id: ClientId, connection: Connection, ghost wasGone: set<ClientId>,
                   ghost before: Books, ghost start: Books)
      returns (ghost gone: set<ClientId>)
      requires Agrees(Value(), {}) && Recorded([]) && Removes(start, Value(), wasGone)
      requires start.transports.Keys == before.transports.Keys
      requires forall h :: h in before.transports ==> h <= lastTransportId
      modifies this
      ensures Kept(start, wasGone + gone, old(clientId), old(lastTransportId), old(queue), old(lastClientPingTimeInMs))
      ensures old(failures) <= failures && gone <= failures
      ensures old(sent) < sent && Answers(sent[|old(sent)|], notice, id, connection)
    {
      hide Removes, Agrees, Departures;
      ghost var middle := Value();
      gone := {};
      NothingRemoved(middle);
      var outcome := TransmitMessage(notice, id, connection);
      NotADeparture(old(sent), sent[|old(sent)|]);
      assert BROADCAST_CLIENT_ID !in clientMap by { NobodyIsBroadcast(middle); }
      if outcome == Error && id != BROADCAST_CLIENT_ID {
        gone := RemoveClient(id, {});
        GoneIsGone(middle, Value(), gone, id);
      }
      RemovesTwice(start, middle, Value(), wasGone, gone);
      HandlesRemain(start, wasGone + gone);
    }

    lemma NobodyIsBroadcast(b: Books)
      requires Agrees(b, {})
      ensures BROADCAST_CLIENT_ID !in b.clients
    {}

    /** A system message: its sender is noted, asked for its name if that is not known, and removed if it leaves or
        cannot be asked. */
    method ProcessRouterMessage(kind: SystemMessage, srcClientId: ClientId, connection: Connection)
      returns (queried: bool, ghost gone: set<ClientId>)
      requires Valid() && srcClientId != BROADCAST_CLIENT_ID
      requires kind == ClientInfo ==> srcClientId in clientMap
      modifies this
      ensures connection.handle !in old(transportMap) ==>
                Value() == old(Value()) && !queried && gone == {} && sent == old(sent)
      ensures connection.handle in old(transportMap) ==>
                && Kept(Noted(old(Value()), kind, srcClientId, connection), gone, old(clientId), old(lastTransportId),
                        old(queue), old(lastClientPingTimeInMs))
                && queried == Queries(old(Value()), kind, srcClientId)
                && (kind == ClientDisconnected && srcClientId in old(clientMap) ==> srcClientId in gone)
                && (kind != ClientDisconnected ==> gone <= failures)
                && gone <= failures + {srcClientId}
      ensures Valid() && old(failures) <= failures && old(sent) <= sent
      ensures queried ==> old(sent) < sent && Answers(sent[|old(sent)|], Question, srcClientId, connection)
      ensures !queried && kind != ClientDisconnected ==> sent == old(sent)
    {
      hide Removes, Agrees, Departures, IsBroadcast;
      gone, queried := {}, false;
      if connection.handle in transportMap {
        ghost var before := Value();
        NotingKeepsAgreement(before, kind, srcClientId, connection);
        var known := srcClientId in clientMap;
        if !known && kind != ClientDisconnected {
          AddClient(srcClientId, connection, false);
          queried := true;
        }
        if known {
          var c := clientMap[srcClientId];
          match kind {
            case ClientConnected => queried := !c.hasBeenIdentified;
            case ClientDisconnected =>
            case Pong =>
              clientMap := clientMap[srcClientId := c.(receivedPong := true)];
              queried := !c.hasBeenIdentified;
            case ClientInfo =>
              c := c.(pingRetryCount := 0, receivedPong := true, hasBeenIdentified := true);
              clientMap := clientMap[srcClientId := c];
            case OtherMessage =>
          }
        }
        ghost var middle := Value();
        assert middle == Noted(before, kind, srcClientId, connection);
        NothingRemoved(middle);
        if known && kind == ClientDisconnected {
          gone := RemoveClient(srcClientId, {});
        } else if queried {
          gone := Respond(Question, srcClientId, connection, {}, middle, middle);
          assert {} + gone == gone;
        }
        HandlesRemain(middle, gone);
      }
    }

    /** The client at an address, if the transport serves clients directly. */
    method FindExternalClientByConnection(connection: Connection) returns (found: Option<ClientId>)
      requires Valid()
      ensures match found
              case Some(id) => Reaches(Value(), id, connection) && id in clientMap
              case None => forall id :: !Reaches(Value(), id, connection)
    {
      found := None;
      if connection.handle in transportMap && !transportMap[connection.handle].forwarding {
        var clients := transportMap[connection.handle].clients;
        var left := clients.Keys;
        while left != {}
          invariant left <= clients.Keys
          invariant forall id :: id in clients && id !in left ==> clients[id] != connection
          decreases left
        {
          var id :| id in left;
          if clients[id] == connection {
            return Some(id);
          }
          left := left - {id};
        }
      }
    }

    // What the answer to a connect request says.
    function ConnectResult(wellSized: bool, id: ClientId): Result {
      if !wellSized then VersionMismatch else if id == BROADCAST_CLIENT_ID then Error else Success
    }

    lemma AcceptedIsThere(b: Books, connection: Connection, wellSized: bool)
      ensures forall known, registration ::
                Accepted(b, connection, wellSized, known, registration).transports.Keys == b.transports.Keys
    {}

    lemma AcceptedIs(b: Books, connection: Connection, wellSized: bool, known: Option<ClientId>,
                     registration: Option<ClientId>)
      ensures Accepted(b, connection, wellSized, known, registration)
              == if wellSized && connection.handle in b.transports && known.None? && registration.Some? then
                   Added(Managed(b, registration.value, true), registration.value, connection, true)
                 else b
    {}

    // A new client is added, and announced.
    method Welcome(id: ClientId, connection: Connection) returns (ghost gone: set<ClientId>)
      requires Valid() && id != BROADCAST_CLIENT_ID && id !in clientMap && connection.handle in transportMap
      modifies this
      ensures Removes(Added(Managed(old(Value()), id, true), id, connection, true), Value(), gone)
      ensures Agrees(Value(), {}) && Recorded([])
      ensures old(failures) <= failures && gone <= failures && old(sent) < sent
      ensures IsBroadcast(sent[|old(sent)|], Arrival(id), None, Added(old(Value()), id, connection, true).transports)
      ensures Settings(old(clientId), old(lastTransportId), old(queue), old(lastClientPingTimeInMs))
    {
      hide Removes, Agrees, Departures;
      AddFreshClient(Value(), id, connection, true);
      managed := managed + {id};
      AddClient(id, connection, true);
      gone := SendBroadcastMessage(Arrival(id), None, {});
    }

    /** A connect request: an address that is known is told its id again; a new one gets the id that the client manager
        registers for it, if it does, and everyone else hears of it. Whoever cannot be told is removed. */
    method ProcessConnectRequest(connection: Connection, wellSized: bool, registration: Option<ClientId>)
      returns (externalClientId: ClientId, ghost known: Option<ClientId>, ghost gone: set<ClientId>, ghost answer: nat)
      requires Valid()
      requires registration.Some? ==> registration.value != BROADCAST_CLIENT_ID && registration.value !in managed
                                      && registration.value !in clientMap
      modifies this
      ensures Kept(Accepted(old(Value()), connection, wellSized, known, registration), gone, old(clientId),
                   old(lastTransportId), old(queue), old(lastClientPingTimeInMs))
      ensures match known
              case Some(id) => Reaches(old(Value()), id, connection)
              case None => forall id :: !Reaches(old(Value()), id, connection)
      ensures externalClientId
              == (if !wellSized || connection.handle !in old(transportMap) then BROADCAST_CLIENT_ID
                  else if known.Some? then known.value
                  else if registration.Some? then registration.value else BROADCAST_CLIENT_ID)
      ensures old(failures) <= failures && gone <= failures && old(sent) <= sent
      // The newcomer is announced, and whoever asked is answered.
      ensures connection.handle in old(transportMap) && wellSized && known.None? && registration.Some? ==>
                && old(sent) < sent
                && IsBroadcast(sent[|old(sent)|], Arrival(registration.value), None,
                               Added(old(Value()), registration.value, connection, true).transports)
      ensures if connection.handle in old(transportMap) then
                && |old(sent)| <= answer < |sent|
                && Answers(sent[answer], ConnectAnswer(externalClientId, ConnectResult(wellSized, externalClientId)),
                           externalClientId, connection)
              else sent == old(sent)
    {
      hide Removes, Agrees, Reaches, IsBroadcast, Departures, Accepted;
      externalClientId, gone, answer := BROADCAST_CLIENT_ID, {}, 0;
      ghost var before := Value();
      NothingRemoved(before);
      AcceptedIsThere(before, connection, wellSized);
      var found := FindExternalClientByConnection(connection);
      assert Value() == before;
      known := found;
      if connection.handle in transportMap {
        if wellSized {
          if found.None? {
            if registration.Some? {
              externalClientId := registration.value;
              gone := Welcome(externalClientId, connection);
            }
          } else {
            externalClientId := found.value;
          }
        }
        ghost var start := Accepted(before, connection, wellSized, known, registration);
        AcceptedIs(before, connection, wellSized, known, registration);
        answer := |sent|;
        var result := ConnectResult(wellSized, externalClientId);
        ghost var more := Respond(ConnectAnswer(externalClientId, result), externalClientId, connection, gone, before,
                                  start);
        gone := gone + more;
      } else {
        AcceptedIs(before, connection, wellSized, known, registration);
      }
    }

    /** A client that says goodbye from its own address is answered and removed; no one else can have it removed. */
    method ProcessDisconnectNotification(srcClientId: ClientId, connection: Connection)
      returns (ghost known: Option<ClientId>, ghost gone: set<ClientId>)
      requires Valid()
      modifies this
      ensures Kept(old(Value()), gone, old(clientId), old(lastTransportId), old(queue), old(lastClientPingTimeInMs))
      ensures match known
              case Some(id) => Reaches(old(Value()), id, connection)
              case None => forall id :: !Reaches(old(Value()), id, connection)
      ensures if known == Some(srcClientId) then
                && srcClientId in gone && gone <= failures + {srcClientId}
                && old(sent) < sent && Answers(sent[|old(sent)|], DisconnectAnswer, srcClientId, connection)
              else gone == {} && sent == old(sent)
      ensures old(failures) <= failures
    {
      hide Removes, Agrees, Reaches, Departures;
      gone := {};
      ghost var before := Value();
      NothingRemoved(before);
      var found := FindExternalClientByConnection(connection);
      assert Value() == before;
      known := found;
      if found == Some(srcClientId) {
        var outcome := TransmitMessage(DisconnectAnswer, srcClientId, connection);
        NotADeparture(old(sent), sent[|old(sent)|]);
        gone := RemoveClient(srcClientId, {});
        GoneIsGone(before, Value(), gone, srcClientId);
        HandlesRemain(before, gone);
      }
    }

    /** A client that sets its flags from its own address, or anyone that asks for the status, gets an answer. */
    method ProcessStatusMessage(srcClientId: ClientId, connection: Connection, setsFlags: bool)
      returns (ghost known: Option<ClientId>, ghost gone: set<ClientId>)
      requires Valid()
      modifies this
      ensures Kept(old(Value()), gone, old(clientId), old(lastTransportId), old(queue), old(lastClientPingTimeInMs))
      ensures match known
              case Some(id) => Reaches(old(Value()), id, connection)
              case None => forall id :: !Reaches(old(Value()), id, connection)
      ensures if connection.handle in old(transportMap) && (!setsFlags || known == Some(srcClientId)) then
                old(sent) < sent && Answers(sent[|old(sent)|], StatusAnswer, srcClientId, connection)
              else gone == {} && sent == old(sent)
      ensures old(failures) <= failures && gone <= failures
    {
      hide Removes, Agrees, Reaches;
      gone := {};
      ghost var before := Value();
      NothingRemoved(before);
      var found := FindExternalClientByConnection(connection);
      assert Value() == before;
      known := found;
      if connection.handle in transportMap && (!setsFlags || found == Some(srcClientId)) {
        gone := Respond(StatusAnswer, srcClientId, connection, {}, before, before);
        assert {} + gone == gone;
      }
    }
  }

  // ------------------------------------------------------------------ the routing cache of a transport thread

  class RoutingCache {
    const router: RouterCore
    var routingCache: map<ClientId, Connection>
    var currentClientId: ClientId
    var current: Option<Connection>       // the cached entry of the current client, if it has one

    // Everything the router ever answered.
    ghost var answers: set<(ClientId, Connection)>

    ghost predicate Valid()
      reads this
    {
      && (current.Some? ==> currentClientId in routingCache && current.value == routingCache[currentClientId])
      && (forall id :: id in routingCache ==> (id, routingCache[id]) in answers)
      && BROADCAST_CLIENT_ID !in routingCache
    }

    constructor (router: RouterCore)
      ensures Valid() && this.router == router && routingCache == map[] && answers == {}
    {
      this.router := router;
      routingCache, currentClientId, current, answers := map[], BROADCAST_CLIENT_ID, None, {};
    }

    /** Where a directed message goes: what the cache knows - even that there was no such client when it last asked -
        comes before what the router knows now. */
    function Target(dst: ClientId): Option<Connection>
      reads this, router
    {
      if currentClientId == dst then current
      else if dst in routingCache then Some(routingCache[dst])
      else if dst in router.clientMap then Some(router.clientMap[dst].connection)
      else None
    }

    /** Makes the destination the current client; a transport is registered for whatever is newly looked up. */
    method Look(dst: ClientId)
      requires Valid() && router.Valid() && dst != BROADCAST_CLIENT_ID
      modifies this
      ensures Valid() && currentClientId == dst && current == old(Target(dst))
      ensures old(answers) <= answers
      ensures forall id :: id in old(routingCache) ==> id in routingCache && routingCache[id] == old(routingCache)[id]
      ensures forall a :: a in answers && a !in old(answers) ==>
                a.0 in router.clientMap && a.1 == router.clientMap[a.0].connection
    {
      if currentClientId != dst {
        current := None;
        currentClientId := dst;
        if dst in routingCache {
          current := Some(routingCache[dst]);
        } else if dst in router.clientMap {
          var connection := router.clientMap[dst].connection;
          assert connection.handle in router.transportMap;
          routingCache := routingCache[dst := connection];
          answers := answers + {(dst, connection)};
          current := Some(connection);
        }
      }
    }

    // A message with somewhere to go was transmitted there, with that result; any other was not.
    ghost predicate Routed(before: seq<Sending>, m: Message, sentTo: Option<Connection>, result: Result)
      reads router
    {
      match sentTo
      case Some(connection) => before < router.sent && router.sent[|before|] == ToOne(Relay(m), connection, result)
      case None => router.sent == before
    }

    method RouteDirected(m: Message)
      returns (result: Result, ghost sentTo: Option<Connection>, ghost gone: set<ClientId>)
      requires Valid() && router.Valid() && m.dst != BROADCAST_CLIENT_ID
      modifies this, router
      ensures Valid() && Removes(old(router.Value()), router.Value(), gone) && gone <= router.failures
      ensures router.Valid() && router.queue == old(router.queue) && router.clientId == old(router.clientId)
      ensures sentTo == old(Target(m.dst)) && (sentTo.Some? ==> (m.dst, sentTo.value) in answers)
      ensures Routed(old(router.sent), m, sentTo, result)
      ensures sentTo == None <==> result == Unavailable
      ensures result == Error ==> m.dst !in routingCache && m.dst !in router.clientMap
      ensures result != Error ==> gone == {}
    {
      hide Removes, Agrees, Departures;
      gone, result := {}, Unavailable;
      ghost var before := router.Value();
      NothingRemoved(before);
      assert router.Valid();
      Look(m.dst);
      sentTo := current;
      if current.Some? {
        result := router.TransmitMessage(Relay(m), m.dst, current.value);
        router.NotADeparture(old(router.sent), router.sent[|old(router.sent)|]);
        if result == Error {
          routingCache := routingCache - {m.dst};
          current := None;
          currentClientId := BROADCAST_CLIENT_ID;
          gone := router.RemoveClient(m.dst, {});
          router.GoneIsGone(before, router.Value(), gone, m.dst);
          router.HandlesRemain(before, gone);
        }
      }
    }

    /** Routes a message that is routable, after queueing it if the router is concerned itself: to everyone, or to one
        client - by a connection the router once gave for it. A client that cannot be reached is forgotten here and in
        the router. */
    method RouteMessage(r: Received)
      returns (result: Result, ghost sentTo: Option<Connection>, ghost gone: set<ClientId>)
      requires Valid() && router.Valid()
      modifies this, router
      ensures Valid() && Removes(old(router.Value()), router.Value(), gone) && gone <= router.failures
      ensures router.Valid()
      ensures router.queue == old(router.queue) + if IsInternal(r.message, router.clientId) then [r] else []
      ensures router.clientId == old(router.clientId)
      ensures var dst := r.message.dst;
              if !IsRoutable(r.message) then
                && result == Unavailable && sentTo == None && gone == {} && routingCache == old(routingCache)
                && router.sent == old(router.sent)
              else if dst == BROADCAST_CLIENT_ID then
                && result == Success && sentTo == None && routingCache == old(routingCache)
                && old(router.sent) < router.sent
                && IsBroadcast(router.sent[|old(router.sent)|], Relay(r.message),
                               if r.source.handle in old(router.transportMap) then Some(r.source.handle) else None,
                               old(router.transportMap))
              else
                && Routed(old(router.sent), r.message, sentTo, result)
                && sentTo == old(Target(dst)) && (sentTo.Some? ==> (dst, sentTo.value) in answers)
                && (sentTo == None <==> result == Unavailable)
                && (result == Error ==> dst !in routingCache && dst !in router.clientMap)
                && (result != Error ==> gone == {})
    {
      hide Removes, Agrees;
      gone, sentTo, result := {}, None, Unavailable;
      ghost var before := router.Value();
      NothingRemoved(before);
      var routable := router.IsRoutableMessage(r);
      assert router.Valid();
      if routable {
        if r.message.dst == BROADCAST_CLIENT_ID {
          var source := if r.source.handle in router.transportMap then Some(r.source.handle) else None;
          gone := router.SendBroadcastMessage(Relay(r.message), source, {});
          router.HandlesRemain(before, gone);
          result := Success;
        } else {
          result, sentTo, gone := RouteDirected(r.message);
        }
      }
    }
  }
}
