/** A conversation can succeed: whatever is to be said, some run says it, and ends. */
module Conversation {
  import opened Wire
  import Out = OutgoingStream
  import In = IncomingStream
  import opened SessionSteps
  import opened SessionInvariant
  import opened SessionEffects
  import opened Protocol
  import opened ProtocolSafety
  import opened Handshake

  // ------------------------------------------------------------------ one message, from session to session

  /** An idle writer sends: the message is the next in its log. */
  lemma IdleWriterSends(s: Session, n: nat, data: Bytes)
    requires WriterIdle(s, n) && |data| <= 1384
    ensures var t := Send(s, data, true).0;
            && Send(s, data, true).1 == Success
            && t == s.(send := s.send.(log := s.send.log + [Entry(Data, s.sid, Content(data))]))
            && WriterBusy(t, n)
  {
    SendSequences(s, data, true);
    SendKeeps(s, data, true);
  }

  // One more message in the log than was sent.
  ghost predicate WriterBusy(s: Session, n: nat) {
    && Coherent(s) && s.owner.Some? && s.state in {Established, FinWait2}
    && |s.send.log| == n + 1 && n >= 1 && s.send.unacknowledged == n + 1 && s.send.lastSent == n
    && s.send.lastAvailableSize >= 1 && s.recv.expected == s.recv.lastUnacknowledged
    && (s.state == FinWait2 ==> s.sessionVersion >= 2)
  }

  function AfterTransmission(s: Session): Session {
    s.(send := Out.Stamp(s.send, 0))
  }

  /** The next update puts it on the wire, and nothing else. */
  lemma BusyWriterTransmits(s: Session, n: nat)
    requires WriterBusy(s, n)
    ensures UpdateWindows(s, Calm())
            == Report(AfterTransmission(s), [Carry(s.send.log[n], n + 1, s.recv.availableSize)], [UpdateSession])
  {
    Out.LiveSlotFrame(s.send, n + 1, s.recv.availableSize);
    var f := Carry(s.send.log[n], n + 1, s.recv.availableSize);
    var t := AfterTransmission(s);
    assert UpdateReceiveWindow(s, Delivered) == Reply(s, []) && RetransmitRound(s, 1, Calm()) == Reply(s, []);
    assert Transmit(t, 3, Calm()) == Reply(t, []);
    assert Transmit(s, 2, Calm()) == Reply(t, [f] + []);
    assert UpdateSendWindow(s, 1, Calm()) == Reply(t, [] + ([f] + []));
    assert Resume(t) == Report(t, [], [UpdateSession]);
    assert [] + ([] + ([f] + [])) == [f];
  }

  // Everything read but one message, which is in place.
  ghost predicate ReaderHolds(s: Session, n: nat, f: Frame) {
    && Coherent(s) && s.owner.Some? && s.send.unacknowledged == s.send.lastSent + 1 == |s.send.log| + 1
    && s.recv.unread == s.recv.lastUnacknowledged == n + 1 && s.recv.expected == n + 2
    && s.recv.buffer == map[n + 1 := f]
  }

  /** It arrives, and is held. */
  lemma IdleReaderHears(s: Session, n: nat, f: Frame)
    requires ReaderIdle(s, n) && (f.kind == Data || f.kind == Fin) && f.sequence == n + 1
    requires PayloadSize(f.payload) <= 1384
    ensures var h := HandleMessage(s, f, Calm());
            && h.out == [] && h.calls == [] && ReaderHolds(h.s, n, f)
            && h.s.owner == s.owner && h.s.sid == s.sid && h.s.state == if f.kind == Fin then Closing else Established
  {
    hide LogShape, Out.Valid;
    ArrivalsAreKept(s, f, Calm());
    HandleMessageIsReported(s, f, Calm());
    var t := HandleMessage(s, f, Calm()).s.recv;
    assert t.buffer == map[n + 1 := f];
    assert t.expected > n + 2 ==> n + 2 in t.buffer;
  }

  /** The reader gets it. */
  lemma HeldIsRead(s: Session, n: nat, f: Frame)
    requires ReaderHolds(s, n, f) && PayloadSize(f.payload) <= 1384
    requires if f.kind == Data then s.state == Established else f.kind == Fin && s.state == Closing
    ensures var (t, result) := Receive(s, 1384);
            && result == (if f.kind == Data then Got(ContentOf(f.payload)) else AtEnd)
            && t == s.(recv := t.recv, state := t.state)
            && (f.kind == Data ==> ReaderOwes(t, n + 1))
  {
    ReceiveReturns(s, 1384);
    ReceiveKeeps(s, 1384);
    var t := Receive(s, 1384).0;
    assert t.recv.buffer == map[];
  }

  // Everything read, and the last of it not yet acknowledged.
  ghost predicate ReaderOwes(s: Session, n: nat) {
    && Coherent(s) && s.state == Established && s.owner.Some?
    && s.send.unacknowledged == s.send.lastSent + 1 == |s.send.log| + 1
    && s.recv.unread == s.recv.expected == n + 1 == s.recv.lastUnacknowledged + 1 && s.recv.buffer == map[]
  }

  function AckFor(s: Session): Frame
    requires In.Valid(s.recv)
  {
    Frame(Ack, s.sid, s.recv.expected - 1, In.CurrentWindowSize(s.recv), Empty)
  }

  /** The next update acknowledges it. */
  lemma OwingReaderAcknowledges(s: Session, n: nat)
    requires ReaderOwes(s, n)
    ensures var u := UpdateWindows(s, Calm());
            && u.out == [AckFor(s)] && u.calls == [UpdateSession]
            && ReaderIdle(u.s, n) && u.s.owner == s.owner && u.s.sid == s.sid
  {
    hide LogShape;
    var a := UpdateReceiveWindow(s, Delivered);
    assert a.out == [AckFor(s)];
    assert RetransmitRound(a.s, 1, Calm()) == Reply(a.s, []) && Transmit(a.s, 2, Calm()) == Reply(a.s, []);
    assert UpdateSendWindow(a.s, 1, Calm()) == Reply(a.s, [] + []);
    assert Resume(a.s) == Report(a.s, [], [UpdateSession]);
    assert [AckFor(s)] + ([] + []) == [AckFor(s)];
  }

  /** The writer is idle again once it hears that. */
  lemma AckFreesWriter(s: Session, n: nat, g: Frame)
    requires WriterBusy(s, n) && s.state == Established && g.kind == Ack && g.sequence == n + 1 && g.window >= 1
    ensures var h := HandleMessage(AfterTransmission(s), g, Calm());
            && h.out == [] && h.calls == [] && WriterIdle(h.s, n + 1)
            && h.s.sid == s.sid && h.s.owner == s.owner && h.s.sessionVersion == s.sessionVersion
  {
    hide LogShape;
    var t := AfterTransmission(s);
    TransmissionIsCoherent(s, n);
    AcksAcknowledge(t, g, n + 1, Calm());
    HandleMessageIsReported(t, g, Calm());
    assert MarkMessagesAsAcknowledged(t, n + 1, Calm()).out == [];
  }

  lemma TransmissionIsCoherent(s: Session, n: nat)
    requires WriterBusy(s, n)
    ensures Coherent(AfterTransmission(s))
  {}

  // ------------------------------------------------------------------ the same in the system

  // The server's half of being settled.
  ghost predicate ServerSettled(cfg: Config, sys: System, heard: seq<Bytes>) {
    && sys.cfg == cfg && ServerId(cfg) in sys.servers
    && var p := sys.servers[ServerId(cfg)];
    && p.s.sid == ServerId(cfg) && p.key == Some(ServerId(cfg)) && ReaderIdle(p.s, |heard| + 1)
    && p.received == heard && !p.ended
  }

  // A client that has something on its mind, or on the wire.
  ghost predicate ClientBusy(cfg: Config, c: Peer, w: Session, n: nat) {
    && WriterBusy(w, n) && w.sid == ServerId(cfg) && w.sessionVersion == AgreedSessionVersion(cfg)
    && c.key == Some(ServerId(cfg))
  }

  lemma ClientUpdates(cfg: Config, sys: System, n: nat)
    requires ClientBusy(cfg, sys.client, sys.client.s, n) && AllWindows(sys)
    ensures var w := sys.client.s;
            var f := Carry(w.send.log[n], n + 1, w.recv.availableSize);
            var next := Apply(sys, ClientOp(UpdateOp(Calm())));
            && next == sys.(client := next.client, toServer := next.toServer)
            && next.client == sys.client.(s := AfterTransmission(w), calls := next.client.calls)
            && f in next.toServer
  {
    hide UpdateWindows, Coherent, Windows, AfterTransmission;
    BusyWriterTransmits(sys.client.s, n);
  }

  lemma ServerHears(cfg: Config, sys: System, heard: seq<Bytes>, f: Frame)
    requires ServerSettled(cfg, sys, heard) && AllWindows(sys) && f in sys.toServer && f.sid == ServerId(cfg)
    requires (f.kind == Data || f.kind == Fin) && f.sequence == |heard| + 2 && PayloadSize(f.payload) <= 1384
    ensures var a := ToServer(f, Calm(), 0, true, true);
            && Enabled(sys, a)
            && var next, p := Apply(sys, a), sys.servers[ServerId(cfg)];
            && next == sys.(servers := next.servers, toClient := next.toClient) && ServerId(cfg) in next.servers
            && var q := next.servers[ServerId(cfg)];
            && q == p.(s := q.s) && ReaderHolds(q.s, |heard| + 1, f) && q.s.sid == p.s.sid
            && q.s.state == if f.kind == Fin then Closing else Established
  {
    hide HandleMessage, Coherent, Windows, ReaderHolds;
    var p := sys.servers[ServerId(cfg)];
    IdleReaderHears(p.s, |heard| + 1, f);
    assert p.calls + [] == p.calls;
  }

  lemma ServerReads(cfg: Config, sys: System, n: nat, f: Frame)
    requires ServerId(cfg) in sys.servers && AllWindows(sys) && PayloadSize(f.payload) <= 1384
    requires ReaderHolds(sys.servers[ServerId(cfg)].s, n, f)
    requires var state := sys.servers[ServerId(cfg)].s.state;
             if f.kind == Data then state == Established else f.kind == Fin && state == Closing
    ensures var a := ServerOp(ServerId(cfg), ReceiveOp(1384));
            && Enabled(sys, a)
            && var next, p := Apply(sys, a), sys.servers[ServerId(cfg)];
            && next == sys.(servers := next.servers, toClient := next.toClient) && ServerId(cfg) in next.servers
            && var q := next.servers[ServerId(cfg)];
            && q.key == p.key && q.accepted == p.accepted && q.s.sid == p.s.sid
            && (f.kind == Data ==> ReaderOwes(q.s, n + 1) && q.received == p.received + [ContentOf(f.payload)]
                                   && q.ended == p.ended)
            && (f.kind == Fin ==> q.ended && q.received == p.received)
  {
    hide Receive, Coherent, Windows, ReaderHolds, ReaderOwes;
    HeldIsRead(sys.servers[ServerId(cfg)].s, n, f);
  }

  lemma ServerAcknowledges(cfg: Config, sys: System, n: nat)
    requires ServerId(cfg) in sys.servers && AllWindows(sys) && ReaderOwes(sys.servers[ServerId(cfg)].s, n)
    requires sys.servers[ServerId(cfg)].key == Some(ServerId(cfg))
    ensures var a := ServerOp(ServerId(cfg), UpdateOp(Calm()));
            && Enabled(sys, a)
            && var next, p := Apply(sys, a), sys.servers[ServerId(cfg)];
            && next == sys.(servers := next.servers, toClient := next.toClient) && ServerId(cfg) in next.servers
            && var q := next.servers[ServerId(cfg)];
            && q == p.(s := q.s, calls := q.calls) && ReaderIdle(q.s, n) && q.s.sid == p.s.sid
            && exists g :: g in next.toClient && g.kind == Ack && g.sid == p.s.sid && g.sequence == n && g.window >= 1
  {
    hide UpdateWindows, Coherent, ReaderOwes, ReaderIdle;
    var p := sys.servers[ServerId(cfg)];
    OwingReaderAcknowledges(p.s, n);
    OwingReaderExpects(p.s, n);
    assert AckFor(p.s) in FramesOf([AckFor(p.s)]);
  }

  lemma OwingReaderExpects(s: Session, n: nat)
    requires ReaderOwes(s, n)
    ensures In.Valid(s.recv) && AckFor(s).sequence == n && AckFor(s).window >= 1
  {}

  lemma ClientIsFreed(cfg: Config, sys: System, w: Session, n: nat, g: Frame)
    requires AllWindows(sys) && ClientBusy(cfg, sys.client, w, n) && w.state == Established
    requires sys.client.s == AfterTransmission(w)
    requires g in sys.toClient && g.kind == Ack && g.sid == ServerId(cfg) && g.sequence == n + 1 && g.window >= 1
    ensures var a := ToClient(g, Calm(), true);
            && Enabled(sys, a)
            && var next := Apply(sys, a);
            && next == sys.(client := next.client, toServer := next.toServer)
            && next.client == sys.client.(s := next.client.s)
            && WriterIdle(next.client.s, n + 1) && next.client.s.sid == w.sid
            && next.client.s.sessionVersion == w.sessionVersion
  {
    hide HandleMessage, Coherent, Windows, WriterIdle;
    AckFreesWriter(w, n, g);
    assert sys.client.calls + [] == sys.client.calls;
  }

  /** One more thing is said, transmitted, heard, read and acknowledged. */
  lemma OneMoreIsSaid(cfg: Config, run: seq<Action>, sys: System, said: seq<Bytes>, data: Bytes)
    returns (longer: seq<Action>, next: System)
    requires Sensible(cfg) && Reached(cfg, run, sys) && Settled(cfg, sys, said) && |data| <= 1384
    ensures Reached(cfg, longer, next) && Settled(cfg, next, said + [data])
  {
    hide Reached, AllWindows, Coherent, UpdateWindows, HandleMessage, WriterIdle, ReaderIdle, WriterBusy, ReaderHolds,
         ReaderOwes, Send, AfterTransmission, Apply, Enabled;
    var n := |said| + 1;
    var a1 := ClientOp(SendOp(data, true));
    ReachedHasWindows(cfg, run, sys);
    ClientSays(cfg, sys, said, data);
    OneMore(cfg, run, sys, a1);
    var s1 := Apply(sys, a1);
    var w := s1.client.s;
    var a2 := ClientOp(UpdateOp(Calm()));
    EverySystemMayUpdateItsClient(s1);
    ClientUpdates(cfg, s1, n);
    OneMore(cfg, run + [a1], s1, a2);
    var s2 := Apply(s1, a2);
    var f := Carry(Entry(Data, ServerId(cfg), Content(data)), n + 1, w.recv.availableSize);
    var a3 := ToServer(f, Calm(), 0, true, true);
    ServerHears(cfg, s2, said, f);
    OneMore(cfg, run + [a1] + [a2], s2, a3);
    var s3 := Apply(s2, a3);
    var a4 := ServerOp(ServerId(cfg), ReceiveOp(1384));
    ServerReads(cfg, s3, n, f);
    OneMore(cfg, run + [a1] + [a2] + [a3], s3, a4);
    var s4 := Apply(s3, a4);
    var a5 := ServerOp(ServerId(cfg), UpdateOp(Calm()));
    ServerAcknowledges(cfg, s4, n + 1);
    OneMore(cfg, run + [a1] + [a2] + [a3] + [a4], s4, a5);
    var s5 := Apply(s4, a5);
    var g :| g in s5.toClient && g.kind == Ack && g.sid == ServerId(cfg) && g.sequence == n + 1 && g.window >= 1;
    var a6 := ToClient(g, Calm(), true);
    ClientIsFreed(cfg, s5, w, n, g);
    OneMore(cfg, run + [a1] + [a2] + [a3] + [a4] + [a5], s5, a6);
    longer, next := run + [a1] + [a2] + [a3] + [a4] + [a5] + [a6], Apply(s5, a6);
  }

  lemma ClientSays(cfg: Config, sys: System, said: seq<Bytes>, data: Bytes)
    requires Settled(cfg, sys, said) && AllWindows(sys) && |data| <= 1384
    ensures var a := ClientOp(SendOp(data, true));
            && Enabled(sys, a)
            && var next := Apply(sys, a);
            && next == sys.(client := next.client, toServer := next.toServer)
            && next.client == sys.client.(s := next.client.s, accepted := said + [data])
            && ClientBusy(cfg, next.client, next.client.s, |said| + 1) && next.client.s.state == Established
            && next.client.s.send.log[|said| + 1] == Entry(Data, ServerId(cfg), Content(data))
  {
    hide Send, Coherent, Windows, ReaderIdle;
    IdleWriterSends(sys.client.s, |said| + 1, data);
  }

  /** All of it is said, one thing after the other. */
  lemma {:induction false} AllIsSaid(cfg: Config, said: seq<Bytes>) returns (run: seq<Action>, sys: System)
    requires Supported(cfg) && forall d :: d in said ==> |d| <= 1384
    ensures Reached(cfg, run, sys) && Settled(cfg, sys, said)
    decreases |said|
  {
    hide Reached, Settled;
    if said == [] {
      run, sys := HandshakeSettles(cfg);
    } else {
      var n := |said| - 1;
      run, sys := AllIsSaid(cfg, said[..n]);
      assert said[n] in said && said[..n] + [said[n]] == said;
      run, sys := OneMoreIsSaid(cfg, run, sys, said[..n], said[n]);
    }
  }

  // ------------------------------------------------------------------ the end

  /** Shut down, an idle writer of session version 2 or later sequences its Fin at the next update. */
  lemma IdleWriterFins(s: Session, n: nat)
    requires WriterIdle(s, n) && s.sessionVersion >= 2
    ensures Windows(s)
    ensures var u := UpdateWindows(Shutdown(s, Success), Calm());
            && u.out == [] && u.calls == [UpdateSession] && WriterBusy(u.s, n) && u.s.sid == s.sid
            && u.s.sessionVersion == s.sessionVersion && u.s.send.log[n] == Entry(Fin, s.sid, Empty)
  {
    hide LogShape;
    var t := Shutdown(s, Success);
    ShutdownKeeps(s, Success);
    assert UpdateReceiveWindow(t, Delivered) == Reply(t, []) && RetransmitRound(t, 1, Calm()) == Reply(t, []);
    assert UpdateSendWindow(t, 1, Calm()) == Reply(t, [] + []);
    ShutdownSendsFin(t);
    OwnersAreTold(t);
    ResumeIsReported(t);
  }

  lemma ClientShutsDown(cfg: Config, sys: System, said: seq<Bytes>)
    requires Settled(cfg, sys, said) && AllWindows(sys)
    ensures var a := ClientOp(ShutdownOp(Success));
            && Enabled(sys, a)
            && var next := Apply(sys, a);
            && next == sys.(client := next.client, toServer := next.toServer)
            && next.client == sys.client.(s := Shutdown(sys.client.s, Success))
  {}

  lemma ClientFins(cfg: Config, sys: System, s: Session, n: nat)
    requires WriterIdle(s, n) && s.sid == ServerId(cfg) && s.sessionVersion == AgreedSessionVersion(cfg) >= 2
    requires sys.client.s == Shutdown(s, Success) && sys.client.key == Some(ServerId(cfg)) && AllWindows(sys)
    ensures var next := Apply(sys, ClientOp(UpdateOp(Calm())));
            && next == sys.(client := next.client, toServer := next.toServer)
            && next.client == sys.client.(s := next.client.s, calls := next.client.calls)
            && ClientBusy(cfg, next.client, next.client.s, n)
            && next.client.s.send.log[n] == Entry(Fin, ServerId(cfg), Empty)
  {
    hide UpdateWindows, Coherent, Windows, WriterBusy, WriterIdle, Shutdown;
    IdleWriterFins(s, n);
  }

  lemma ConversationEnds(cfg: Config, run: seq<Action>, sys: System, said: seq<Bytes>)
    returns (longer: seq<Action>, next: System)
    requires Sensible(cfg) && Reached(cfg, run, sys) && Settled(cfg, sys, said) && cfg.clientSessionVersion >= 2
    ensures Reached(cfg, longer, next)
    ensures ServerId(cfg) in next.servers && next.client.s.sid == ServerId(cfg) && next.client.accepted == said
    ensures next.servers[ServerId(cfg)].received == said && next.servers[ServerId(cfg)].ended
  {
    hide Reached, AllWindows, Coherent, UpdateWindows, HandleMessage, WriterIdle, ReaderIdle, WriterBusy, ReaderHolds,
         Send, Apply, Enabled, Shutdown;
    var n := |said| + 1;
    ReachedHasWindows(cfg, run, sys);
    var a1 := ClientOp(ShutdownOp(Success));
    ClientShutsDown(cfg, sys, said);
    OneMore(cfg, run, sys, a1);
    var s1 := Apply(sys, a1);
    var update := ClientOp(UpdateOp(Calm()));
    EverySystemMayUpdateItsClient(s1);
    ClientFins(cfg, s1, sys.client.s, n);
    OneMore(cfg, run + [a1], s1, update);
    var s2 := Apply(s1, update);
    var w := s2.client.s;
    EverySystemMayUpdateItsClient(s2);
    ClientUpdates(cfg, s2, n);
    OneMore(cfg, run + [a1] + [update], s2, update);
    var s3 := Apply(s2, update);
    var f := Carry(Entry(Fin, ServerId(cfg), Empty), n + 1, w.recv.availableSize);
    var a4 := ToServer(f, Calm(), 0, true, true);
    ServerHears(cfg, s3, said, f);
    OneMore(cfg, run + [a1] + [update] + [update], s3, a4);
    var s4 := Apply(s3, a4);
    var a5 := ServerOp(ServerId(cfg), ReceiveOp(1384));
    ServerReads(cfg, s4, n, f);
    OneMore(cfg, run + [a1] + [update] + [update] + [a4], s4, a5);
    longer, next := run + [a1] + [update] + [update] + [a4] + [a5], Apply(s4, a5);
  }

  /** For any client and server whose versions overlap, and anything the client wants to say in messages of at most 1384
      bytes, some run accepts all of it, and hands all of it out at the other end; and, from session version 2 on,
      reports the end of the stream there after the client has shut down. */
  lemma AnythingCanBeSaid(cfg: Config, said: seq<Bytes>)
    requires Supported(cfg) && forall d :: d in said ==> |d| <= 1384
    ensures exists run, sys ::
              && Reached(cfg, run, sys) && sys.client.s.sid in sys.servers && sys.client.accepted == said
              && sys.servers[sys.client.s.sid].received == said
              && (cfg.clientSessionVersion >= 2 ==> sys.servers[sys.client.s.sid].ended)
  {
    hide Reached, Coherent, WriterIdle, ReaderIdle;
    var run, sys := AllIsSaid(cfg, said);
    if cfg.clientSessionVersion >= 2 {
      run, sys := ConversationEnds(cfg, run, sys, said);
    }
  }
}
