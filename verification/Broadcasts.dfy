/** What the router transmits, as a record: to whom each broadcast went, and what became of each message to
    one client. */
module Broadcasts {
  import opened Wire
  import opened RouterBooks

  /** The messages the router sends: its own announcements and questions, its answers, and what it passes on. */
  datatype Notice =
    | Arrival(id: ClientId)
    | Departure(id: ClientId)
    | Ping(host: ClientId)
    | Relay(message: Message)
    | Question
    | ConnectAnswer(given: ClientId, result: Result)
    | DisconnectAnswer
    | StatusAnswer

  // The sender in the header of a broadcast: the one client that is not sent it.
  function SenderOf(n: Notice): ClientId {
    match n
    case Arrival(id) => id
    case Departure(id) => id
    case Ping(host) => host
    case Relay(m) => m.src
    case Question => BROADCAST_CLIENT_ID
    case ConnectAnswer(_, _) => BROADCAST_CLIENT_ID
    case DisconnectAnswer => BROADCAST_CLIENT_ID
    case StatusAnswer => BROADCAST_CLIENT_ID
  }

  // A client of a transport that serves its clients directly, or a transport that forwards.
  datatype Target = Client(handle: Handle, id: ClientId) | Forwarder(handle: Handle)

  datatype Attempt = Attempt(target: Target, failed: bool)

  /** One entry of the record: a broadcast with the transports it found, or a message to one connection. */
  datatype Sending =
    | ToAll(notice: Notice, source: Option<Handle>, transports: map<Handle, Transport>, batch: seq<Attempt>)
    | ToOne(notice: Notice, connection: Connection, outcome: Result)

  /** Whom a broadcast concerns: every client of every transport that does not forward, but for the sender; and every
      transport that does, but for the one it came from. */
  predicate IsTarget(transports: map<Handle, Transport>, sender: ClientId, source: Option<Handle>, t: Target) {
    match t
    case Client(h, id) => h in transports && !transports[h].forwarding && id in transports[h].clients && id != sender
    case Forwarder(h) => h in transports && transports[h].forwarding && source != Some(h)
  }

  function Targets(batch: seq<Attempt>): (ts: seq<Target>)
    ensures |ts| == |batch| && forall i :: 0 <= i < |ts| ==> ts[i] == batch[i].target
  {
    seq(|batch|, i requires 0 <= i < |batch| => batch[i].target)
  }

  /** Each of them was tried, once, and nobody else. */
  ghost predicate Covers(transports: map<Handle, Transport>, sender: ClientId, source: Option<Handle>,
                         batch: seq<Attempt>) {
    && (forall t :: t in Targets(batch) <==> IsTarget(transports, sender, source, t))
    && (forall i, j :: 0 <= i < j < |batch| ==> batch[i].target != batch[j].target)
  }

  /** The last client the broadcast failed for, if it failed for any. */
  function LastFailure(batch: seq<Attempt>): ClientId {
    if batch == [] then BROADCAST_CLIENT_ID
    else
      var last := batch[|batch| - 1];
      if last.failed && last.target.Client? then last.target.id else LastFailure(batch[..|batch| - 1])
  }

  /** It is somebody exactly if the broadcast failed for somebody. */
  lemma {:induction false} LastFailureIsOne(batch: seq<Attempt>)
    requires forall i :: 0 <= i < |batch| && batch[i].target.Client? ==> batch[i].target.id != BROADCAST_CLIENT_ID
    ensures LastFailure(batch) == BROADCAST_CLIENT_ID <==>
              forall i :: 0 <= i < |batch| ==> !(batch[i].failed && batch[i].target.Client?)
    ensures LastFailure(batch) != BROADCAST_CLIENT_ID ==>
              exists i :: 0 <= i < |batch| && batch[i].failed && batch[i].target.Client?
                          && batch[i].target.id == LastFailure(batch)
  {
    if batch != [] {
      var n := |batch| - 1;
      LastFailureIsOne(batch[..n]);
      assert forall i :: 0 <= i < n ==> batch[..n][i] == batch[i];
    }
  }

  // The clients the broadcast failed for are among these.
  ghost predicate FailedAreIn(batch: seq<Attempt>, ids: set<ClientId>) {
    forall i :: 0 <= i < |batch| && batch[i].failed && batch[i].target.Client? ==> batch[i].target.id in ids
  }

  ghost predicate Honest(s: Sending) {
    s.ToAll? ==> Covers(s.transports, SenderOf(s.notice), s.source, s.batch)
  }

  /** The departures announced, in order. */
  function Departures(sent: seq<Sending>): seq<ClientId> {
    if sent == [] then []
    else
      var last := sent[|sent| - 1];
      Departures(sent[..|sent| - 1]) + if last.ToAll? && last.notice.Departure? then [last.notice.id] else []
  }

  lemma OneMoreSent(sent: seq<Sending>, s: Sending)
    ensures Departures(sent + [s]) == Departures(sent) + if s.ToAll? && s.notice.Departure? then [s.notice.id] else []
  {
    assert (sent + [s])[..|sent|] == sent;
  }

  /** A broadcast of the notice to the transports as they are given. */
  ghost predicate IsBroadcast(s: Sending, notice: Notice, source: Option<Handle>, transports: map<Handle, Transport>) {
    s.ToAll? && s.notice == notice && s.source == source && s.transports == transports
    && Covers(transports, SenderOf(notice), source, s.batch)
  }

  // ------------------------------------------------------------------ half a broadcast

  // What is still to be tried: the transports that are left, and the clients left of the one at hand.
  predicate IsLeft(t: Target, handles: set<Handle>, handle: Handle, clients: set<ClientId>) {
    t.handle in handles || (t.Client? && t.handle == handle && t.id in clients)
  }

  ghost predicate CoversBut(transports: map<Handle, Transport>, sender: ClientId, source: Option<Handle>,
                            batch: seq<Attempt>, handles: set<Handle>, handle: Handle, clients: set<ClientId>) {
    && (forall t :: t in Targets(batch) <==>
          IsTarget(transports, sender, source, t) && !IsLeft(t, handles, handle, clients))
    && (forall i, j :: 0 <= i < j < |batch| ==> batch[i].target != batch[j].target)
  }

  lemma NothingCovered(transports: map<Handle, Transport>, sender: ClientId, source: Option<Handle>)
    ensures CoversBut(transports, sender, source, [], transports.Keys, 0, {})
  {}

  lemma AllCovered(transports: map<Handle, Transport>, sender: ClientId, source: Option<Handle>, batch: seq<Attempt>,
                   handle: Handle)
    requires CoversBut(transports, sender, source, batch, {}, handle, {})
    ensures Covers(transports, sender, source, batch)
  {}

  // One more attempt, at a target that was left.
  lemma OneMoreCovered(transports: map<Handle, Transport>, sender: ClientId, source: Option<Handle>,
                       batch: seq<Attempt>, handles: set<Handle>, handle: Handle, clients: set<ClientId>, a: Attempt,
                       handles2: set<Handle>, handle2: Handle, clients2: set<ClientId>)
    requires CoversBut(transports, sender, source, batch, handles, handle, clients)
    requires IsTarget(transports, sender, source, a.target) && IsLeft(a.target, handles, handle, clients)
    requires forall t :: IsTarget(transports, sender, source, t) ==>
               (IsLeft(t, handles, handle, clients) <==> t == a.target || IsLeft(t, handles2, handle2, clients2))
    requires !IsLeft(a.target, handles2, handle2, clients2)
    ensures CoversBut(transports, sender, source, batch + [a], handles2, handle2, clients2)
  {
    var longer := batch + [a];
    forall t ensures t in Targets(longer) <==> t in Targets(batch) || t == a.target {
      assert Targets(longer) == Targets(batch) + [a.target];
    }
    forall i | 0 <= i < |batch| ensures longer[i].target != a.target {
      assert Targets(batch)[i] in Targets(batch);
    }
  }

  // Going on to the same targets in another way.
  lemma SameCovered(transports: map<Handle, Transport>, sender: ClientId, source: Option<Handle>, batch: seq<Attempt>,
                    handles: set<Handle>, handle: Handle, clients: set<ClientId>,
                    handles2: set<Handle>, handle2: Handle, clients2: set<ClientId>)
    requires CoversBut(transports, sender, source, batch, handles, handle, clients)
    requires forall t :: IsTarget(transports, sender, source, t) ==>
               (IsLeft(t, handles, handle, clients) <==> IsLeft(t, handles2, handle2, clients2))
    ensures CoversBut(transports, sender, source, batch, handles2, handle2, clients2)
  {}

  lemma LastFailureNext(batch: seq<Attempt>, a: Attempt)
    ensures LastFailure(batch + [a]) == if a.failed && a.target.Client? then a.target.id else LastFailure(batch)
  {
    assert (batch + [a])[..|batch|] == batch;
  }
}
