/** The receive loop of a transport: what arrives is routed at once, and what could not be taken is tried once more. */
module TransportThreads {
  import opened Wire

  // One call of the router: in which pass, whether for the second time, and what came of it.
  datatype Attempt<M> = Attempt(message: M, pass: nat, again: bool, result: Result)

  // ------------------------------------------------------------------ the loop

  function Tries<M>(messages: seq<M>, pass: nat, again: bool, k: nat, route: nat -> Result): seq<Attempt<M>> {
    seq(|messages|, j requires 0 <= j < |messages| => Attempt(messages[j], pass, again, route(k + j)))
  }

  /** The messages that were not taken, in order. */
  function Refused<M>(tries: seq<Attempt<M>>): seq<M> {
    if tries == [] then []
    else
      var last := tries[|tries| - 1];
      Refused(tries[..|tries| - 1]) + if last.result == NotReady then [last.message] else []
  }

  /** All attempts from some pass on: the k-th call of the router since the start has the outcome `route(k)`. */
  function Attempts<M>(batches: seq<seq<M>>, retry: seq<M>, pass: nat, k: nat, route: nat -> Result): seq<Attempt<M>>
    decreases |batches|
  {
    if batches == [] then []
    else
      var first := Tries(batches[0], pass, false, k + |retry|, route);
      Tries(retry, pass, true, k, route) + first
      + Attempts(batches[1..], Refused(first), pass + 1, k + |retry| + |batches[0]|, route)
  }

  /** Routes the whole queue; what is new in it and is refused is queued to be tried again. */
  method RouteQueue<M>(recvQueue: seq<M>, firstNewMessageIndex: nat, pass: nat, k: nat, route: nat -> Result)
    returns (log: seq<Attempt<M>>, retryQueue: seq<M>)
    requires firstNewMessageIndex <= |recvQueue|
    ensures var first := Tries(recvQueue[firstNewMessageIndex..], pass, false, k + firstNewMessageIndex, route);
            && log == Tries(recvQueue[..firstNewMessageIndex], pass, true, k, route) + first
            && retryQueue == Refused(first)
  {
    hide Refused;
    log, retryQueue := [], [];
    ghost var first := Tries(recvQueue[firstNewMessageIndex..], pass, false, k + firstNewMessageIndex, route);
    ghost var whole := Tries(recvQueue[..firstNewMessageIndex], pass, true, k, route) + first;
    NothingRefused(first[..0]);
    var messageNumber := 0;
    while messageNumber < |recvQueue|
      invariant 0 <= messageNumber <= |recvQueue| && log == whole[..messageNumber]
      invariant retryQueue == if messageNumber <= firstNewMessageIndex then []
                              else Refused(first[..messageNumber - firstNewMessageIndex])
    {
      var message := recvQueue[messageNumber];
      messageNumber := messageNumber + 1;
      var result := route(k + |log|);
      log := log + [Attempt(message, pass, messageNumber <= firstNewMessageIndex, result)];
      if messageNumber > firstNewMessageIndex {
        RefusedOneMore(first, messageNumber - firstNewMessageIndex);
      }
      if result == NotReady && messageNumber > firstNewMessageIndex {
        retryQueue := retryQueue + [message];
      }
    }
    assert whole[..|whole|] == whole && first[..|first|] == first;
    if first == [] {
      NothingRefused(first);
    }
  }

  lemma NothingRefused<M>(tries: seq<Attempt<M>>)
    requires tries == []
    ensures Refused(tries) == []
  {}

  /** The thread's function: `batches[i]` is what the transport delivers in pass i, before the thread is stopped. */
  method ReceiveThreadFunc<M>(batches: seq<seq<M>>, route: nat -> Result) returns (log: seq<Attempt<M>>)
    ensures log == Attempts(batches, [], 0, 0, route)
  {
    hide Attempts, Tries, Refused;
    log := [];
    var recvQueue: seq<M>, retryQueue: seq<M> := [], [];
    var pass := 0;
    assert batches[0..] == batches;
    while pass < |batches|
      invariant 0 <= pass <= |batches|
      invariant Attempts(batches, [], 0, 0, route) == log + Attempts(batches[pass..], recvQueue, pass, |log|, route)
    {
      var firstNewMessageIndex := |recvQueue|;
      ghost var retry := recvQueue;
      var received := 0;
      while received < |batches[pass]|
        invariant 0 <= received <= |batches[pass]|
        invariant recvQueue == retry + batches[pass][..received]
      {
        recvQueue := recvQueue + [batches[pass][received]];
        received := received + 1;
      }
      assert recvQueue[..firstNewMessageIndex] == retry && recvQueue[firstNewMessageIndex..] == batches[pass];
      var routed: seq<Attempt<M>>;
      routed, retryQueue := RouteQueue(recvQueue, firstNewMessageIndex, pass, |log|, route);
      OnePass(batches[pass..], retry, pass, |log|, route);
      assert batches[pass..][0] == batches[pass] && batches[pass..][1..] == batches[pass + 1..];
      assert |routed| == |retry| + |batches[pass]| by {
        TriesLength(retry, pass, true, |log|, route);
        TriesLength(batches[pass], pass, false, |log| + |retry|, route);
      }
      log := log + routed;
      recvQueue, retryQueue := retryQueue, [];
      pass := pass + 1;
    }
    NoMorePasses(batches[pass..], recvQueue, pass, |log|, route);
  }

  lemma TriesLength<M>(messages: seq<M>, pass: nat, again: bool, k: nat, route: nat -> Result)
    ensures |Tries(messages, pass, again, k, route)| == |messages|
  {}

  lemma OnePass<M>(batches: seq<seq<M>>, retry: seq<M>, pass: nat, k: nat, route: nat -> Result)
    requires batches != []
    ensures var first := Tries(batches[0], pass, false, k + |retry|, route);
            Attempts(batches, retry, pass, k, route)
            == Tries(retry, pass, true, k, route) + first
               + Attempts(batches[1..], Refused(first), pass + 1, k + |retry| + |batches[0]|, route)
  {}

  lemma NoMorePasses<M>(batches: seq<seq<M>>, retry: seq<M>, pass: nat, k: nat, route: nat -> Result)
    requires batches == []
    ensures Attempts(batches, retry, pass, k, route) == []
  {}

  lemma RefusedOneMore<M>(tries: seq<Attempt<M>>, n: nat)
    requires 1 <= n <= |tries|
    ensures Refused(tries[..n])
            == Refused(tries[..n - 1]) + if tries[n - 1].result == NotReady then [tries[n - 1].message] else []
  {
    assert tries[..n][..n - 1] == tries[..n - 1];
  }

  // ------------------------------------------------------------------ what is routed, how often, and when

  function Flatten<M>(batches: seq<seq<M>>): seq<M> {
    if batches == [] then [] else batches[0] + Flatten(batches[1..])
  }

  predicate Selects<M>(a: Attempt<M>, pass: nat, again: bool) {
    a.pass == pass && a.again == again
  }

  /** The attempts of one kind in one pass. */
  function Of<M>(log: seq<Attempt<M>>, pass: nat, again: bool): seq<Attempt<M>> {
    if log == [] then []
    else
      var last := log[|log| - 1];
      Of(log[..|log| - 1], pass, again) + if Selects(last, pass, again) then [last] else []
  }

  function Messages<M>(log: seq<Attempt<M>>): seq<M> {
    seq(|log|, j requires 0 <= j < |log| => log[j].message)
  }

  function FirstAttempts<M>(log: seq<Attempt<M>>): seq<M> {
    if log == [] then []
    else
      var last := log[|log| - 1];
      FirstAttempts(log[..|log| - 1]) + if last.again then [] else [last.message]
  }

  lemma {:induction false} FirstAttemptsJoin<M>(x: seq<Attempt<M>>, y: seq<Attempt<M>>)
    ensures FirstAttempts(x + y) == FirstAttempts(x) + FirstAttempts(y)
    decreases |y|
  {
    if y == [] {
      assert x + y == x;
    } else {
      FirstAttemptsJoin(x, y[..|y| - 1]);
      assert (x + y)[..|x + y| - 1] == x + y[..|y| - 1];
    }
  }

  lemma TriesAt<M>(messages: seq<M>, pass: nat, again: bool, k: nat, route: nat -> Result)
    ensures var t := Tries(messages, pass, again, k, route);
            |t| == |messages| && forall j :: 0 <= j < |t| ==> t[j] == Attempt(messages[j], pass, again, route(k + j))
  {}

  lemma {:induction false} FirstAttemptsOfTries<M>(messages: seq<M>, pass: nat, again: bool, k: nat,
                                                   route: nat -> Result)
    ensures FirstAttempts(Tries(messages, pass, again, k, route)) == if again then [] else messages
  {
    var t := Tries(messages, pass, again, k, route);
    hide Tries;
    TriesAt(messages, pass, again, k, route);
    if messages != [] {
      var n := |messages| - 1;
      FirstAttemptsOfTries(messages[..n], pass, again, k, route);
      TriesAt(messages[..n], pass, again, k, route);
      assert t[..n] == Tries(messages[..n], pass, again, k, route);
      assert messages == messages[..n] + [messages[n]];
    }
  }

  lemma NothingFirst<M>(log: seq<Attempt<M>>)
    requires log == []
    ensures FirstAttempts(log) == []
  {}

  /** Every message received is tried for the first time, once, in the order of arrival; and nothing else is. */
  lemma {:induction false} FirstAttemptsAreArrivals<M>(batches: seq<seq<M>>, retry: seq<M>, pass: nat, k: nat,
                                                       route: nat -> Result)
    ensures FirstAttempts(Attempts(batches, retry, pass, k, route)) == Flatten(batches)
    decreases |batches|
  {
    hide Attempts, Tries, FirstAttempts, Refused;
    if batches != [] {
      var again := Tries(retry, pass, true, k, route);
      var first := Tries(batches[0], pass, false, k + |retry|, route);
      var k' := k + |retry| + |batches[0]|;
      var rest := Attempts(batches[1..], Refused(first), pass + 1, k', route);
      FirstAttemptsJoin(again + first, rest);
      FirstAttemptsJoin(again, first);
      FirstAttemptsOfTries(retry, pass, true, k, route);
      FirstAttemptsOfTries(batches[0], pass, false, k + |retry|, route);
      FirstAttemptsAreArrivals(batches[1..], Refused(first), pass + 1, k', route);
      OnePass(batches, retry, pass, k, route);
    } else {
      NoMorePasses(batches, retry, pass, k, route);
      NothingFirst(Attempts(batches, retry, pass, k, route));
    }
  }

  lemma {:induction false} OfJoin<M>(x: seq<Attempt<M>>, y: seq<Attempt<M>>, pass: nat, again: bool)
    ensures Of(x + y, pass, again) == Of(x, pass, again) + Of(y, pass, again)
    decreases |y|
  {
    if y == [] {
      assert x + y == x;
    } else {
      OfJoin(x, y[..|y| - 1], pass, again);
      assert (x + y)[..|x + y| - 1] == x + y[..|y| - 1];
    }
  }

  lemma {:induction false} OfUniform<M>(t: seq<Attempt<M>>, pass: nat, again: bool, p: nat, a: bool)
    requires forall i :: 0 <= i < |t| ==> Selects(t[i], p, a)
    ensures Of(t, pass, again) == if pass == p && again == a then t else []
  {
    if t != [] {
      OfUniform(t[..|t| - 1], pass, again, p, a);
      assert t == t[..|t| - 1] + [t[|t| - 1]];
    }
  }

  lemma {:induction false} OfLater<M>(t: seq<Attempt<M>>, pass: nat, again: bool)
    requires forall i :: 0 <= i < |t| ==> t[i].pass > pass
    ensures Of(t, pass, again) == []
  {
    if t != [] {
      OfLater(t[..|t| - 1], pass, again);
    }
  }

  lemma {:induction false} PassesGrow<M>(batches: seq<seq<M>>, retry: seq<M>, pass: nat, k: nat, route: nat -> Result)
    ensures forall i :: 0 <= i < |Attempts(batches, retry, pass, k, route)| ==>
              pass <= Attempts(batches, retry, pass, k, route)[i].pass < pass + |batches|
    decreases |batches|
  {
    if batches != [] {
      var first := Tries(batches[0], pass, false, k + |retry|, route);
      PassesGrow(batches[1..], Refused(first), pass + 1, k + |retry| + |batches[0]|, route);
    }
  }

  // The three parts of a pass and what follows it.
  lemma OfAttempts<M>(batches: seq<seq<M>>, retry: seq<M>, pass: nat, k: nat, route: nat -> Result, p: nat, again: bool)
    requires batches != []
    ensures var first := Tries(batches[0], pass, false, k + |retry|, route);
            var rest := Attempts(batches[1..], Refused(first), pass + 1, k + |retry| + |batches[0]|, route);
            Of(Attempts(batches, retry, pass, k, route), p, again)
            == if p == pass then (if again then Tries(retry, pass, true, k, route) else first) else Of(rest, p, again)
  {
    hide Attempts, Refused, Of;
    var t := Tries(retry, pass, true, k, route);
    var first := Tries(batches[0], pass, false, k + |retry|, route);
    var rest := Attempts(batches[1..], Refused(first), pass + 1, k + |retry| + |batches[0]|, route);
    OnePass(batches, retry, pass, k, route);
    OfJoin(t + first, rest, p, again);
    OfJoin(t, first, p, again);
    OfUniform(t, p, again, pass, true);
    OfUniform(first, p, again, pass, false);
    if p == pass {
      PassesGrow(batches[1..], Refused(first), pass + 1, k + |retry| + |batches[0]|, route);
      OfLater(rest, p, again);
    }
  }

  lemma MessagesOfTries<M>(messages: seq<M>, pass: nat, again: bool, k: nat, route: nat -> Result)
    ensures Messages(Tries(messages, pass, again, k, route)) == messages
  {}

  lemma MessagesJoin<M>(x: seq<Attempt<M>>, y: seq<Attempt<M>>)
    ensures Messages(x + y) == Messages(x) + Messages(y)
  {}

  /** What is tried again in a pass is exactly what the pass before it tried for the first time and was refused, in the
      same order: so a message is routed twice if its first attempt was refused and another pass came, and else once. */
  lemma {:induction false} RetriesAreRefusals<M>(batches: seq<seq<M>>, retry: seq<M>, pass: nat, k: nat,
                                                 route: nat -> Result, p: nat)
    requires pass < p < pass + |batches|
    ensures var log := Attempts(batches, retry, pass, k, route);
            Messages(Of(log, p, true)) == Refused(Of(log, p - 1, false))
    decreases |batches|
  {
    hide Attempts, Tries, Refused, Of, Messages;
    var first := Tries(batches[0], pass, false, k + |retry|, route);
    var k' := k + |retry| + |batches[0]|;
    OfAttempts(batches, retry, pass, k, route, p, true);
    OfAttempts(batches, retry, pass, k, route, p - 1, false);
    if p == pass + 1 {
      OfAttempts(batches[1..], Refused(first), pass + 1, k', route, p, true);
      MessagesOfTries(Refused(first), p, true, k', route);
    } else {
      RetriesAreRefusals(batches[1..], Refused(first), pass + 1, k', route, p);
    }
  }

  /** In the first pass nothing is tried again. */
  lemma NoRetriesAtFirst<M>(batches: seq<seq<M>>, route: nat -> Result)
    ensures Of(Attempts(batches, [], 0, 0, route), 0, true) == []
  {
    if batches != [] {
      OfAttempts(batches, [], 0, 0, route, 0, true);
    }
  }

  /** In each pass just what arrived in it is tried for the first time. */
  lemma {:induction false} ArrivalsAreTriedAtOnce<M>(batches: seq<seq<M>>, retry: seq<M>, pass: nat, k: nat,
                                                     route: nat -> Result, p: nat)
    requires pass <= p < pass + |batches|
    ensures Messages(Of(Attempts(batches, retry, pass, k, route), p, false)) == batches[p - pass]
    decreases |batches|
  {
    hide Attempts, Tries, Refused, Of, Messages;
    OfAttempts(batches, retry, pass, k, route, p, false);
    if p == pass {
      MessagesOfTries(batches[0], pass, false, k + |retry|, route);
    } else {
      var first := Tries(batches[0], pass, false, k + |retry|, route);
      ArrivalsAreTriedAtOnce(batches[1..], Refused(first), pass + 1, k + |retry| + |batches[0]|, route, p);
    }
  }

  /** The results noted are the router's answers, one for each attempt, in order. */
  lemma {:induction false} ResultsAreAnswers<M>(batches: seq<seq<M>>, retry: seq<M>, pass: nat, k: nat,
                                                route: nat -> Result, i: nat)
    requires i < |Attempts(batches, retry, pass, k, route)|
    ensures Attempts(batches, retry, pass, k, route)[i].result == route(k + i)
    decreases |batches|
  {
    hide Attempts, Tries, Refused;
    if batches == [] {
      NoMorePasses(batches, retry, pass, k, route);
    } else {
      var first := Tries(batches[0], pass, false, k + |retry|, route);
      var n := |retry| + |batches[0]|;
      OnePass(batches, retry, pass, k, route);
      TriesAt(retry, pass, true, k, route);
      TriesAt(batches[0], pass, false, k + |retry|, route);
      if i >= n {
        ResultsAreAnswers(batches[1..], Refused(first), pass + 1, k + n, route, i - n);
        assert k + n + (i - n) == k + i && k + n == k + |retry| + |batches[0]|;
      } else if i >= |retry| {
        assert k + |retry| + (i - |retry|) == k + i;
      }
    }
  }

  // `a` may come before `b` in the log.
  predicate InOrder<M>(a: Attempt<M>, b: Attempt<M>) {
    a.pass < b.pass || (a.pass == b.pass && (b.again ==> a.again))
  }

  /** The passes follow one another, and in each the second attempts come first: so a message is tried again before any
      that was received in a later pass. */
  lemma {:induction false} RetriesComeFirst<M>(batches: seq<seq<M>>, retry: seq<M>, pass: nat, k: nat,
                                               route: nat -> Result, i: nat, j: nat)
    requires i < j < |Attempts(batches, retry, pass, k, route)|
    ensures InOrder(Attempts(batches, retry, pass, k, route)[i], Attempts(batches, retry, pass, k, route)[j])
    decreases |batches|
  {
    var log := Attempts(batches, retry, pass, k, route);
    var first := Tries(batches[0], pass, false, k + |retry|, route);
    var k' := k + |retry| + |batches[0]|;
    var n := |retry| + |first|;
    var rest := Attempts(batches[1..], Refused(first), pass + 1, k', route);
    PassesGrow(batches[1..], Refused(first), pass + 1, k', route);
    if i >= n {
      assert log[i] == rest[i - n] && log[j] == rest[j - n];
      RetriesComeFirst(batches[1..], Refused(first), pass + 1, k', route, i - n, j - n);
    } else if j >= n {
      assert log[j] == rest[j - n];
    }
  }

  /** Conservation: all attempts together are the messages received, and once more those refused before the
      last pass. */
  lemma {:induction false} AttemptsAreConserved<M>(batches: seq<seq<M>>, retry: seq<M>, pass: nat, k: nat,
                                                   route: nat -> Result)
    requires batches != []
    ensures var log := Attempts(batches, retry, pass, k, route);
            multiset(Messages(log))
            == multiset(retry) + multiset(Flatten(batches)) + multiset(RefusedBefore(log, pass + |batches| - 1))
    decreases |batches|
  {
    hide Attempts, Refused, RefusedBefore, Messages, Tries, Flatten;
    FlattenOne(batches);
    var again := Tries(retry, pass, true, k, route);
    var first := Tries(batches[0], pass, false, k + |retry|, route);
    var k' := k + |retry| + |batches[0]|;
    var rest := Attempts(batches[1..], Refused(first), pass + 1, k', route);
    var end := pass + |batches| - 1;
    var log := Attempts(batches, retry, pass, k, route);
    var refused := if pass < end then Refused(first) else [];
    assert log == again + first + rest by {
      OnePass(batches, retry, pass, k, route);
    }
    assert Messages(log) == retry + batches[0] + Messages(rest) by {
      MessagesJoin(again + first, rest);
      MessagesJoin(again, first);
      MessagesOfTries(retry, pass, true, k, route);
      MessagesOfTries(batches[0], pass, false, k + |retry|, route);
    }
    assert RefusedBefore(log, end) == refused + RefusedBefore(rest, end) by {
      TriesSelect(retry, pass, true, k, route);
      TriesSelect(batches[0], pass, false, k + |retry|, route);
      RefusedOfPass(again, first, rest, pass, end);
    }
    if |batches| > 1 {
      AttemptsAreConserved(batches[1..], Refused(first), pass + 1, k', route);
    } else {
      NoMorePasses(batches[1..], Refused(first), pass + 1, k', route);
      NothingIn(rest, end);
      FlattenNone(batches[1..]);
    }
    Balance(retry, batches[0], Messages(rest), refused, Flatten(batches[1..]), RefusedBefore(rest, end));
  }

  lemma FlattenOne<M>(batches: seq<seq<M>>)
    requires batches != []
    ensures Flatten(batches) == batches[0] + Flatten(batches[1..])
  {}

  lemma FlattenNone<M>(batches: seq<seq<M>>)
    requires batches == []
    ensures Flatten(batches) == []
  {}

  // One step of the balance.
  lemma Balance<M>(retry: seq<M>, batch: seq<M>, messages: seq<M>, refused: seq<M>, later: seq<M>, before: seq<M>)
    requires multiset(messages) == multiset(refused) + multiset(later) + multiset(before)
    ensures multiset(retry + batch + messages) == multiset(retry) + multiset(batch + later) + multiset(refused + before)
  {}

  lemma RefusedOfPass<M>(again: seq<Attempt<M>>, first: seq<Attempt<M>>, rest: seq<Attempt<M>>, pass: nat, end: nat)
    requires forall i :: 0 <= i < |again| ==> Selects(again[i], pass, true)
    requires forall i :: 0 <= i < |first| ==> Selects(first[i], pass, false)
    ensures RefusedBefore(again + first + rest, end)
            == (if pass < end then Refused(first) else []) + RefusedBefore(rest, end)
  {
    hide RefusedBefore, Refused;
    RefusedBeforeJoin(again + first, rest, end);
    RefusedBeforeJoin(again, first, end);
    RefusedBeforeUniform(again, end, pass, true);
    RefusedBeforeUniform(first, end, pass, false);
  }

  lemma TriesSelect<M>(messages: seq<M>, pass: nat, again: bool, k: nat, route: nat -> Result)
    ensures forall i :: 0 <= i < |Tries(messages, pass, again, k, route)| ==>
              Selects(Tries(messages, pass, again, k, route)[i], pass, again)
  {}

  lemma NothingIn<M>(log: seq<Attempt<M>>, end: nat)
    requires log == []
    ensures Messages(log) == [] && RefusedBefore(log, end) == []
  {}

  // The first attempts refused in passes before `end`.
  function RefusedBefore<M>(log: seq<Attempt<M>>, end: nat): seq<M> {
    if log == [] then []
    else
      var last := log[|log| - 1];
      RefusedBefore(log[..|log| - 1], end)
      + if last.pass < end && !last.again && last.result == NotReady then [last.message] else []
  }

  lemma {:induction false} RefusedBeforeJoin<M>(x: seq<Attempt<M>>, y: seq<Attempt<M>>, end: nat)
    ensures RefusedBefore(x + y, end) == RefusedBefore(x, end) + RefusedBefore(y, end)
    decreases |y|
  {
    if y == [] {
      assert x + y == x;
    } else {
      RefusedBeforeJoin(x, y[..|y| - 1], end);
      assert (x + y)[..|x + y| - 1] == x + y[..|y| - 1];
    }
  }

  lemma {:induction false} RefusedBeforeUniform<M>(t: seq<Attempt<M>>, end: nat, pass: nat, again: bool)
    requires forall i :: 0 <= i < |t| ==> Selects(t[i], pass, again)
    ensures RefusedBefore(t, end) == if pass < end && !again then Refused(t) else []
  {
    if t != [] {
      RefusedBeforeUniform(t[..|t| - 1], end, pass, again);
    }
  }
}
