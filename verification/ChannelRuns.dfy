/** What every run of the channel daemons keeps, and what an open that ends in BufferError breaks. */
module ChannelRuns {
  import opened Common
  import opened ChannelRecord
  import opened Operations
  import opened ChannelServer

  /** Whether a request opens the channel but not all that waits is answered. */
  predicate CutShort(s: System, rq: Request)
    requires Consistent(s)
  {
    && rq.OpenRequest? && !s.crashed
    && CanOpen(s.channel, Some(rq.opening), Some(rq.permissions), rq.keyId)
    && rq.answered < |s.buffer|
  }

  lemma CutShortIsReported(s: System, rq: Request)
    requires Consistent(s) && rq.OpenRequest?
    ensures CutShort(s, rq) <==> Step(s, rq).1 == BufferError
  {
  }

  /** A run in which no open ends in BufferError. */
  predicate Clean(s: System, rqs: seq<Request>)
    requires Consistent(s)
  {
    rqs == [] || (Clean(s, rqs[..|rqs| - 1]) && !CutShort(Run(s, rqs[..|rqs| - 1]), rqs[|rqs| - 1]))
  }

  // ---------------------------------------------------------------- state order and descent

  function Rank(state: State): nat {
    match state
    case Buffered => 0
    case Open => 1
    case Closed => 2
    case Inconsistent => 3
  }

  /** No request moves the state backwards, changes an opening, or raises the rank of the closure. */
  lemma StepDescends(s: System, rq: Request)
    requires Consistent(s)
    ensures
      var c, c' := s.channel, Step(s, rq).0.channel;
      && Rank(c.state) <= Rank(c'.state) < Rank(Inconsistent)
      && (!c.state.Buffered? ==>
            c'.opening == c.opening && c'.permissions == c.permissions && c'.keyId == c.keyId
            && c'.duration.value.openedAt == c.duration.value.openedAt)
      && (c.state.Closed? ==> c'.closure == c.closure || Outranks(c'.closure.value, c.closure.value))
      && (c'.state.Closed? ==> c'.duration.value.openedAt <= c'.duration.value.closedAt)
  {
  }

  lemma OutranksIsTransitive(a: Action, b: Action, c: Action)
    requires Outranks(a, b) && Outranks(b, c)
    ensures Outranks(a, c)
  {
    if a.timestamp == b.timestamp == c.timestamp {
      PrecedesIsTransitive(a.issuerId, b.issuerId, c.issuerId);
    }
  }

  /** Over a whole run the state only advances, the first opening stays, and the closure only goes down. */
  lemma {:induction false} RunDescends(s: System, rqs: seq<Request>)
    requires Consistent(s)
    ensures
      var c, c' := s.channel, Run(s, rqs).channel;
      && Rank(c.state) <= Rank(c'.state) < Rank(Inconsistent)
      && (!c.state.Buffered? ==> c'.opening == c.opening && c'.permissions == c.permissions && c'.keyId == c.keyId)
      && (c.state.Closed? ==> c'.closure == c.closure || Outranks(c'.closure.value, c.closure.value))
      && (c'.state.Closed? ==> c'.duration.value.openedAt <= c'.duration.value.closedAt)
  {
    if rqs != [] {
      var n := |rqs| - 1;
      RunDescends(s, rqs[..n]);
      var m := Run(s, rqs[..n]);
      StepDescends(m, rqs[n]);
      if s.channel.state.Closed? && m.channel.closure != s.channel.closure
        && Run(s, rqs).channel.closure != m.channel.closure {
        OutranksIsTransitive(Run(s, rqs).channel.closure.value, m.channel.closure.value, s.channel.closure.value);
      }
    }
  }

  /** A close that reports success on a closed channel strictly lowers (closing time, issuer). */
  lemma SuccessfulCloseDescends(s: System, rq: Request)
    requires Consistent(s) && s.channel.state.Closed? && rq.CloseRequest?
    ensures Step(s, rq).1 == Success
            <==> !s.crashed && Admissible(s.channel.opening.value, s.channel.permissions.value, rq.closure)
                 && Outranks(rq.closure, s.channel.closure.value)
    ensures Step(s, rq).1 == Success ==>
              && Step(s, rq).0.channel.closure == Some(rq.closure)
              && Outranks(Step(s, rq).0.channel.closure.value, s.channel.closure.value)
              && !Outranks(s.channel.closure.value, Step(s, rq).0.channel.closure.value)
  {
    var a, b := rq.closure, s.channel.closure.value;
    if Outranks(a, b) && Outranks(b, a) {
      PrecedesIsAsymmetric(a.issuerId, b.issuerId);
    }
  }

  // ---------------------------------------------------------------- listeners

  predicate Authorized(l: Listeners, p: Permissions) {
    forall i :: i in l.certifiers ==> MayRead(p, l.certifiers[i])
  }

  predicate NothingSent(l: Listeners) {
    forall i :: i in l.inboxes ==> l.inboxes[i] == []
  }

  /** The invariant of clean runs. */
  predicate Guarded(s: System) {
    && Consistent(s)
    && !s.crashed
    && (s.channel.state.Buffered? ==> s.fed == [] && (s.listeners.Some? ==> NothingSent(s.listeners.value)))
    && (!s.channel.state.Buffered? ==>
          && s.channel.attempts == [] && s.buffer == []
          && s.listeners.Some? && Authorized(s.listeners.value, s.channel.permissions.value))
  }

  lemma StepKeepsGuarded(s: System, rq: Request)
    requires Guarded(s) && !CutShort(s, rq)
    ensures Guarded(Step(s, rq).0)
  {
  }

  /** In clean runs publishing always finds a listeners record, tracked certifiers are exactly the
      queue's subscribers, all of them may read, and nothing waits for an opening that has happened. */
  lemma {:induction false} CleanRunsStayGuarded(id: string, rqs: seq<Request>)
    requires Clean(Initial(id), rqs)
    ensures Guarded(Run(Initial(id), rqs))
  {
    if rqs != [] {
      var n := |rqs| - 1;
      CleanRunsStayGuarded(id, rqs[..n]);
      StepKeepsGuarded(Run(Initial(id), rqs[..n]), rqs[n]);
    }
  }

  /** In clean runs a request only adds to the inbox of subscribers whose certifier may read. */
  lemma OnlyReadersAreSent(id: string, rqs: seq<Request>, rq: Request, i: SubscriberId)
    requires Clean(Initial(id), rqs + [rq])
    ensures
      var s := Run(Initial(id), rqs);
      var s' := Run(Initial(id), rqs + [rq]);
      s.listeners.Some? && i in s.listeners.value.inboxes ==>
        && s'.listeners.Some? && i in s'.listeners.value.inboxes
        && (s'.listeners.value.inboxes[i] != s.listeners.value.inboxes[i] ==>
              && s'.channel.permissions.Some?
              && i in s.listeners.value.certifiers
              && MayRead(s'.channel.permissions.value, s.listeners.value.certifiers[i]))
  {
    assert (rqs + [rq])[..|rqs|] == rqs;
    CleanRunsStayGuarded(id, rqs);
    CleanRunsStayGuarded(id, rqs + [rq]);
    var s := Run(Initial(id), rqs);
    assert Run(Initial(id), rqs + [rq]) == Step(s, rq).0;
    hide Run, Step, Clean;
    if s.listeners.Some? && i in s.listeners.value.inboxes {
      StepSendsReaders(s, rq, i);
    }
  }

  /** Whether a request to a channel past its opening is published. */
  predicate Publishes(s: System, rq: Request)
    requires Consistent(s)
  {
    && !s.crashed && !s.channel.state.Buffered?
    && ((rq.MessageRequest? && Accepts(s.channel, rq.message)) || (rq.CloseRequest? && Closes(s.channel, rq.closure)))
  }

  /** What a subscriber has been sent, and whether it still is in the queue. */
  function InboxOf(s: System, i: SubscriberId): seq<Event> {
    if s.listeners.Some? && i in s.listeners.value.inboxes then s.listeners.value.inboxes[i] else []
  }

  predicate Listens(s: System, i: SubscriberId) {
    s.listeners.Some? && i in s.listeners.value.queue
  }

  lemma StepTells(s: System, rq: Request, i: SubscriberId)
    requires Consistent(s) && !s.channel.state.Buffered? && i < s.nextId
    ensures
      var s' := Step(s, rq).0;
      && !s'.channel.state.Buffered? && i < s'.nextId
      && |InboxOf(s', i)| == |InboxOf(s, i)| + (if Publishes(s, rq) && Listens(s, i) then 1 else 0)
      && InboxOf(s, i) <= InboxOf(s', i)
  {
    hide Postable, Before, Applying, Arranged, Fed;
  }

  lemma StepSendsReaders(s: System, rq: Request, i: SubscriberId)
    requires Guarded(s) && Guarded(Step(s, rq).0)
    requires s.listeners.Some? && i in s.listeners.value.inboxes
    ensures
      var s' := Step(s, rq).0;
      && s'.listeners.Some? && i in s'.listeners.value.inboxes
      && (s'.listeners.value.inboxes[i] != s.listeners.value.inboxes[i] ==>
            && s'.channel.permissions.Some?
            && i in s.listeners.value.certifiers
            && MayRead(s'.channel.permissions.value, s.listeners.value.certifiers[i]))
  {
    InboxesStay(s, rq, i);
    if s.channel.state.Buffered? {
      FirstSendsReaders(s, rq, i);
    } else {
      StepTells(s, rq, i);
      StepDescends(s, rq);
      hide Step, Publishes;
    }
  }

  lemma InboxesStay(s: System, rq: Request, i: SubscriberId)
    requires Consistent(s) && s.listeners.Some? && i in s.listeners.value.inboxes
    ensures Step(s, rq).0.listeners.Some? && i in Step(s, rq).0.listeners.value.inboxes
  {
    hide Applying, Arranged, Fed, Opening, Closing, Adding, CanOpen;
  }

  /** Before the opening only the opening sends anything, to those it lets read. */
  lemma FirstSendsReaders(s: System, rq: Request, i: SubscriberId)
    requires Guarded(s) && s.channel.state.Buffered? && s.listeners.Some? && i in s.listeners.value.inboxes
    ensures
      var s' := Step(s, rq).0;
      InboxOf(s', i) != InboxOf(s, i) ==>
        && s'.channel.permissions.Some?
        && i in s.listeners.value.certifiers
        && MayRead(s'.channel.permissions.value, s.listeners.value.certifiers[i])
  {
    hide Arranged, Fed, Admissible, Postable, Before;
  }

  /** Where the record is missing: the only requests that end the program, in any reachable state. */
  lemma CrashesExactlyWithoutRecord(s: System, rq: Request)
    requires Consistent(s) && !s.crashed
    ensures Step(s, rq).0.crashed
            <==> s.listeners.None?
                 && ((rq.MessageRequest? && Accepts(s.channel, rq.message))
                     || (rq.CloseRequest? && !s.channel.state.Buffered? && Closes(s.channel, rq.closure)))
  {
  }

  /** An open request that opens the channel leaves only readers listening exactly when it was fed
      completely or nobody had to be removed. */
  lemma CutShortOpenKeepsIntruders(s: System, rq: Request)
    requires Guarded(s) && rq.OpenRequest?
    requires CanOpen(s.channel, Some(rq.opening), Some(rq.permissions), rq.keyId)
    ensures
      var s' := Step(s, rq).0;
      s'.channel.permissions == Some(rq.permissions)
      && ((s'.listeners.Some? ==> Authorized(s'.listeners.value, rq.permissions))
          <==> (!CutShort(s, rq) || (s.listeners.Some? ==> Authorized(s.listeners.value, rq.permissions))))
  {
  }

  /** One request is published while a subscriber is in the queue. */
  predicate ToldAt(s: System, rest: seq<Request>, k: nat, i: SubscriberId)
    requires Consistent(s)
  {
    k < |rest| && Publishes(Run(s, rest[..k]), rest[k]) && Listens(Run(s, rest[..k]), i)
  }

  predicate ToldDuring(s: System, rest: seq<Request>, i: SubscriberId)
    requires Consistent(s)
  {
    exists k: nat :: k < |rest| && ToldAt(s, rest, k, i)
  }

  /** Past the opening a subscriber is sent something exactly when something is published while it is in the
      queue. */
  lemma {:induction false} InboxGrowsExactly(s: System, rest: seq<Request>, i: SubscriberId)
    requires Consistent(s) && !s.channel.state.Buffered? && i < s.nextId
    ensures !Run(s, rest).channel.state.Buffered? && i < Run(s, rest).nextId
    ensures |InboxOf(Run(s, rest), i)| >= |InboxOf(s, i)|
    ensures |InboxOf(Run(s, rest), i)| > |InboxOf(s, i)| <==> ToldDuring(s, rest, i)
  {
    if rest != [] {
      var n := |rest| - 1;
      InboxGrowsExactly(s, rest[..n], i);
      StepTells(Run(s, rest[..n]), rest[n], i);
      hide Step, Publishes, Listens, InboxOf;
      ToldOneMore(s, rest, i);
    }
  }

  lemma ToldOneMore(s: System, rest: seq<Request>, i: SubscriberId)
    requires Consistent(s) && rest != []
    ensures ToldDuring(s, rest, i) <==> ToldDuring(s, rest[..|rest| - 1], i) || ToldAt(s, rest, |rest| - 1, i)
  {
    var n := |rest| - 1;
    hide ToldAt;
    if k: nat :| k < n && ToldAt(s, rest[..n], k, i) {
      ToldBefore(s, rest, n, k, i);
    }
    if k: nat :| k < n && ToldAt(s, rest, k, i) {
      ToldBefore(s, rest, n, k, i);
    }
  }

  lemma ToldBefore(s: System, rest: seq<Request>, n: nat, k: nat, i: SubscriberId)
    requires Consistent(s) && k < n <= |rest|
    ensures ToldAt(s, rest[..n], k, i) == ToldAt(s, rest, k, i)
  {
    assert rest[..n][..k] == rest[..k];
  }

  /** A subscriber whose certifier an opening does not let read. */
  predicate IsStranger(s: System, p: Permissions, i: SubscriberId) {
    s.listeners.Some? && i in s.listeners.value.certifiers && !MayRead(p, s.listeners.value.certifiers[i])
  }

  /** After an opening somebody who may not read is sent something, exactly when the opening was cut short and
      a message is stored or a close takes effect while such a subscriber is still in the queue. */
  lemma StrangersAreToldExactly(id: string, before: seq<Request>, rq: Request, rest: seq<Request>)
    requires Clean(Initial(id), before) && rq.OpenRequest?
    requires CanOpen(Run(Initial(id), before).channel, Some(rq.opening), Some(rq.permissions), rq.keyId)
    ensures
      var s := Run(Initial(id), before);
      var s' := Step(s, rq).0;
      (exists i :: IsStranger(s, rq.permissions, i) && |InboxOf(Run(s', rest), i)| > 0)
      <==> CutShort(s, rq) && exists i :: IsStranger(s, rq.permissions, i) && ToldDuring(s', rest, i)
  {
    var s := Run(Initial(id), before);
    var s' := Step(s, rq).0;
    CleanRunsStayGuarded(id, before);
    forall i | IsStranger(s, rq.permissions, i)
      ensures |InboxOf(Run(s', rest), i)| > 0 <==> CutShort(s, rq) && ToldDuring(s', rest, i)
    {
      StrangerIsToldExactly(s, rq, rest, i);
    }
  }

  lemma StrangerIsToldExactly(s: System, rq: Request, rest: seq<Request>, i: SubscriberId)
    requires Guarded(s) && rq.OpenRequest? && CanOpen(s.channel, Some(rq.opening), Some(rq.permissions), rq.keyId)
    requires IsStranger(s, rq.permissions, i)
    ensures |InboxOf(Run(Step(s, rq).0, rest), i)| > 0 <==> CutShort(s, rq) && ToldDuring(Step(s, rq).0, rest, i)
  {
    var s' := Step(s, rq).0;
    OpeningShutsOut(s, rq, i);
    hide Step, CutShort, Guarded, CanOpen, IsStranger;
    InboxGrowsExactly(s', rest, i);
    if !Listens(s', i) {
      NeverListensAgain(s', rest, i);
    }
  }

  lemma OpeningShutsOut(s: System, rq: Request, i: SubscriberId)
    requires Guarded(s) && rq.OpenRequest? && CanOpen(s.channel, Some(rq.opening), Some(rq.permissions), rq.keyId)
    requires IsStranger(s, rq.permissions, i)
    ensures
      var s' := Step(s, rq).0;
      !s'.channel.state.Buffered? && i < s'.nextId && InboxOf(s', i) == [] && (Listens(s', i) <==> CutShort(s, rq))
  {
    hide Arranged, Fed, Admissible;
  }

  lemma {:induction false} NeverListensAgain(s: System, rest: seq<Request>, i: SubscriberId)
    requires Consistent(s) && i < s.nextId && !Listens(s, i)
    requires !s.channel.state.Buffered?
    ensures !Listens(Run(s, rest), i) && i < Run(s, rest).nextId && !ToldDuring(s, rest, i)
  {
    if rest != [] {
      var n := |rest| - 1;
      NeverListensAgain(s, rest[..n], i);
      StaysAway(Run(s, rest[..n]), rest[n], i);
      hide Step, Publishes, Listens;
      ToldOneMore(s, rest, i);
    }
  }

  lemma StaysAway(s: System, rq: Request, i: SubscriberId)
    requires Consistent(s) && i < s.nextId && !Listens(s, i)
    ensures !Listens(Step(s, rq).0, i) && i < Step(s, rq).0.nextId
  {
    hide Arranged, Fed, Admissible, Applying;
  }

  const OWNER := "owner"
  const EXAMPLE_PERMISSIONS: Permissions := map[OWNER := Permission(true, true, true)]

  function ExampleOperation(): Operation {
    Operation(AddMessageType, 1, OWNER, OWNER, "m", false)
  }

  function OpenAnswering(answered: nat): Request {
    OpenRequest(Action(OWNER, OWNER, 1), EXAMPLE_PERMISSIONS, "key", answered, [])
  }

  function Post(t: Time): Request {
    MessageRequest(Action(OWNER, OWNER, t), "m")
  }

  lemma RunFour(s: System, a: Request, b: Request, c: Request, d: Request)
    requires Consistent(s)
    ensures Run(s, [a, b, c, d]) == Step(Step(Step(Step(s, a).0, b).0, c).0, d).0
  {
    assert [a, b, c, d][..3] == [a, b, c] && [a, b, c][..2] == [a, b] && [a, b][..1] == [a];
    assert Run(s, [a]) == Step(s, a).0;
    assert Run(s, [a, b]) == Step(Step(s, a).0, b).0;
    assert Run(s, [a, b, c]) == Step(Step(Step(s, a).0, b).0, c).0;
  }

  /** After an open cut short, a stranger who subscribed early is sent a message. */
  lemma CutShortOpenLeaks()
    ensures
      var s := Run(Initial("c"), [SubscribeRequest("stranger"), BufferRequest(ExampleOperation(), true), OpenAnswering(0), Post(2)]);
      && s.channel.state.Open?
      && s.listeners.Some? && 0 in s.listeners.value.inboxes
      && s.listeners.value.certifiers == map[0 := "stranger"]
      && !MayRead(s.channel.permissions.value, "stranger")
      && s.listeners.value.inboxes[0] == [Event(MessageEvent, 0, 2, "m")]
  {
    var rqs := [SubscribeRequest("stranger"), BufferRequest(ExampleOperation(), true), OpenAnswering(0), Post(2)];
    RunFour(Initial("c"), rqs[0], rqs[1], rqs[2], rqs[3]);
    StrangerFirst();
    var s2 := Step(Step(Initial("c"), rqs[0]).0, rqs[1]).0;
    CutShortAtOnce(s2);
    FirstPost(Step(s2, rqs[2]).0);
  }

  const STRANGER := Listeners({0}, map[0 := "stranger"], map[0 := []])

  lemma StrangerFirst()
    ensures
      var s1 := Step(Initial("c"), SubscribeRequest("stranger")).0;
      Step(s1, BufferRequest(ExampleOperation(), true)).0
      == Initial("c").(nextId := 1, listeners := Some(STRANGER), buffer := [Marked(ExampleOperation())])
  {
    var s1 := Step(Initial("c"), SubscribeRequest("stranger")).0;
    var l := s1.listeners.value;
    assert l.queue == {0} && l.certifiers == map[0 := "stranger"] && l.inboxes == map[0 := []];
  }

  lemma FirstPost(s: System)
    requires Consistent(s) && !s.crashed && s.listeners == Some(STRANGER) && s.channel.state.Open?
    requires s.channel.messages == [] && s.channel.permissions == Some(EXAMPLE_PERMISSIONS)
    requires s.channel.opening == Some(Action(OWNER, OWNER, 1))
    ensures
      var s' := Step(s, Post(2)).0;
      && s'.channel.state.Open? && s'.channel.permissions == s.channel.permissions
      && s'.listeners == Some(STRANGER.(inboxes := map[0 := [Event(MessageEvent, 0, 2, "m")]]))
  {
    assert Accepts(s.channel, Post(2).message);
    var e := Event(MessageEvent, 0, 2, "m");
    var inboxes := Delivered(STRANGER, e).inboxes;
    assert STRANGER.inboxes.Keys == {0} && STRANGER.queue == {0} && STRANGER.inboxes[0] == [];
    assert inboxes.Keys == {0} && inboxes[0] == [] + [e] == [e];
    assert inboxes == map[0 := [e]];
  }

  lemma CutShortAtOnce(s: System)
    requires Consistent(s) && !s.crashed && s.channel.state.Buffered? && |s.buffer| > 0
    ensures
      var s' := Step(s, OpenAnswering(0)).0;
      && s'.channel.state.Open? && s'.channel.messages == [] && s'.listeners == s.listeners && !s'.crashed
      && s'.channel.permissions == Some(EXAMPLE_PERMISSIONS) && s'.channel.opening == Some(Action(OWNER, OWNER, 1))
  {
    assert |EXAMPLE_PERMISSIONS| == 1;
  }

  /** After an open cut short with nobody subscribed, the first message ends the program. */
  lemma CutShortOpenCrashes()
    ensures Run(Initial("c"), [BufferRequest(ExampleOperation(), true), BufferRequest(ExampleOperation(), true), OpenAnswering(1), Post(2)]).crashed
  {
    var rqs := [BufferRequest(ExampleOperation(), true), BufferRequest(ExampleOperation(), true), OpenAnswering(1), Post(2)];
    RunFour(Initial("c"), rqs[0], rqs[1], rqs[2], rqs[3]);
    TwoBuffered();
    hide Run, Step;
    CrashesUnlistened(Step(Step(Initial("c"), rqs[0]).0, rqs[1]).0);
  }

  lemma TwoBuffered()
    ensures
      var rq := BufferRequest(ExampleOperation(), true);
      var s := Step(Step(Initial("c"), rq).0, rq).0;
      !s.crashed && s.channel.state.Buffered? && |s.buffer| == 2 && s.listeners.None?
  {
  }

  lemma CrashesUnlistened(s: System)
    requires Consistent(s) && !s.crashed && s.channel.state.Buffered? && |s.buffer| == 2 && s.listeners.None?
    ensures Step(Step(s, OpenAnswering(1)).0, Post(2)).0.crashed
  {
    assert |EXAMPLE_PERMISSIONS| == 1;
    assert Step(s, OpenAnswering(1)).0.channel.state.Open?;
  }

  // ---------------------------------------------------------------- feeding buffered operations

  /** Operations in the order they came in, marked as buffered. */
  function Arrivals(rqs: seq<Request>): seq<Operation> {
    if rqs == [] then []
    else
      var n := |rqs| - 1;
      Arrivals(rqs[..n]) + Arrival(rqs[n])
  }

  function Arrival(rq: Request): seq<Operation> {
    if rq.BufferRequest? then [Marked(rq.operation)] else []
  }

  /** What one request feeds and leaves waiting. */
  predicate Feeds(s: System, rq: Request, s': System)
    requires Consistent(s)
  {
    if !s.channel.state.Buffered? then
      !s'.channel.state.Buffered? && s'.buffer == s.buffer && s'.fed == s.fed + Arrival(rq)
    else if s'.channel.state.Buffered? then
      s'.buffer == s.buffer + Arrival(rq) && s'.fed == s.fed
    else
      && rq.OpenRequest?
      && s'.fed == s.fed + Fed(s.buffer, rq.answered)
      && s'.buffer == (if rq.answered < |s.buffer| then s.buffer else [])
      && (CutShort(s, rq) <==> rq.answered < |s.buffer|)
  }

  lemma StepFeeds(s: System, rq: Request)
    requires Consistent(s) && !s.crashed
    ensures Feeds(s, rq, Step(s, rq).0)
  {
    if rq.OpenRequest? {
      OpenFeeds(s, rq);
    } else {
      hide Opening, Applying, Arranged, Pruned;
    }
  }

  lemma OpenFeeds(s: System, rq: Request)
    requires Consistent(s) && !s.crashed && rq.OpenRequest?
    ensures Feeds(s, rq, Step(s, rq).0)
  {
    hide Pruned, Arranged;
  }

  lemma {:induction false} ArrivalsAdd(a: seq<Request>, b: seq<Request>)
    ensures Arrivals(a + b) == Arrivals(a) + Arrivals(b)
  {
    if b == [] {
      assert a + b == a;
    } else {
      assert (a + b)[..|a + b| - 1] == a + b[..|b| - 1];
      ArrivalsAdd(a, b[..|b| - 1]);
    }
  }

  /** Clean runs feed exactly what arrived, once each and in order of arrival, as soon as the channel
      is open; until then everything waits. */
  lemma {:induction false} CleanRunsFeedOnce(id: string, rqs: seq<Request>)
    requires Clean(Initial(id), rqs)
    ensures
      var s := Run(Initial(id), rqs);
      && s.fed + s.buffer == Arrivals(rqs)
      && (if s.channel.state.Buffered? then s.fed == [] else s.buffer == [])
  {
    if rqs != [] {
      var n := |rqs| - 1;
      CleanRunsFeedOnce(id, rqs[..n]);
      CleanRunsStayGuarded(id, rqs[..n]);
      StepFeeds(Run(Initial(id), rqs[..n]), rqs[n]);
    }
  }

  /** What an interrupted open leaves in the buffer is never fed: every later step keeps the buffer
      and feeds nothing but what arrives in that step. */
  lemma {:induction false} StrandedForever(s: System, rqs: seq<Request>)
    requires Consistent(s) && !s.channel.state.Buffered?
    ensures Run(s, rqs).buffer == s.buffer
    ensures Run(s, rqs).crashed || Run(s, rqs).fed == s.fed + Arrivals(rqs)
  {
    if rqs != [] {
      var n := |rqs| - 1;
      StrandedForever(s, rqs[..n]);
      RunDescends(s, rqs[..n]);
      var m := Run(s, rqs[..n]);
      if !m.crashed {
        StepFeeds(m, rqs[n]);
      }
    }
  }

  // ---------------------------------------------------------------- runs around an opening

  predicate ValidOpening(rq: Request) {
    rq.OpenRequest? && rq.opening.timestamp != ZERO_TIME && |rq.permissions| > 0 && rq.keyId != ""
  }

  predicate NoOpening(rqs: seq<Request>) {
    forall rq :: rq in rqs ==> !ValidOpening(rq)
  }

  /** Every list of requests either never opens the channel or has a first valid opening. */
  lemma {:induction false} HasFirstOpening(rqs: seq<Request>) returns (pre: seq<Request>, o: Request, post: seq<Request>)
    requires !NoOpening(rqs)
    ensures NoOpening(pre) && ValidOpening(o) && rqs == pre + [o] + post
  {
    if ValidOpening(rqs[0]) {
      pre, o, post := [], rqs[0], rqs[1..];
    } else {
      pre, o, post := HasFirstOpening(rqs[1..]);
      pre := [rqs[0]] + pre;
    }
  }

  /** Once a channel is open or closed, openings are refused and change nothing. */
  lemma LaterOpeningsAreRefused(s: System, rq: Request)
    requires Consistent(s) && rq.OpenRequest? && !s.channel.state.Buffered?
    ensures Step(s, rq) == (s, Failure)
  {
  }

  lemma {:induction false} WaitsBeforeOpening(id: string, pre: seq<Request>)
    requires NoOpening(pre)
    ensures
      var s := Run(Initial(id), pre);
      s.channel.state.Buffered? && !s.crashed && s.buffer == Arrivals(pre) && s.fed == []
  {
    if pre != [] {
      var n := |pre| - 1;
      WaitsBeforeOpening(id, pre[..n]);
      assert pre[n] in pre;
      StepFeeds(Run(Initial(id), pre[..n]), pre[n]);
    }
  }

  lemma OpeningFeeds(id: string, pre: seq<Request>, o: Request)
    requires NoOpening(pre) && ValidOpening(o)
    ensures
      var s := Run(Initial(id), pre + [o]);
      && !s.channel.state.Buffered? && s.fed == Fed(Arrivals(pre), o.answered)
      && s.buffer == (if o.answered < |Arrivals(pre)| then Arrivals(pre) else [])
  {
    WaitsBeforeOpening(id, pre);
    assert (pre + [o])[..|pre|] == pre;
    var s := Run(Initial(id), pre);
    assert CanOpen(s.channel, Some(o.opening), Some(o.permissions), o.keyId);
    StepFeeds(s, o);
    assert Run(Initial(id), pre + [o]) == Step(s, o).0;
    hide Step, Run, Fed;
    assert [] + Fed(Arrivals(pre), o.answered) == Fed(Arrivals(pre), o.answered);
  }

  /** Every run, cut short or not: fed are the operations that waited, up to the first that was not
      answered, and then all that came later; what was not fed then stays in the buffer. */
  lemma FedExactly(id: string, pre: seq<Request>, o: Request, post: seq<Request>)
    requires NoOpening(pre) && ValidOpening(o) && !Run(Initial(id), pre + [o] + post).crashed
    ensures
      var s := Run(Initial(id), pre + [o] + post);
      && s.fed == Fed(Arrivals(pre), o.answered) + Arrivals(post)
      && s.buffer == (if o.answered < |Arrivals(pre)| then Arrivals(pre) else [])
  {
    hide Step, Run, Fed, Arrivals, Initial, ValidOpening, NoOpening;
    OpeningFeeds(id, pre, o);
    RunSplits(Initial(id), pre + [o], post);
    StrandedForever(Run(Initial(id), pre + [o]), post);
  }

  /** Everything that arrived has been fed, once each and in order, exactly when at most the last
      waiting operation was left unanswered at the opening. */
  lemma AllIsFedExactly(id: string, pre: seq<Request>, o: Request, post: seq<Request>)
    requires NoOpening(pre) && ValidOpening(o) && !Run(Initial(id), pre + [o] + post).crashed
    ensures Run(Initial(id), pre + [o] + post).fed == Arrivals(pre + [o] + post)
            <==> o.answered + 1 >= |Arrivals(pre)|
  {
    assert [o][..0] == [] && Arrivals([o]) == [];
    hide Step, Run, Arrivals, Initial, NoOpening;
    FedExactly(id, pre, o, post);
    ArrivalsAdd(pre + [o], post);
    ArrivalsAdd(pre, [o]);
    FedWhole(Arrivals(pre), o.answered, Arrivals(post));
  }

  lemma FedWhole(waiting: seq<Operation>, answered: nat, later: seq<Operation>)
    ensures Fed(waiting, answered) + later == waiting + [] + later <==> answered + 1 >= |waiting|
  {
    if answered + 1 >= |waiting| {
      assert Fed(waiting, answered) == waiting;
    }
  }

  function SecondOperation(): Operation {
    ExampleOperation().(payload := "n")
  }

  lemma TwoArrive()
    ensures Arrivals([BufferRequest(ExampleOperation(), true), BufferRequest(SecondOperation(), true)])
            == [Marked(ExampleOperation()), Marked(SecondOperation())]
  {
    var pre := [BufferRequest(ExampleOperation(), true), BufferRequest(SecondOperation(), true)];
    assert pre[..1] == [BufferRequest(ExampleOperation(), true)] && pre[..1][..0] == [];
  }

  /** Two operations wait and the first is not answered: the second is never fed, whatever comes later. */
  lemma CutShortOpenStrands(post: seq<Request>)
    ensures
      var rqs := [BufferRequest(ExampleOperation(), true), BufferRequest(SecondOperation(), true)] + [OpenAnswering(0)] + post;
      var s := Run(Initial("c"), rqs);
      s.crashed || (s.fed == [Marked(ExampleOperation())] + Arrivals(post)
                    && s.buffer == [Marked(ExampleOperation()), Marked(SecondOperation())])
  {
    var pre := [BufferRequest(ExampleOperation(), true), BufferRequest(SecondOperation(), true)];
    TwoArrive();
    assert |EXAMPLE_PERMISSIONS| == 1;
    hide Run, Arrivals;
    if !Run(Initial("c"), pre + [OpenAnswering(0)] + post).crashed {
      FedExactly("c", pre, OpenAnswering(0), post);
    }
  }

  // ---------------------------------------------------------------- whose permission counts

  /** Requests that are alike but for the issuers of messages. */
  predicate DifferInIssuers(a: seq<Request>, b: seq<Request>) {
    && |a| == |b|
    && forall i :: 0 <= i < |a| ==>
         || a[i] == b[i]
         || (a[i].MessageRequest? && b[i].MessageRequest? && a[i].data == b[i].data
             && a[i].message.certifierId == b[i].message.certifierId && a[i].message.timestamp == b[i].message.timestamp)
  }

  /** Who issued a message never matters: the certifier answers for it. */
  lemma {:induction false} IssuersOfMessagesDoNotMatter(s: System, a: seq<Request>, b: seq<Request>)
    requires Consistent(s) && DifferInIssuers(a, b)
    ensures Run(s, a) == Run(s, b)
    ensures a != [] ==> Step(Run(s, a[..|a| - 1]), a[|a| - 1]) == Step(Run(s, b[..|b| - 1]), b[|b| - 1])
  {
    if a != [] {
      var n := |a| - 1;
      IssuersOfMessagesDoNotMatter(s, a[..n], b[..n]);
      SameButForIssuer(Run(s, a[..n]), a[n], b[n]);
    }
  }

  lemma SameButForIssuer(s: System, a: Request, b: Request)
    requires Consistent(s) && DifferInIssuers([a], [b])
    ensures Step(s, a) == Step(s, b)
  {
    assert a == [a][0] && b == [b][0];
  }

  const ALICE_WRITES: Permissions := map["alice" := Permission(true, true, false)]

  /** A writer's message is stored whoever issued it, and a message the writer only issued is dropped. */
  lemma CertifiersPost()
    ensures
      var s := Step(Initial("c"), OpenRequest(Action("alice", "alice", 1), ALICE_WRITES, "key", 0, [])).0;
      && Step(s, MessageRequest(Action("bob", "alice", 5), "m")).1 == Success
      && Step(s, MessageRequest(Action("alice", "bob", 5), "m")) == (s, Dropped)
  {
    assert |ALICE_WRITES| == 1;
    var s := Step(Initial("c"), OpenRequest(Action("alice", "alice", 1), ALICE_WRITES, "key", 0, [])).0;
    assert s.channel.state.Open? && s.channel.opening == Some(Action("alice", "alice", 1)) && !s.crashed;
    assert s.channel.permissions == Some(ALICE_WRITES);
    hide Step;
    CertifierCounts(s);
  }

  lemma CertifierCounts(s: System)
    requires Consistent(s) && !s.crashed && s.channel.state.Open?
    requires s.channel.permissions == Some(ALICE_WRITES) && s.channel.opening == Some(Action("alice", "alice", 1))
    ensures Step(s, MessageRequest(Action("bob", "alice", 5), "m")).1 == Success
    ensures Step(s, MessageRequest(Action("alice", "bob", 5), "m")) == (s, Dropped)
  {
    assert "alice" != "bob";
  }
}
