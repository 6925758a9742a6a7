/** What a subscriber can rebuild from events alone: insert at a message's position, cut at a close's. */
module Replica {
  import opened Common
  import opened ChannelRecord
  import opened ChannelServer
  import opened ChannelRuns
  import opened ChannelConvergence

  predicate Ascending(s: seq<Time>) {
    forall i, j :: 0 <= i < j < |s| ==> s[i] <= s[j]
  }

  /** One event applied to the subscriber's list. */
  function Applied(replica: seq<Time>, e: Event): seq<Time> {
    match e.kind
    case OpenEvent => replica
    case MessageEvent =>
      if e.position <= |replica| then replica[..e.position] + [e.timestamp] + replica[e.position..] else replica
    case CloseEvent =>
      if e.position <= |replica| then replica[..e.position] else replica
  }

  function Replay(events: seq<Event>): seq<Time> {
    if events == [] then [] else Applied(Replay(events[..|events| - 1]), events[|events| - 1])
  }

  /** The list is in time order and holds exactly the timestamps the channel stores. */
  predicate Mirrors(replica: seq<Time>, messages: seq<Time>) {
    Ascending(replica) && multiset(replica) == multiset(messages)
  }

  lemma {:induction false} BeforeDependsOnContents(a: seq<Time>, b: seq<Time>, t: Time)
    requires multiset(a) == multiset(b)
    ensures multiset(Before(a, t)) == multiset(Before(b, t)) && |Before(a, t)| == |Before(b, t)|
  {
    forall x ensures multiset(Before(a, t))[x] == multiset(Before(b, t))[x] {
      BeforeCounts(a, t, x);
      BeforeCounts(b, t, x);
    }
    assert |Before(a, t)| == |multiset(Before(a, t))| && |Before(b, t)| == |multiset(Before(b, t))|;
  }

  /** In an ascending list the earlier timestamps are a prefix. */
  lemma {:induction false} BeforeIsPrefix(s: seq<Time>, t: Time)
    requires Ascending(s)
    ensures
      var k := |Before(s, t)|;
      k <= |s| && Before(s, t) == s[..k] && forall i :: k <= i < |s| ==> t <= s[i]
  {
    if s != [] {
      var n := |s| - 1;
      BeforeIsPrefix(s[..n], t);
      var k := |Before(s[..n], t)|;
      if s[n] < t {
        assert k == n;
        assert s == s[..n] + [s[n]] && s[..n][..n] == s[..n];
      } else {
        assert s[..n][..k] == s[..k];
      }
    }
  }

  lemma InsertionAscends(s: seq<Time>, k: nat, t: Time)
    requires Ascending(s) && k <= |s|
    requires forall i :: 0 <= i < k ==> s[i] <= t
    requires forall i :: k <= i < |s| ==> t <= s[i]
    ensures Ascending(s[..k] + [t] + s[k..])
    ensures multiset(s[..k] + [t] + s[k..]) == multiset(s + [t])
  {
    var r := s[..k] + [t] + s[k..];
    forall i, j | 0 <= i < j < |r| ensures r[i] <= r[j] {
      assert r[i] == if i < k then s[i] else if i == k then t else s[i - 1];
      assert r[j] == if j < k then s[j] else if j == k then t else s[j - 1];
    }
    assert s == s[..k] + s[k..];
  }

  lemma InsertionMirrors(replica: seq<Time>, messages: seq<Time>, t: Time, data: string)
    requires Mirrors(replica, messages)
    ensures Mirrors(Applied(replica, Event(MessageEvent, |Before(messages, t)|, t, data)), messages + [t])
  {
    var k := |Before(messages, t)|;
    BeforeDependsOnContents(replica, messages, t);
    BeforeIsPrefix(replica, t);
    forall i | 0 <= i < k ensures replica[i] <= t {
      assert replica[i] == Before(replica, t)[i];
      assert Before(replica, t)[i] in Before(replica, t);
    }
    InsertionAscends(replica, k, t);
  }

  lemma TruncationMirrors(replica: seq<Time>, messages: seq<Time>, t: Time)
    requires Mirrors(replica, messages)
    ensures Mirrors(Applied(replica, Event(CloseEvent, |Before(messages, t)|, t, "")), Before(messages, t))
  {
    BeforeDependsOnContents(replica, messages, t);
    BeforeIsPrefix(replica, t);
  }

  /** A subscriber that was never removed has a faithful replica. */
  predicate Tracks(s: System, i: SubscriberId) {
    && Consistent(s)
    && s.listeners.Some?
    && i in s.listeners.value.inboxes
    && (i in s.listeners.value.queue ==> Mirrors(Replay(s.listeners.value.inboxes[i]), s.channel.messages))
  }

  lemma ReplayStep(events: seq<Event>, e: Event)
    ensures Replay(events + [e]) == Applied(Replay(events), e)
  {
    assert (events + [e])[..|events|] == events;
  }

  /** What an opening sends to a subscriber it keeps: nothing when cut short, or an opening at 0 that a
      closing at 0 may follow; no message is stored yet. */
  lemma OpeningSends(s: System, rq: Request, i: SubscriberId)
    requires Consistent(s) && rq.OpenRequest? && !s.crashed
    requires s.listeners.Some? && i in s.listeners.value.inboxes
    ensures
      var s' := Step(s, rq).0;
      && s'.listeners.Some? && i in s'.listeners.value.inboxes
      && (i in s'.listeners.value.queue ==> i in s.listeners.value.queue)
      && s'.channel.messages == s.channel.messages
      && (i in s'.listeners.value.queue && s'.listeners.value.inboxes[i] != s.listeners.value.inboxes[i] ==>
            && s.channel.messages == []
            && exists rest :: s'.listeners.value.inboxes[i] == s.listeners.value.inboxes[i] + rest && AtZero(rest))
  {
    if CanOpen(s.channel, Some(rq.opening), Some(rq.permissions), rq.keyId) && rq.answered >= |s.buffer| {
      OpeningPublishes(s, rq, i);
    }
    hide Applying, Arranged;
    var l, l' := s.listeners.value, Step(s, rq).0.listeners.value;
    if i in l'.queue && l'.inboxes[i] != l.inboxes[i] {
      var rest := l'.inboxes[i][|l.inboxes[i]|..];
      assert l'.inboxes[i] == l.inboxes[i] + rest;
    }
  }

  lemma OpeningPublishes(s: System, rq: Request, i: SubscriberId)
    requires Consistent(s) && rq.OpenRequest? && !s.crashed
    requires s.listeners.Some? && i in s.listeners.value.inboxes
    requires CanOpen(s.channel, Some(rq.opening), Some(rq.permissions), rq.keyId) && rq.answered >= |s.buffer|
    ensures
      var s' := Step(s, rq).0;
      && s'.listeners.Some? && i in s'.listeners.value.inboxes
      && s'.listeners.value.queue <= s.listeners.value.queue
      && s'.channel.messages == s.channel.messages == []
      && Extends(s.listeners.value.inboxes[i], s'.listeners.value.inboxes[i])
  {
    var c := Opening(s.channel, s.channel.id, Some(rq.opening), Some(rq.permissions), rq.keyId);
    ApplyingStoresNothing(c, Arranged(c.attempts, rq.order));
    var (c', applied) := Applying(c, Arranged(c.attempts, rq.order));
    var l := Pruned(s.listeners.value, rq.permissions);
    var e := Event(OpenEvent, 0, rq.opening.timestamp, "");
    DeliveredExtends(l, e, i);
    if applied {
      DeliveredExtends(Delivered(l, e), Event(CloseEvent, 0, c'.duration.value.closedAt, ""), i);
    }
    hide Applying, Arranged, Delivered, WellFormed, Extends;
  }

  predicate Extends(a: seq<Event>, b: seq<Event>) {
    a <= b && AtZero(b[|a|..])
  }

  lemma DeliveredExtends(l: Listeners, e: Event, i: SubscriberId)
    requires i in l.inboxes && e.position == 0 && !e.kind.MessageEvent?
    ensures i in Delivered(l, e).inboxes && Extends(l.inboxes[i], Delivered(l, e).inboxes[i])
    ensures forall a :: Extends(a, l.inboxes[i]) ==> Extends(a, Delivered(l, e).inboxes[i])
  {
  }

  lemma ApplyingStoresNothing(c: Channel, order: seq<Action>)
    requires WellFormed(c) && c.messages == []
    ensures Applying(c, order).0.messages == []
  {
  }

  predicate AtZero(events: seq<Event>) {
    forall e :: e in events ==> e.position == 0 && !e.kind.MessageEvent?
  }

  lemma {:induction false} ReplayAtZero(events: seq<Event>, rest: seq<Event>)
    requires Replay(events) == [] && AtZero(rest)
    ensures Replay(events + rest) == []
  {
    if rest == [] {
      assert events + rest == events;
    } else {
      var n := |rest| - 1;
      ReplayAtZero(events, rest[..n]);
      assert events + rest == (events + rest[..n]) + [rest[n]];
      ReplayStep(events + rest[..n], rest[n]);
    }
  }

  lemma OpeningTracks(s: System, rq: Request, i: SubscriberId)
    requires Tracks(s, i) && rq.OpenRequest? && !s.crashed
    ensures Tracks(Step(s, rq).0, i)
  {
    OpeningSends(s, rq, i);
    hide Step;
    var l, l' := s.listeners.value, Step(s, rq).0.listeners.value;
    if i in l'.queue && l'.inboxes[i] != l.inboxes[i] {
      var rest :| l'.inboxes[i] == l.inboxes[i] + rest && AtZero(rest);
      assert |Replay(l.inboxes[i])| == |multiset(Replay(l.inboxes[i]))| == 0;
      ReplayAtZero(l.inboxes[i], rest);
    }
  }

  lemma ClosingTracks(s: System, rq: Request, i: SubscriberId)
    requires Tracks(s, i) && rq.CloseRequest? && !s.crashed
    ensures Tracks(Step(s, rq).0, i)
  {
    var l, l' := s.listeners.value, Step(s, rq).0.listeners.value;
    if i in l'.queue && l'.inboxes[i] != l.inboxes[i] {
      var t := rq.closure.timestamp;
      ReplayStep(l.inboxes[i], Event(CloseEvent, |Before(s.channel.messages, t)|, t, ""));
      TruncationMirrors(Replay(l.inboxes[i]), s.channel.messages, t);
    }
  }

  lemma MessageTracks(s: System, rq: Request, i: SubscriberId)
    requires Tracks(s, i) && rq.MessageRequest? && !s.crashed
    ensures Tracks(Step(s, rq).0, i)
  {
    var l, l' := s.listeners.value, Step(s, rq).0.listeners.value;
    if i in l'.queue && l'.inboxes[i] != l.inboxes[i] {
      var t := rq.message.timestamp;
      ReplayStep(l.inboxes[i], Event(MessageEvent, |Before(s.channel.messages, t)|, t, rq.data));
      InsertionMirrors(Replay(l.inboxes[i]), s.channel.messages, t, rq.data);
    }
  }

  lemma {:induction false} RunTracks(s: System, rqs: seq<Request>, i: SubscriberId)
    requires Tracks(s, i)
    ensures Tracks(Run(s, rqs), i)
  {
    if rqs != [] {
      var n := |rqs| - 1;
      RunTracks(s, rqs[..n], i);
      var m, rq := Run(s, rqs[..n]), rqs[n];
      if !m.crashed {
        if rq.OpenRequest? {
          OpeningTracks(m, rq, i);
        } else if rq.CloseRequest? {
          ClosingTracks(m, rq, i);
        } else if rq.MessageRequest? {
          MessageTracks(m, rq, i);
        }
      }
    }
  }

  lemma CutShortOpens(s: System, rq: Request)
    requires Consistent(s)
    ensures CutShort(s, rq) ==> Step(s, rq).0.channel.state.Open?
  {
  }

  /** While a channel is buffered nothing has been sent to anyone. */
  lemma {:induction false} BufferedIsSilent(id: string, rqs: seq<Request>)
    requires Run(Initial(id), rqs).channel.state.Buffered?
    ensures Guarded(Run(Initial(id), rqs))
  {
    if rqs != [] {
      hide Step, CutShort, Guarded;
      var n := |rqs| - 1;
      var m := Run(Initial(id), rqs[..n]);
      StepDescends(m, rqs[n]);
      BufferedIsSilent(id, rqs[..n]);
      CutShortOpens(m, rqs[n]);
      StepKeepsGuarded(m, rqs[n]);
    }
  }

  /** Whoever subscribed before the opening and is still subscribed, at any later point of any run, has
      rebuilt exactly the stored timestamps in time order, even when the open was cut short. */
  lemma EarlySubscribersMirrorTheChannel(id: string, early: seq<Request>, rest: seq<Request>, i: SubscriberId)
    requires
      var s := Run(Initial(id), early);
      s.channel.state.Buffered? && s.listeners.Some? && i in s.listeners.value.queue
    requires
      var s := Run(Initial(id), early + rest);
      s.listeners.Some? && i in s.listeners.value.queue
    ensures
      var s := Run(Initial(id), early + rest);
      && i in s.listeners.value.inboxes
      && Mirrors(Replay(s.listeners.value.inboxes[i]), s.channel.messages)
  {
    BufferedIsSilent(id, early);
    RunTracks(Run(Initial(id), early), rest, i);
    RunSplits(Initial(id), early, rest);
  }
}
