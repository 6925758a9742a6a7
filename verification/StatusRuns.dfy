/** Every interleaving of update and listen requests on one ticket. */
module StatusRuns {
  import opened Status

  /** An update between its two steps: it either provided the record of the ticket or brings its own contents. */
  datatype Pending = Own | Foreign(content: Content)

  /** The ticket, and the requests that have found its record but not yet locked it. */
  datatype World = World(ticket: Ticket, updates: multiset<Pending>, listens: nat)

  datatype Event =
    | UpdateArrives(content: Content)
    | UpdateRuns(pending: Pending)
    | ListenArrives
    | ListenRuns

  const START := World(Ticket([], []), multiset{}, 0)

  /** A request can only run its locked part after it arrived. */
  predicate Enabled(w: World, e: Event) {
    match e
    case UpdateArrives(_) => true
    case UpdateRuns(p) => p in w.updates
    case ListenArrives => true
    case ListenRuns => w.listens > 0
  }

  predicate Sound(w: World) {
    && Coherent(w.ticket)
    && (w.updates != multiset{} || w.listens > 0 ==> w.ticket.history != [])
  }

  function Step(w: World, e: Event): World
    requires Sound(w)
  {
    if !Enabled(w, e) then w
    else
      match e
      case UpdateArrives(c) =>
        World(Arrived(w.ticket, c), w.updates + multiset{if w.ticket.history == [] then Own else Foreign(c)}, w.listens)
      case UpdateRuns(p) =>
        var c := if p.Own? then Current(w.ticket) else p.content;
        World(Updated(w.ticket, c), w.updates - multiset{p}, w.listens)
      case ListenArrives => World(Arrived(w.ticket, EMPTY), w.updates, w.listens + 1)
      case ListenRuns => World(Listened(w.ticket), w.updates, w.listens - 1)
  }

  lemma StepStaysSound(w: World, e: Event)
    requires Sound(w)
    ensures Sound(Step(w, e))
  {
    if Enabled(w, e) {
      match e
      case UpdateArrives(c) =>
      case UpdateRuns(p) =>
        UpdatedStaysValid(w.ticket, if p.Own? then Current(w.ticket) else p.content);
      case ListenArrives =>
      case ListenRuns => ListenedStaysValid(w.ticket);
    }
  }

  function Run(w: World, events: seq<Event>): (r: World)
    requires Sound(w)
    ensures Sound(r)
  {
    if events == [] then w
    else
      var m := Run(w, events[..|events| - 1]);
      StepStaysSound(m, events[|events| - 1]);
      Step(m, events[|events| - 1])
  }

  /** A listener was sent statuses of strictly rising rank, never no-status, at most as many as its buffer
      holds; a done one can only be the last, and the channel is closed exactly when it was sent. */
  predicate Orderly(l: Listener) {
    && (forall a, b :: 0 <= a < b < |l.sent| ==> Rank(l.sent[a].code) < Rank(l.sent[b].code))
    && (forall a :: 0 <= a < |l.sent| - 1 ==> !IsDone(l.sent[a].code))
    && (l.closed <==> l.sent != [] && IsDone(l.sent[|l.sent| - 1].code))
    && |l.sent| <= BUFFER_SIZE
    && (forall a :: 0 <= a < |l.sent| ==> l.sent[a].code != NoStatus)
  }

  /** In every interleaving every listener is served in order, within its buffer, and closed in time. */
  lemma ListenersAreServed(events: seq<Event>, i: nat)
    requires i < |Run(START, events).ticket.listeners|
    ensures Orderly(Run(START, events).ticket.listeners[i])
  {
    OrderlyListeners(Run(START, events).ticket, i);
  }

  lemma OrderlyListeners(t: Ticket, i: nat)
    requires Coherent(t) && i < |t.listeners|
    ensures Orderly(t.listeners[i])
  {
    var l := t.listeners[i];
    assert Served(l, t.history);
    OpenListenersHaveRoom(t, i);
    forall a | 0 <= a < |l.sent| ensures l.sent[a] == t.history[l.since + a] {}
    if l.closed && |l.sent| == 1 {
    } else if l.sent != [] {
      RankCountsUp(t.history, |t.history|);
    }
  }

  /** Once the record of a ticket is done, every listener processed so far, early or late, holds a done
      status as its last one and is closed, even if the first update became the record itself. */
  lemma NoFinalUpdateIsLost(events: seq<Event>, i: nat)
    requires
      var t := Run(START, events).ticket;
      t.history != [] && IsDone(Current(t).code) && i < |t.listeners|
    ensures
      var l := Run(START, events).ticket.listeners[i];
      l.closed && l.sent != [] && IsDone(l.sent[|l.sent| - 1].code)
  {
    hide Run;
    LastSentIsDone(Run(START, events).ticket, i);
  }

  lemma LastSentIsDone(t: Ticket, i: nat)
    requires Coherent(t) && t.history != [] && IsDone(Current(t).code) && i < |t.listeners|
    ensures
      var l := t.listeners[i];
      l.closed && l.sent != [] && IsDone(l.sent[|l.sent| - 1].code)
  {
    assert Served(t.listeners[i], t.history);
  }

  /** An open listener has been sent everything the record became since it was added. */
  lemma OpenListenersMissNothing(events: seq<Event>, i: nat)
    requires
      var t := Run(START, events).ticket;
      i < |t.listeners| && !t.listeners[i].closed
    ensures
      var t := Run(START, events).ticket;
      t.listeners[i].since <= |t.history| && t.listeners[i].sent == t.history[t.listeners[i].since..]
  {
    hide Run;
    var t := Run(START, events).ticket;
    assert Served(t.listeners[i], t.history);
  }

  /** What a listener was sent stays sent, and nothing is added once it is closed. */
  lemma {:induction false} SendsOnlyGrow(w: World, events: seq<Event>, i: nat)
    requires Sound(w) && i < |w.ticket.listeners|
    ensures
      var l, w' := w.ticket.listeners[i], Run(w, events);
      && i < |w'.ticket.listeners|
      && w'.ticket.listeners[i].since == l.since
      && l.sent <= w'.ticket.listeners[i].sent
      && (l.closed ==> w'.ticket.listeners[i] == l)
  {
    if events != [] {
      var m := Run(w, events[..|events| - 1]);
      SendsOnlyGrow(w, events[..|events| - 1], i);
      StepOnlySends(m, events[|events| - 1], i);
    }
  }

  lemma StepOnlySends(w: World, e: Event, i: nat)
    requires Sound(w) && i < |w.ticket.listeners|
    ensures
      var l, t := w.ticket.listeners[i], Step(w, e).ticket;
      && i < |t.listeners| && t.listeners[i].since == l.since && l.sent <= t.listeners[i].sent
      && (l.closed ==> t.listeners[i] == l)
  {
  }

  // ---------------------------------------------------------------- the status that remains

  /** The highest rank among updates that arrived. */
  function HighestRank(events: seq<Event>): nat {
    if events == [] then 0
    else
      var k := |events| - 1;
      var rest := HighestRank(events[..k]);
      if events[k].UpdateArrives? && Rank(events[k].content.code) > rest then Rank(events[k].content.code) else rest
  }

  /** The highest rank that has arrived is in the record or still on its way. */
  ghost predicate Covered(w: World, top: nat) {
    && (w.ticket.history == [] ==> top == 0)
    && (w.ticket.history != [] ==>
          && Rank(Current(w.ticket).code) <= top
          && (Rank(Current(w.ticket).code) == top || exists c :: Foreign(c) in w.updates && Rank(c.code) == top))
    && forall p :: p in w.updates && p.Foreign? ==> Rank(p.content.code) <= top
  }

  lemma {:induction false} HighestIsCovered(events: seq<Event>)
    ensures Covered(Run(START, events), HighestRank(events))
  {
    if events != [] {
      var k := |events| - 1;
      HighestIsCovered(events[..k]);
      CoveredStep(Run(START, events[..k]), events[k], HighestRank(events[..k]));
    }
  }

  lemma CoveredStep(w: World, e: Event, top: nat)
    requires Sound(w) && Covered(w, top)
    ensures
      var top' := if e.UpdateArrives? && Rank(e.content.code) > top then Rank(e.content.code) else top;
      Covered(Step(w, e), top')
  {
    var w' := Step(w, e);
    if e.UpdateArrives? && w.ticket.history != [] {
      if Rank(e.content.code) > top {
        assert Foreign(e.content) in w'.updates;
      } else if Rank(Current(w.ticket).code) != top {
        var c :| Foreign(c) in w.updates && Rank(c.code) == top;
        assert Foreign(c) in w'.updates;
      }
    } else if Enabled(w, e) && e.UpdateRuns? {
      if Rank(Current(w.ticket).code) != top {
        var c :| Foreign(c) in w.updates && Rank(c.code) == top;
        if e.pending != Foreign(c) {
          assert Foreign(c) in w'.updates;
        }
      }
    }
  }

  /** When every update that arrived has run, the record has the highest rank among them, whatever the
      interleaving. */
  lemma RecordEndsHighest(events: seq<Event>)
    requires Run(START, events).updates == multiset{} && Run(START, events).ticket.history != []
    ensures Rank(Current(Run(START, events).ticket).code) == HighestRank(events)
  {
    HighestIsCovered(events);
  }

  lemma RunOne(w: World, events: seq<Event>, e: Event)
    requires Sound(w)
    ensures Run(w, events + [e]) == Step(Run(w, events), e)
  {
    assert (events + [e])[..|events|] == events;
  }

  const SUCCEEDED := Content(Success, NoReason, "", [])
  const REFUSED := Content(Failed, Rejected, "", [])

  function SuccessFirst(): seq<Event> {
    [] + [ListenArrives] + [ListenRuns] + [UpdateArrives(SUCCEEDED)] + [UpdateRuns(Foreign(SUCCEEDED))]
  }

  lemma SuccessClosesListener()
    ensures Run(START, SuccessFirst()) == World(Ticket([EMPTY, SUCCEEDED], [Listener(1, [SUCCEEDED], true)]), multiset{}, 0)
  {
    assert Run(START, []) == START;
    hide Run;
    var e1: seq<Event> := [] + [ListenArrives];
    RunOne(START, [], ListenArrives);
    RunOne(START, e1, ListenRuns);
    RunOne(START, e1 + [ListenRuns], UpdateArrives(SUCCEEDED));
    RunOne(START, e1 + [ListenRuns] + [UpdateArrives(SUCCEEDED)], UpdateRuns(Foreign(SUCCEEDED)));
    ListenerFirst();
    SuccessArrives();
  }

  const LISTENING := World(Ticket([EMPTY], [Listener(1, [], false)]), multiset{}, 0)

  lemma ListenerFirst()
    ensures Step(Step(START, ListenArrives), ListenRuns) == LISTENING
  {
    var w := Step(START, ListenArrives);
    assert Listened(w.ticket).listeners == [] + [Listener(1, [], false)];
  }

  lemma SuccessArrives()
    ensures Sound(LISTENING)
    ensures Step(Step(LISTENING, UpdateArrives(SUCCEEDED)), UpdateRuns(Foreign(SUCCEEDED)))
            == World(Ticket([EMPTY, SUCCEEDED], [Listener(1, [SUCCEEDED], true)]), multiset{}, 0)
  {
    var t := Updated(LISTENING.ticket, SUCCEEDED);
    assert Sent(Listener(1, [], false), SUCCEEDED) == Listener(1, [] + [SUCCEEDED], true);
    assert t.history == [EMPTY, SUCCEEDED] && |t.listeners| == 1 && t.listeners[0] == Listener(1, [SUCCEEDED], true);
    assert t.listeners == [Listener(1, [SUCCEEDED], true)];
  }

  function FailureFollows(): seq<Event> {
    SuccessFirst() + [UpdateArrives(REFUSED)] + [UpdateRuns(Foreign(REFUSED))]
  }

  /** A done status can still change: a failure outranks a success, and listeners of the success are
      not told. */
  lemma FailureOverridesSuccess()
    ensures Run(START, FailureFollows()) == World(Ticket([EMPTY, SUCCEEDED, REFUSED], [Listener(1, [SUCCEEDED], true)]), multiset{}, 0)
  {
    SuccessClosesListener();
    hide SuccessFirst, Run;
    RunOne(START, SuccessFirst(), UpdateArrives(REFUSED));
    RunOne(START, SuccessFirst() + [UpdateArrives(REFUSED)], UpdateRuns(Foreign(REFUSED)));
    FailureArrives(Run(START, SuccessFirst()));
  }

  lemma FailureArrives(w: World)
    requires Sound(w) && w == World(Ticket([EMPTY, SUCCEEDED], [Listener(1, [SUCCEEDED], true)]), multiset{}, 0)
    ensures Step(Step(w, UpdateArrives(REFUSED)), UpdateRuns(Foreign(REFUSED)))
            == World(Ticket([EMPTY, SUCCEEDED, REFUSED], [Listener(1, [SUCCEEDED], true)]), multiset{}, 0)
  {
    var t := w.ticket;
    assert Updated(t, REFUSED).history == [EMPTY, SUCCEEDED, REFUSED];
    assert Updated(t, REFUSED).listeners == t.listeners;
  }

  // ---------------------------------------------------------------- who learns the final status

  predicate FailureArrived(events: seq<Event>) {
    exists i :: 0 <= i < |events| && events[i].UpdateArrives? && events[i].content.code == Failed
  }

  lemma {:induction false} FailureIsHighest(events: seq<Event>)
    ensures HighestRank(events) <= Rank(Failed)
    ensures HighestRank(events) == Rank(Failed) <==> FailureArrived(events)
  {
    if events != [] {
      var k := |events| - 1;
      FailureIsHighest(events[..k]);
      assert events == events[..k] + [events[k]];
      if FailureArrived(events[..k]) {
        var i :| 0 <= i < k && events[..k][i].UpdateArrives? && events[..k][i].content.code == Failed;
        assert events[i] == events[..k][i];
      }
    }
  }

  /** When every update has run, a listener that was closed holds the final status of the ticket, exactly
      when the last it was sent is a failure, or no failure arrived at all. */
  lemma ClosedListenersHoldFinalExactly(events: seq<Event>, i: nat)
    requires Run(START, events).updates == multiset{}
    requires i < |Run(START, events).ticket.listeners| && Run(START, events).ticket.listeners[i].closed
    ensures
      var t := Run(START, events).ticket;
      var l := t.listeners[i];
      && l.sent != [] && t.history != []
      && (l.sent[|l.sent| - 1] == Current(t) <==> l.sent[|l.sent| - 1].code == Failed || !FailureArrived(events))
  {
    hide Run, Served, FailureArrived, HighestRank;
    LastSentIsCurrentExactly(Run(START, events).ticket, i);
    RecordEndsHighest(events);
    FailureIsHighest(events);
  }

  lemma LastSentIsCurrentExactly(t: Ticket, i: nat)
    requires Coherent(t) && i < |t.listeners| && t.listeners[i].closed
    ensures
      var l := t.listeners[i];
      && l.sent != [] && t.history != [] && IsDone(l.sent[|l.sent| - 1].code)
      && Rank(l.sent[|l.sent| - 1].code) <= Rank(Current(t).code)
      && (l.sent[|l.sent| - 1] == Current(t) <==> Rank(l.sent[|l.sent| - 1].code) == Rank(Current(t).code))
  {
    var l := t.listeners[i];
    assert Served(l, t.history);
    var k := l.since + |l.sent| - 1;
    assert l.sent[|l.sent| - 1] == t.history[k];
    if k < |t.history| - 1 {
      assert Rank(t.history[k].code) < Rank(t.history[|t.history| - 1].code);
    }
  }

  /** Whatever a ticket held, and whatever an update still brings, arrived, but for the empty contents of
      a listener that came first. */
  predicate Known(c: Content, events: seq<Event>) {
    c == EMPTY || exists i :: 0 <= i < |events| && events[i] == UpdateArrives(c)
  }

  ghost predicate AllKnown(w: World, events: seq<Event>) {
    && (forall c :: c in w.ticket.history ==> Known(c, events))
    && (forall c :: Foreign(c) in w.updates ==> Known(c, events))
  }

  lemma {:induction false} HistoryIsKnown(events: seq<Event>)
    ensures AllKnown(Run(START, events), events)
  {
    if events != [] {
      var k := |events| - 1;
      HistoryIsKnown(events[..k]);
      forall c | Known(c, events[..k]) ensures Known(c, events) {
        KnownStays(c, events[..k], events[k]);
      }
      assert events[..k] + [events[k]] == events;
      hide Run, Known;
      KnownStep(Run(START, events[..k]), events, events[k]);
    }
  }

  lemma KnownStays(c: Content, events: seq<Event>, e: Event)
    requires Known(c, events)
    ensures Known(c, events + [e])
  {
    if c != EMPTY {
      var i :| 0 <= i < |events| && events[i] == UpdateArrives(c);
      assert (events + [e])[i] == UpdateArrives(c);
    }
  }

  lemma KnownStep(w: World, events: seq<Event>, e: Event)
    requires Sound(w) && AllKnown(w, events) && events != [] && events[|events| - 1] == e
    ensures AllKnown(Step(w, e), events)
  {
    assert e.UpdateArrives? ==> Known(e.content, events);
    assert Known(EMPTY, events);
  }

  // ---------------------------------------------------------------- updates taken up in turn

  /** The order of statuses: none, queued, running, a success, a failure. */
  predicate ComesLater(a: Code, b: Code) {
    || (a == NoStatus && b != NoStatus)
    || (a == Queued && (b == Running || b == Success || b == Failed))
    || (a == Running && (b == Success || b == Failed))
    || (a == Success && b == Failed)
  }

  predicate InTurn(s: seq<Content>) {
    forall i :: 0 < i < |s| ==> ComesLater(s[i - 1].code, s[i].code)
  }

  /** What the updates brought that have run, in order, but for the one that provided the record. */
  function TakenUp(events: seq<Event>): seq<Content> {
    if events == [] then []
    else
      var n := |events| - 1;
      var e := events[n];
      TakenUp(events[..n])
      + (if e.UpdateRuns? && e.pending.Foreign? && Enabled(Run(START, events[..n]), e) then [e.pending.content] else [])
  }

  /** The history of a ticket is what its record began with and all that was taken up, if and only if each
      status came later in the order than the one before it. */
  lemma {:induction false} HistoryIsTakenUpExactly(events: seq<Event>)
    ensures
      var h := Run(START, events).ticket.history;
      if h == [] then TakenUp(events) == []
      else
        && |h| <= 1 + |TakenUp(events)|
        && (h == [h[0]] + TakenUp(events) <==> InTurn([h[0]] + TakenUp(events)))
  {
    if events != [] {
      var n := |events| - 1;
      HistoryIsTakenUpExactly(events[..n]);
      hide Run, InTurn, ComesLater;
      OneMoreTakenUp(Run(START, events[..n]), events[n], TakenUp(events[..n]));
    }
  }

  lemma OneMoreTakenUp(w: World, e: Event, taken: seq<Content>)
    requires Sound(w)
    requires
      var h := w.ticket.history;
      if h == [] then taken == []
      else |h| <= 1 + |taken| && (h == [h[0]] + taken <==> InTurn([h[0]] + taken))
    ensures
      var h := Step(w, e).ticket.history;
      var all := taken + if e.UpdateRuns? && e.pending.Foreign? && Enabled(w, e) then [e.pending.content] else [];
      if h == [] then all == []
      else |h| <= 1 + |all| && (h == [h[0]] + all <==> InTurn([h[0]] + all))
  {
    var h := w.ticket.history;
    if e.UpdateRuns? && e.pending.Foreign? && Enabled(w, e) {
      var c := e.pending.content;
      RankIsOrder(Current(w.ticket).code, c.code);
      hide InTurn, ComesLater, Rank, Coherent;
      assert Step(w, e).ticket.history == if ComesLater(Current(w.ticket).code, c.code) then h + [c] else h;
      HistoryTakesUp(h, taken, c);
    } else {
      assert e.UpdateArrives? ==> InTurn([e.content] + []);
      assert InTurn([EMPTY] + []);
      hide InTurn, ComesLater;
      assert taken + [] == taken;
    }
  }

  lemma HistoryTakesUp(h: seq<Content>, taken: seq<Content>, c: Content)
    requires h != [] && |h| <= 1 + |taken| && (h == [h[0]] + taken <==> InTurn([h[0]] + taken))
    ensures
      var h', all := if ComesLater(h[|h| - 1].code, c.code) then h + [c] else h, taken + [c];
      |h'| <= 1 + |all| && (h' == [h[0]] + all <==> InTurn([h[0]] + all))
  {
    OneMoreInTurn([h[0]] + taken, c);
    hide InTurn, ComesLater;
    assert [h[0]] + (taken + [c]) == [h[0]] + taken + [c];
    if h + [c] == [h[0]] + taken + [c] {
      assert h == (h + [c])[..|h|] && [h[0]] + taken == ([h[0]] + taken + [c])[..1 + |taken|];
    }
  }

  lemma RankIsOrder(a: Code, b: Code)
    ensures ComesLater(a, b) <==> Rank(a) < Rank(b)
  {
  }

  lemma OneMoreInTurn(s: seq<Content>, c: Content)
    requires s != []
    ensures InTurn(s + [c]) <==> InTurn(s) && ComesLater(s[|s| - 1].code, c.code)
  {
    var r := s + [c];
    if InTurn(r) {
      forall i | 0 < i < |s| ensures ComesLater(s[i - 1].code, s[i].code) {
        assert r[i - 1] == s[i - 1] && r[i] == s[i];
      }
      assert ComesLater(r[|s| - 1].code, r[|s|].code);
    }
  }

  lemma {:induction false} RunSplits(w: World, a: seq<Event>, b: seq<Event>)
    requires Sound(w)
    ensures Run(w, a + b) == Run(Run(w, a), b)
  {
    if b == [] {
      assert a + b == a;
    } else {
      assert (a + b)[..|a + b| - 1] == a + b[..|b| - 1];
      RunSplits(w, a, b[..|b| - 1]);
    }
  }

  predicate OnlyLastDone(s: seq<Content>) {
    forall k :: 0 <= k < |s| - 1 ==> s[k].code != Success && s[k].code != Failed
  }

  /** A listener that was open before any update was taken up is sent all that are, if they come in turn and
      only the last one is done; that one closes it. */
  lemma OpenListenersAreSentAll(pre: seq<Event>, post: seq<Event>, i: nat)
    requires TakenUp(pre) == [] && i < |Run(START, pre).ticket.listeners| && !Run(START, pre).ticket.listeners[i].closed
    requires
      var h, all := Run(START, pre + post).ticket.history, TakenUp(pre + post);
      h != [] && InTurn([h[0]] + all) && OnlyLastDone(all)
    ensures
      var t, all := Run(START, pre + post).ticket, TakenUp(pre + post);
      && i < |t.listeners| && t.listeners[i].sent == all
      && (t.listeners[i].closed <==> all != [] && (all[|all| - 1].code == Success || all[|all| - 1].code == Failed))
  {
    HistoryIsTakenUpExactly(pre);
    HistoryIsTakenUpExactly(pre + post);
    RunSplits(START, pre, post);
    SendsOnlyGrow(Run(START, pre), post, i);
    hide Run, TakenUp, InTurn, Rising;
    assert Served(Run(START, pre).ticket.listeners[i], Run(START, pre).ticket.history);
    SentAll(Run(START, pre + post).ticket, i, TakenUp(pre + post));
  }

  lemma SentAll(t: Ticket, i: nat, all: seq<Content>)
    requires Coherent(t) && i < |t.listeners| && t.listeners[i].since == 1
    requires t.history != [] && t.history == [t.history[0]] + all && OnlyLastDone(all)
    ensures
      && t.listeners[i].sent == all
      && (t.listeners[i].closed <==> all != [] && (all[|all| - 1].code == Success || all[|all| - 1].code == Failed))
  {
    var l := t.listeners[i];
    assert Served(l, t.history);
    assert l.sent == all[..|l.sent|];
    if l.closed {
      assert IsDone(all[|l.sent| - 1].code);
    }
  }

  /** Whatever happens in between: if the updates that are taken up are queued, running and done, in this order,
      the record becomes each of them, and a listener open from the start is sent each of them and closed. */
  lemma EveryStageIsSent(pre: seq<Event>, post: seq<Event>, i: nat, first: Content, queued: Content, running: Content, done: Content)
    requires i < |Run(START, pre).ticket.listeners| && !Run(START, pre).ticket.listeners[i].closed && TakenUp(pre) == []
    requires first.code == NoStatus && first in Run(START, pre).ticket.history
    requires queued.code == Queued && running.code == Running && (done.code == Success || done.code == Failed)
    requires TakenUp(pre + post) == [queued, running, done]
    ensures
      var t := Run(START, pre + post).ticket;
      && t.history == [first, queued, running, done]
      && i < |t.listeners| && t.listeners[i].sent == [queued, running, done] && t.listeners[i].closed
  {
    HistoryIsTakenUpExactly(pre);
    HistoryIsTakenUpExactly(pre + post);
    RunSplits(START, pre, post);
    hide Run, TakenUp, InTurn, OnlyLastDone;
    FirstStays(Run(START, pre), post);
    StagesComeInTurn(first, queued, running, done);
    OpenListenersAreSentAll(pre, post, i);
  }

  lemma StagesComeInTurn(first: Content, queued: Content, running: Content, done: Content)
    requires first.code == NoStatus && queued.code == Queued && running.code == Running
    requires done.code == Success || done.code == Failed
    ensures InTurn([first] + [queued, running, done]) && OnlyLastDone([queued, running, done])
    ensures [first] + [queued, running, done] == [first, queued, running, done]
  {
  }

  lemma FirstStaysInStep(w: World, e: Event)
    requires Sound(w) && w.ticket.history != []
    ensures Step(w, e).ticket.history != [] && Step(w, e).ticket.history[0] == w.ticket.history[0]
  {
  }

  lemma {:induction false} FirstStays(w: World, events: seq<Event>)
    requires Sound(w) && w.ticket.history != []
    ensures Run(w, events).ticket.history != [] && Run(w, events).ticket.history[0] == w.ticket.history[0]
  {
    if events != [] {
      FirstStays(w, events[..|events| - 1]);
      FirstStaysInStep(Run(w, events[..|events| - 1]), events[|events| - 1]);
    }
  }
}
