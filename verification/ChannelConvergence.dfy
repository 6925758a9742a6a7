/** Closures and messages end up the same whatever order the requests around an opening come in. */
module ChannelConvergence {
  import opened Common
  import opened ChannelRecord
  import opened ChannelServer
  import opened ChannelRuns

  // ---------------------------------------------------------------- what a list of requests asks for

  /** The closures asked for, in order; those without a timestamp are refused at any time. */
  function Closures(rqs: seq<Request>): seq<Action> {
    if rqs == [] then []
    else
      var n := |rqs| - 1;
      Closures(rqs[..n])
      + (if rqs[n].CloseRequest? && rqs[n].closure.timestamp != ZERO_TIME then [rqs[n].closure] else [])
  }

  /** The timestamps of the messages an opening allows, in order. */
  function Stamps(o: Request, rqs: seq<Request>): seq<Time>
    requires o.OpenRequest?
  {
    if rqs == [] then []
    else
      var n := |rqs| - 1;
      Stamps(o, rqs[..n]) + Stamp(o, rqs[n])
  }

  function Stamp(o: Request, rq: Request): seq<Time>
    requires o.OpenRequest?
  {
    if rq.MessageRequest? && Postable(o.opening, o.permissions, rq.message) then [rq.message.timestamp] else []
  }

  lemma {:induction false} ClosuresAdd(a: seq<Request>, b: seq<Request>)
    ensures Closures(a + b) == Closures(a) + Closures(b)
  {
    if b == [] {
      assert a + b == a;
    } else {
      assert (a + b)[..|a + b| - 1] == a + b[..|b| - 1];
      ClosuresAdd(a, b[..|b| - 1]);
    }
  }

  lemma {:induction false} StampsAdd(o: Request, a: seq<Request>, b: seq<Request>)
    requires o.OpenRequest?
    ensures Stamps(o, a + b) == Stamps(o, a) + Stamps(o, b)
  {
    if b == [] {
      assert a + b == a;
    } else {
      assert (a + b)[..|a + b| - 1] == a + b[..|b| - 1];
      StampsAdd(o, a, b[..|b| - 1]);
    }
  }

  /** The closing requests of a list. */
  function ClosesOf(rqs: seq<Request>): (r: seq<Request>)
    ensures forall i :: 0 <= i < |r| ==> r[i].CloseRequest?
  {
    if rqs == [] then []
    else
      var n := |rqs| - 1;
      ClosesOf(rqs[..n]) + (if rqs[n].CloseRequest? then [rqs[n]] else [])
  }

  lemma SingleRequest(o: Request, rq: Request)
    requires o.OpenRequest?
    ensures Stamps(o, [rq]) == Stamp(o, rq)
    ensures Closures([rq]) == if rq.CloseRequest? && rq.closure.timestamp != ZERO_TIME then [rq.closure] else []
  {
    assert [rq][..0] == [];
  }

  lemma {:induction false} ClosesOfKeepsClosures(o: Request, rqs: seq<Request>)
    requires o.OpenRequest?
    ensures Closures(ClosesOf(rqs)) == Closures(rqs) && Stamps(o, ClosesOf(rqs)) == []
  {
    if rqs != [] {
      var n := |rqs| - 1;
      ClosesOfKeepsClosures(o, rqs[..n]);
      if rqs[n].CloseRequest? {
        SingleRequest(o, rqs[n]);
        ClosuresAdd(ClosesOf(rqs[..n]), [rqs[n]]);
        StampsAdd(o, ClosesOf(rqs[..n]), [rqs[n]]);
      } else {
        assert ClosesOf(rqs) == ClosesOf(rqs[..n]) && Closures(rqs) == Closures(rqs[..n]);
      }
    }
  }

  lemma {:induction false} ClosesArrive(rqs: seq<Request>)
    ensures Arrivals(ClosesOf(rqs)) == [] && NoOpening(ClosesOf(rqs))
  {
    if rqs != [] {
      var n := |rqs| - 1;
      ClosesArrive(rqs[..n]);
      ArrivalsAdd(ClosesOf(rqs[..n]), if rqs[n].CloseRequest? then [rqs[n]] else []);
      assert [rqs[n]][..0] == [];
    }
  }

  predicate Allowed(o: Request, a: Action)
    requires o.OpenRequest?
  {
    Admissible(o.opening, o.permissions, a)
  }

  /** A run up to its first valid opening, which is the only one that takes effect. */
  predicate Opens(pre: seq<Request>, o: Request) {
    NoOpening(pre) && ValidOpening(o)
  }

  /** An opening for which all that waited was answered. */
  predicate History(pre: seq<Request>, o: Request) {
    Opens(pre, o) && o.answered >= |Arrivals(pre)|
  }

  /** The early closures an opening goes on to apply: none if it was cut short. */
  function EarlyClosures(pre: seq<Request>, o: Request): seq<Action>
    requires o.OpenRequest?
  {
    if o.answered >= |Arrivals(pre)| then Closures(pre) else []
  }

  /** The closures that are tried, early ones at the opening and later ones as they come. */
  function Tried(pre: seq<Request>, o: Request, post: seq<Request>): seq<Action>
    requires o.OpenRequest?
  {
    EarlyClosures(pre, o) + Closures(post)
  }

  function After(id: string, pre: seq<Request>, o: Request, post: seq<Request>): System {
    Run(Run(Initial(id), pre + [o]), post)
  }

  lemma AfterIsOneRun(id: string, pre: seq<Request>, o: Request, post: seq<Request>)
    ensures After(id, pre, o, post) == Run(Initial(id), pre + [o] + post)
  {
    RunSplits(Initial(id), pre + [o], post);
  }

  /** Before the opening exactly the closures with a time wait, and exactly the buffered operations. */
  lemma {:induction false} BeforeOpening(id: string, pre: seq<Request>)
    requires NoOpening(pre)
    ensures
      var s := Run(Initial(id), pre);
      && s.channel.state.Buffered? && !s.crashed
      && s.channel.attempts == Closures(pre) && s.buffer == Arrivals(pre)
  {
    WaitsBeforeOpening(id, pre);
    if pre != [] {
      var n := |pre| - 1;
      BeforeOpening(id, pre[..n]);
      assert pre[n] in pre;
      StepBeforeOpening(Run(Initial(id), pre[..n]), pre[n]);
    }
  }

  lemma StepBeforeOpening(s: System, rq: Request)
    requires Consistent(s) && !s.crashed && s.channel.state.Buffered? && !ValidOpening(rq)
    ensures
      Step(s, rq).0.channel.attempts
      == s.channel.attempts + (if rq.CloseRequest? && rq.closure.timestamp != ZERO_TIME then [rq.closure] else [])
  {
  }

  // ---------------------------------------------------------------- the closure that wins

  /** The early closure applied at the opening. */
  function Early(o: Request, order: seq<Action>): Option<Action>
    requires o.OpenRequest?
  {
    var k := FirstAdmissible(o.opening, o.permissions, order);
    if k < |order| then Some(order[k]) else None
  }

  function Better(o: Request, w: Option<Action>, a: Action): Option<Action>
    requires o.OpenRequest?
  {
    if Allowed(o, a) && (w.None? || Outranks(a, w.value)) then Some(a) else w
  }

  /** The closure standing after later closures are tried one by one. */
  function Later(o: Request, w: Option<Action>, late: seq<Action>): Option<Action>
    requires o.OpenRequest?
  {
    if late == [] then w else Better(o, Later(o, w, late[..|late| - 1]), late[|late| - 1])
  }

  function Winner(o: Request, order: seq<Action>, late: seq<Action>): Option<Action>
    requires o.OpenRequest?
  {
    Later(o, Early(o, order), late)
  }

  /** The closure in force after a run around an opening. */
  function Standing(pre: seq<Request>, o: Request, post: seq<Request>): Option<Action>
    requires o.OpenRequest?
  {
    Winner(o, Arranged(EarlyClosures(pre, o), o.order), Closures(post))
  }

  /** The part of a channel that closures and messages determine. */
  ghost predicate Reached(c: Channel, o: Request, winner: Option<Action>, stamps: seq<Time>)
    requires o.OpenRequest?
  {
    && WellFormed(c)
    && c.permissions == Some(o.permissions) && c.opening == Some(o.opening)
    && (if winner.None? then c.state.Open? else c.state.Closed? && c.closure == winner)
    && forall t :: Agrees(c, stamps, t)
  }

  /** Stored and allowed messages with timestamp `t` are equally many before the closing time, and none
      are stored after it; those stamped exactly at the closing time may have been dropped. */
  predicate Agrees(c: Channel, stamps: seq<Time>, t: Time) {
    if c.state.Closed? && c.duration.Some? then
      if t < c.duration.value.closedAt then multiset(c.messages)[t] == multiset(stamps)[t]
      else if t == c.duration.value.closedAt then multiset(c.messages)[t] <= multiset(stamps)[t]
      else multiset(c.messages)[t] == 0
    else multiset(c.messages)[t] == multiset(stamps)[t]
  }

  lemma OpeningReaches(id: string, pre: seq<Request>, o: Request)
    requires Opens(pre, o)
    ensures
      var s := Run(Initial(id), pre + [o]);
      && !s.crashed && (History(pre, o) ==> s.listeners.Some?)
      && Reached(s.channel, o, Early(o, Arranged(EarlyClosures(pre, o), o.order)), [])
      && s.channel.attempts == (if History(pre, o) then [] else Closures(pre))
  {
    assert (pre + [o])[..|pre|] == pre;
    BeforeOpening(id, pre);
    hide Closures, Arrivals, NoOpening;
    OpeningStepReaches(Run(Initial(id), pre), o);
  }

  lemma OpeningStepReaches(s: System, o: Request)
    requires Consistent(s) && !s.crashed && s.channel.state.Buffered? && ValidOpening(o)
    ensures
      var s', fully := Step(s, o).0, o.answered >= |s.buffer|;
      && !s'.crashed && (fully ==> s'.listeners.Some?)
      && Reached(s'.channel, o, Early(o, Arranged(if fully then s.channel.attempts else [], o.order)), [])
      && s'.channel.attempts == (if fully then [] else s.channel.attempts)
  {
    assert Arranged([], o.order) == [];
    assert s.channel.messages == [];
  }

  lemma CloseReaches(c: Channel, o: Request, w: Option<Action>, stamps: seq<Time>, a: Action)
    requires o.OpenRequest? && Reached(c, o, w, stamps)
    ensures Reached(Closing(c, Some(a)).channel, o, Better(o, w, a), stamps)
  {
    var c' := Closing(c, Some(a)).channel;
    if c' != c {
      forall t ensures Agrees(c', stamps, t) {
        assert Agrees(c, stamps, t);
        BeforeCounts(c.messages, a.timestamp, t);
      }
    }
  }

  lemma MessageReaches(c: Channel, o: Request, w: Option<Action>, stamps: seq<Time>, rq: Request)
    requires o.OpenRequest? && rq.MessageRequest? && Reached(c, o, w, stamps)
    ensures Reached(Adding(c, rq.message).channel, o, w, stamps + Stamp(o, rq))
  {
    var c', all := Adding(c, rq.message).channel, stamps + Stamp(o, rq);
    forall t ensures Agrees(c', all, t) {
      assert Agrees(c, stamps, t);
    }
  }

  lemma StepReaches(s: System, rq: Request, o: Request, w: Option<Action>, stamps: seq<Time>)
    requires Consistent(s) && !s.crashed && o.OpenRequest? && Reached(s.channel, o, w, stamps)
    ensures Reached(Step(s, rq).0.channel, o, if rq.CloseRequest? then Better(o, w, rq.closure) else w, stamps + Stamp(o, rq))
  {
    if rq.CloseRequest? {
      CloseReaches(s.channel, o, w, stamps, rq.closure);
      assert stamps + Stamp(o, rq) == stamps;
    } else if rq.MessageRequest? {
      MessageReaches(s.channel, o, w, stamps, rq);
    } else {
      assert stamps + Stamp(o, rq) == stamps;
    }
  }

  lemma CrashIsFinal(id: string, pre: seq<Request>, o: Request, post: seq<Request>, n: nat)
    requires n < |post| && !After(id, pre, o, post).crashed
    ensures !After(id, pre, o, post[..n]).crashed
  {
    var s := Run(Initial(id), pre + [o]);
    assert post == post[..n] + post[n..];
    RunSplits(s, post[..n], post[n..]);
    if Run(s, post[..n]).crashed {
      CrashStays(Run(s, post[..n]), post[n..]);
    }
  }

  lemma {:induction false} CrashStays(s: System, rqs: seq<Request>)
    requires Consistent(s) && s.crashed
    ensures Run(s, rqs).crashed
  {
    if rqs != [] {
      CrashStays(s, rqs[..|rqs| - 1]);
    }
  }

  /** After an opening that was answered completely nothing ends the program. */
  lemma {:induction false} FullyFedRunsGoOn(id: string, pre: seq<Request>, o: Request, post: seq<Request>)
    requires History(pre, o)
    ensures !After(id, pre, o, post).crashed && After(id, pre, o, post).listeners.Some?
  {
    if post == [] {
      OpeningReaches(id, pre, o);
    } else {
      FullyFedRunsGoOn(id, pre, o, post[..|post| - 1]);
      ListenedStepGoesOn(After(id, pre, o, post[..|post| - 1]), post[|post| - 1]);
    }
  }

  lemma ListenedStepGoesOn(s: System, rq: Request)
    requires Consistent(s) && !s.crashed && s.listeners.Some?
    ensures !Step(s, rq).0.crashed && Step(s, rq).0.listeners.Some?
  {
  }

  /** What any run around its first opening leads to, unless the program has ended. */
  lemma {:induction false} HistoryReaches(id: string, pre: seq<Request>, o: Request, post: seq<Request>)
    requires Opens(pre, o) && !After(id, pre, o, post).crashed
    ensures Reached(After(id, pre, o, post).channel, o, Standing(pre, o, post), Stamps(o, post))
  {
    if post == [] {
      OpeningReaches(id, pre, o);
    } else {
      var n := |post| - 1;
      CrashIsFinal(id, pre, o, post, n);
      HistoryReaches(id, pre, o, post[..n]);
      StepReaches(After(id, pre, o, post[..n]), post[n], o, Standing(pre, o, post[..n]), Stamps(o, post[..n]));
      WinnerSteps(o, Early(o, Arranged(EarlyClosures(pre, o), o.order)), post);
    }
  }

  /** After an opening cut short the early closures are never applied; they stay until a later one succeeds. */
  lemma {:induction false} EarlyClosuresStay(id: string, pre: seq<Request>, o: Request, post: seq<Request>)
    requires Opens(pre, o) && !History(pre, o) && !After(id, pre, o, post).crashed
    ensures Standing(pre, o, post) == Later(o, None, Closures(post))
    ensures After(id, pre, o, post).channel.attempts == if Standing(pre, o, post).None? then Closures(pre) else []
  {
    assert Arranged([], o.order) == [];
    if post == [] {
      OpeningReaches(id, pre, o);
    } else {
      var n := |post| - 1;
      CrashIsFinal(id, pre, o, post, n);
      EarlyClosuresStay(id, pre, o, post[..n]);
      HistoryReaches(id, pre, o, post[..n]);
      WinnerSteps(o, None, post);
      AttemptsStay(After(id, pre, o, post[..n]), post[n], o, Standing(pre, o, post[..n]), Stamps(o, post[..n]));
    }
  }

  lemma AttemptsStay(s: System, rq: Request, o: Request, w: Option<Action>, stamps: seq<Time>)
    requires Consistent(s) && !s.crashed && o.OpenRequest? && Reached(s.channel, o, w, stamps)
    requires w.Some? ==> s.channel.attempts == []
    ensures Step(s, rq).0.channel.attempts == if rq.CloseRequest? && Better(o, w, rq.closure).Some? then [] else s.channel.attempts
  {
  }

  lemma WinnerSteps(o: Request, w: Option<Action>, post: seq<Request>)
    requires o.OpenRequest? && post != []
    ensures
      var rq := post[|post| - 1];
      var y := Later(o, w, Closures(post[..|post| - 1]));
      Later(o, w, Closures(post)) == if rq.CloseRequest? then Better(o, y, rq.closure) else y
  {
    var late := Closures(post);
    if late != Closures(post[..|post| - 1]) {
      assert late[..|late| - 1] == Closures(post[..|post| - 1]);
    }
  }

  /** The winner is one of the allowed closures, and none of the later ones outranks it. */
  lemma {:induction false} LaterIsUnbeaten(o: Request, w: Option<Action>, late: seq<Action>)
    requires o.OpenRequest?
    ensures
      var x := Later(o, w, late);
      && (x.Some? <==> w.Some? || exists a :: a in late && Allowed(o, a))
      && (x.Some? ==> x == w || (x.value in late && Allowed(o, x.value)))
      && (x.Some? && w.Some? ==> !Outranks(w.value, x.value))
      && (x.Some? ==> forall a :: a in late && Allowed(o, a) ==> !Outranks(a, x.value))
  {
    if late == [] {
      if w.Some? && Outranks(w.value, w.value) {
        PrecedesIsAsymmetric(w.value.issuerId, w.value.issuerId);
      }
    } else {
      var n := |late| - 1;
      LaterIsUnbeaten(o, w, late[..n]);
      var y, x := Later(o, w, late[..n]), Later(o, w, late);
      if x != y {
        forall a | Outranks(a, x.value) && y.Some? ensures Outranks(a, y.value) {
          OutranksIsTransitive(a, x.value, y.value);
        }
        OutranksIsIrreflexive(x.value);
      }
      assert late == late[..n] + [late[n]];
    }
  }

  lemma OutranksIsIrreflexive(a: Action)
    ensures !Outranks(a, a)
  {
    if Precedes(a.issuerId, a.issuerId) {
      PrecedesIsAsymmetric(a.issuerId, a.issuerId);
    }
  }

  lemma EarlyIsEarliest(o: Request, order: seq<Action>, early: seq<Action>)
    requires o.OpenRequest? && Arranges(order, early)
    ensures
      var w := Early(o, order);
      && (w.Some? <==> exists a :: a in early && Allowed(o, a))
      && (w.Some? ==> w.value in early && Allowed(o, w.value))
      && (w.Some? ==> forall a :: a in early && Allowed(o, a) ==> w.value.timestamp <= a.timestamp)
  {
    var k := FirstAdmissible(o.opening, o.permissions, order);
    forall a | a in early && Allowed(o, a)
      ensures k < |order| && order[k].timestamp <= a.timestamp
    {
      assert a in multiset(early);
      assert a in order;
      var i :| 0 <= i < |order| && order[i] == a;
    }
    if k < |order| {
      assert order[k] in multiset(order);
      assert order[k] in early;
    }
  }

  /** An allowed closure that names the earliest time among the allowed ones. */
  predicate Earliest(o: Request, closures: seq<Action>, a: Action)
    requires o.OpenRequest?
  {
    a in closures && Allowed(o, a) && forall b :: b in closures && Allowed(o, b) ==> a.timestamp <= b.timestamp
  }

  /** Closed by an earliest allowed closure at its time, or open if no closure is allowed. */
  predicate ClosedAtEarliest(o: Request, closures: seq<Action>, c: Channel)
    requires o.OpenRequest?
  {
    && c.duration.Some? && c.duration.value.openedAt == o.opening.timestamp
    && if c.state.Closed? then
         c.closure.Some? && Earliest(o, closures, c.closure.value) && c.duration.value.closedAt == c.closure.value.timestamp
       else
         c.state.Open? && forall a :: a in closures ==> !Allowed(o, a)
  }

  /** The channel ends closed exactly when some closure that is tried is allowed, at the earliest time
      any of them names. */
  lemma ClosesAtEarliestAllowed(id: string, pre: seq<Request>, o: Request, post: seq<Request>)
    requires Opens(pre, o) && !After(id, pre, o, post).crashed
    ensures ClosedAtEarliest(o, Tried(pre, o, post), After(id, pre, o, post).channel)
  {
    HistoryReaches(id, pre, o, post);
    var order := Arranged(EarlyClosures(pre, o), o.order);
    EarlyIsEarliest(o, order, EarlyClosures(pre, o));
    LaterIsUnbeaten(o, Early(o, order), Closures(post));
  }

  /** For every allowed early closure a later one comes that is allowed and no later in time. */
  predicate Superseded(o: Request, early: seq<Action>, late: seq<Action>)
    requires o.OpenRequest?
  {
    forall a :: a in early && Allowed(o, a) ==> exists b :: b in late && Allowed(o, b) && b.timestamp <= a.timestamp
  }

  predicate ClosedAlike(c1: Channel, c2: Channel) {
    && c1.state == c2.state
    && (c1.state.Closed? ==> c1.duration == c2.duration)
  }

  /** An opening cut short ends with the closing time of one that was answered completely, exactly when
      every allowed early closure is superseded. */
  lemma CutShortClosesAlikeExactly(id: string, pre: seq<Request>, o: Request, o': Request, post: seq<Request>)
    requires Opens(pre, o) && !History(pre, o) && !After(id, pre, o, post).crashed
    requires History(pre, o') && o' == o.(answered := o'.answered)
    ensures ClosedAlike(After(id, pre, o, post).channel, After(id, pre, o', post).channel)
            <==> Superseded(o, Closures(pre), Closures(post))
  {
    assert Tried(pre, o, post) == [] + Closures(post) == Closures(post);
    assert Tried(pre, o', post) == Closures(pre) + Closures(post);
    assert Opens(pre, o) && Opens(pre, o');
    hide After, Closures, Arrivals, ClosedAtEarliest, Superseded, ClosedAlike, Tried, Opens, History;
    FullyFedRunsGoOn(id, pre, o', post);
    ClosesAtEarliestAllowed(id, pre, o, post);
    ClosesAtEarliestAllowed(id, pre, o', post);
    OpeningsDecideAlike(o, o', Closures(post), After(id, pre, o, post).channel);
    AlikeIfSuperseded(o', Closures(pre), Closures(post), After(id, pre, o, post).channel, After(id, pre, o', post).channel);
    SupersededAlike(o, o', Closures(pre), Closures(post));
  }

  const EARLY := Action(OWNER, OWNER, 3)

  /** One early closure, one waiting operation that is not answered, and nothing after that: the channel stays
      open and the closure is kept for good, where an opening that is answered closes the channel. */
  lemma CutShortStaysOpen()
    ensures
      var pre := [CloseRequest(EARLY), BufferRequest(ExampleOperation(), true)];
      var cut, full := Run(Initial("c"), pre + [OpenAnswering(0)]).channel, Run(Initial("c"), pre + [OpenAnswering(1)]).channel;
      && cut.state.Open? && cut.attempts == [EARLY]
      && full.state.Closed? && full.duration.value.closedAt == 3
  {
    var pre := [CloseRequest(EARLY), BufferRequest(ExampleOperation(), true)];
    ClosureAndOperationWait(pre);
    RunOneMore(Initial("c"), pre, OpenAnswering(0));
    RunOneMore(Initial("c"), pre, OpenAnswering(1));
    OpeningAppliesOrNot(Run(Initial("c"), pre));
    hide Run, Step;
  }

  lemma ClosureAndOperationWait(pre: seq<Request>)
    requires pre == [CloseRequest(EARLY), BufferRequest(ExampleOperation(), true)]
    ensures
      var s := Run(Initial("c"), pre);
      !s.crashed && s.channel == Empty("c").(attempts := [EARLY]) && |s.buffer| == 1 && s.listeners.None?
  {
    assert pre[..1] == [pre[0]] && [pre[0]][..0] == [];
    assert Run(Initial("c"), [pre[0]]) == Step(Initial("c"), pre[0]).0;
    assert Run(Initial("c"), pre) == Step(Run(Initial("c"), pre[..1]), pre[1]).0;
  }

  lemma RunOneMore(s: System, rqs: seq<Request>, rq: Request)
    requires Consistent(s)
    ensures Run(s, rqs + [rq]) == Step(Run(s, rqs), rq).0
  {
    assert (rqs + [rq])[..|rqs|] == rqs;
  }

  lemma OpeningAppliesOrNot(s: System)
    requires Consistent(s) && !s.crashed && s.channel == Empty("c").(attempts := [EARLY]) && |s.buffer| == 1 && s.listeners.None?
    ensures
      var cut, full := Step(s, OpenAnswering(0)).0.channel, Step(s, OpenAnswering(1)).0.channel;
      && cut.state.Open? && cut.attempts == [EARLY]
      && full.state.Closed? && full.duration.value.closedAt == 3
  {
    assert |EXAMPLE_PERMISSIONS| == 1;
    assert Arranged([EARLY], []) == [EARLY] by {
      assert multiset(Arranged([EARLY], [])) == multiset{EARLY};
      OnlyOne(Arranged([EARLY], []), EARLY);
    }
    assert Admissible(Action(OWNER, OWNER, 1), EXAMPLE_PERMISSIONS, EARLY);
  }

  lemma OnlyOne(order: seq<Action>, a: Action)
    requires multiset(order) == multiset{a}
    ensures order == [a]
  {
    assert |order| == |multiset(order)| == 1;
    assert order[0] in multiset(order);
  }

  lemma OpeningsDecideAlike(o: Request, o': Request, closures: seq<Action>, c: Channel)
    requires o.OpenRequest? && o'.OpenRequest? && o' == o.(answered := o'.answered) && ClosedAtEarliest(o, closures, c)
    ensures ClosedAtEarliest(o', closures, c)
  {
    assert forall a :: Allowed(o, a) <==> Allowed(o', a);
  }

  lemma SupersededAlike(o: Request, o': Request, early: seq<Action>, late: seq<Action>)
    requires o.OpenRequest? && o'.OpenRequest? && o' == o.(answered := o'.answered)
    ensures Superseded(o, early, late) <==> Superseded(o', early, late)
  {
    assert forall a :: Allowed(o, a) <==> Allowed(o', a);
  }

  lemma AlikeIfSuperseded(o: Request, early: seq<Action>, late: seq<Action>, c: Channel, c': Channel)
    requires o.OpenRequest? && ClosedAtEarliest(o, late, c) && ClosedAtEarliest(o, early + late, c')
    ensures ClosedAlike(c, c') <==> Superseded(o, early, late)
  {
    if Superseded(o, early, late) {
      if c'.state.Closed? && c'.closure.value in early {
        var b :| b in late && Allowed(o, b) && b.timestamp <= c'.closure.value.timestamp;
        assert b in early + late;
      }
      assert forall a :: a in late ==> a in early + late;
    } else {
      var a :| a in early && Allowed(o, a) && forall b :: b in late && Allowed(o, b) ==> b.timestamp > a.timestamp;
      assert a in early + late;
    }
  }

  // ---------------------------------------------------------------- ties

  predicate SameRank(a: Action, b: Action) {
    a.timestamp == b.timestamp && a.issuerId == b.issuerId
  }

  predicate Best(o: Request, all: seq<Action>, b: Action)
    requires o.OpenRequest?
  {
    && b in all && Allowed(o, b)
    && forall a :: a in all && Allowed(o, a) ==> !Outranks(a, b)
  }

  /** No early closure ties with the best one under another issuer, or a late one settles it. */
  predicate Settled(o: Request, early: seq<Action>, late: seq<Action>, b: Action)
    requires o.OpenRequest?
  {
    || (exists a :: a in late && Allowed(o, a) && SameRank(a, b))
    || (forall a :: a in early && Allowed(o, a) && a.timestamp == b.timestamp ==> a.issuerId == b.issuerId)
  }

  predicate Wins(o: Request, order: seq<Action>, late: seq<Action>, b: Action)
    requires o.OpenRequest?
  {
    var w := Winner(o, order, late);
    w.Some? && SameRank(w.value, b)
  }

  lemma RankIsTotal(a: Action, b: Action)
    requires !Outranks(a, b) && !Outranks(b, a)
    ensures SameRank(a, b)
  {
    PrecedesIsTotal(a.issuerId, b.issuerId);
  }

  lemma SettledBestWins(o: Request, order: seq<Action>, early: seq<Action>, late: seq<Action>, b: Action)
    requires o.OpenRequest? && Arranges(order, early) && Best(o, early + late, b) && Settled(o, early, late, b)
    ensures Wins(o, order, late, b)
  {
    EarlyIsEarliest(o, order, early);
    var w := Early(o, order);
    LaterIsUnbeaten(o, w, late);
    var x := Winner(o, order, late);
    assert b in early || b in late;
    assert x.value in early + late && !Outranks(x.value, b);
    if a :| a in late && Allowed(o, a) && SameRank(a, b) {
      assert !Outranks(a, x.value);
      RankIsTotal(x.value, b);
    } else {
      assert b in early by {
        if b in late { assert SameRank(b, b); }
      }
      assert w.value in early + late && !Outranks(w.value, b);
      assert SameRank(w.value, b);
      RankIsTotal(x.value, b);
    }
  }

  /** The best closure by time and issuer wins whatever the sort does with ties, exactly when no early
      closure ties with it under another issuer or a late one settles it. */
  lemma BestWinsExactlyWhenSettled(o: Request, early: seq<Action>, late: seq<Action>, b: Action)
    requires o.OpenRequest? && Best(o, early + late, b)
    ensures (forall order | Arranges(order, early) :: Wins(o, order, late, b)) <==> Settled(o, early, late, b)
  {
    if Settled(o, early, late, b) {
      forall order | Arranges(order, early) ensures Wins(o, order, late, b) {
        SettledBestWins(o, order, early, late, b);
      }
    } else {
      var p :| p in early && Allowed(o, p) && p.timestamp == b.timestamp && p.issuerId != b.issuerId;
      forall a | a in early && Allowed(o, a) ensures p.timestamp <= a.timestamp {
        assert a in early + late;
      }
      var order := EarliestFirst(o, early, p);
      LaterIsUnbeaten(o, Some(p), late);
      assert !Wins(o, order, late, b);
    }
  }

  lemma {:induction false} InsertedComesFirst(o: Request, p: Action, rest: seq<Action>)
    requires o.OpenRequest? && Allowed(o, p)
    requires forall a :: a in rest && a.timestamp < p.timestamp ==> !Allowed(o, a)
    ensures Early(o, Inserted(p, rest)) == Some(p)
  {
    if rest != [] && rest[0].timestamp < p.timestamp {
      InsertedComesFirst(o, p, rest[1..]);
      assert Inserted(p, rest)[1..] == Inserted(p, rest[1..]);
    }
  }

  /** Distinct times settle every tie. */
  lemma DistinctTimesSettle(o: Request, early: seq<Action>, late: seq<Action>, b: Action)
    requires o.OpenRequest? && Best(o, early + late, b)
    requires forall a :: a in early + late && Allowed(o, a) && a.timestamp == b.timestamp ==> a == b
    ensures Settled(o, early, late, b)
  {
    forall a | a in early && Allowed(o, a) && a.timestamp == b.timestamp ensures a.issuerId == b.issuerId {
      assert a in early + late;
    }
  }

  function Tied(issuer: string): Action {
    Action(issuer, OWNER, 5)
  }

  function OpenSorting(order: seq<Action>): Request {
    OpenRequest(Action(OWNER, OWNER, 1), EXAMPLE_PERMISSIONS, "key", 0, order)
  }

  lemma TiedClosureStays(order: seq<Action>)
    requires Arranges(order, [Tied("a"), Tied("b")])
    ensures order != []
    ensures After("c", [CloseRequest(Tied("a")), CloseRequest(Tied("b"))], OpenSorting(order), []).channel.closure == Some(order[0])
  {
    TiedRequests();
    assert |EXAMPLE_PERMISSIONS| == 1;
    FullyFedRunsGoOn("c", [CloseRequest(Tied("a")), CloseRequest(Tied("b"))], OpenSorting(order), []);
    HistoryReaches("c", [CloseRequest(Tied("a")), CloseRequest(Tied("b"))], OpenSorting(order), []);
    TiedFirstIsEarly(order);
  }

  lemma TiedRequests()
    ensures
      var pre := [CloseRequest(Tied("a")), CloseRequest(Tied("b"))];
      Closures(pre) == [Tied("a"), Tied("b")] && Arrivals(pre) == []
  {
    var pre := [CloseRequest(Tied("a")), CloseRequest(Tied("b"))];
    assert pre[..1] == [CloseRequest(Tied("a"))];
    assert Closures(pre[..1]) == [Tied("a")] && Arrivals(pre[..1]) == [];
  }

  lemma TiedFirstIsEarly(order: seq<Action>)
    requires Arranges(order, [Tied("a"), Tied("b")])
    ensures order != [] && Early(OpenSorting([]), order) == Some(order[0])
  {
    assert |order| == |multiset(order)| == |multiset([Tied("a"), Tied("b")])| == 2;
    assert order[0] in multiset(order);
    assert order[0] in [Tied("a"), Tied("b")];
  }

  /** Two early closures at the same time: which one stays depends on the sort alone. */
  lemma TiedEarlyClosuresDiverge()
    ensures
      var x, y := Tied("a"), Tied("b");
      var pre := [CloseRequest(x), CloseRequest(y)];
      && After("c", pre, OpenSorting([x, y]), []).channel.closure == Some(x)
      && After("c", pre, OpenSorting([y, x]), []).channel.closure == Some(y)
  {
    TiedClosureStays([Tied("a"), Tied("b")]);
    TiedClosureStays([Tied("b"), Tied("a")]);
  }

  // ---------------------------------------------------------------- convergence

  /** Two openings by the same action with the same permissions. */
  predicate SameOpening(o1: Request, o2: Request) {
    && o1.OpenRequest? && o2.OpenRequest?
    && o1.opening == o2.opening && o1.permissions == o2.permissions
  }

  predicate AtClosing(c: Channel, t: Time) {
    c.state.Closed? && c.duration.Some? && t == c.duration.value.closedAt
  }

  /** Two channels agree on the state, the opening and closing times, and on how often every timestamp is
      stored, but for one that is exactly the closing time. */
  ghost predicate SameOutcome(c1: Channel, c2: Channel) {
    && ClosedAlike(c1, c2)
    && forall t :: !AtClosing(c1, t) ==> multiset(c1.messages)[t] == multiset(c2.messages)[t]
  }

  lemma SameClosures(o1: Request, all1: seq<Action>, o2: Request, all2: seq<Action>)
    requires SameOpening(o1, o2) && multiset(all1) == multiset(all2)
    ensures forall a :: a in all1 <==> a in all2
    ensures forall a :: Allowed(o1, a) <==> Allowed(o2, a)
    ensures forall b :: Best(o1, all1, b) <==> Best(o2, all2, b)
  {
    forall a ensures a in all1 <==> a in all2 {
      assert a in all1 <==> a in multiset(all1);
      assert a in all2 <==> a in multiset(all2);
    }
  }

  /** Two runs with the same opening and the same closures tried, in any order. */
  predicate HandledAlike(id: string, pre1: seq<Request>, o1: Request, post1: seq<Request>,
                         pre2: seq<Request>, o2: Request, post2: seq<Request>)
  {
    && GoesOn(id, pre1, o1, post1) && GoesOn(id, pre2, o2, post2) && SameOpening(o1, o2)
    && multiset(Tried(pre1, o1, post1)) == multiset(Tried(pre2, o2, post2))
  }

  predicate GoesOn(id: string, pre: seq<Request>, o: Request, post: seq<Request>) {
    Opens(pre, o) && !After(id, pre, o, post).crashed
  }

  /** Two replicas given the same opening, the same closures in any order around it, and the same
      messages in any order after it agree on the state, the closing time, and every stored message not
      stamped exactly at the closing time. */
  lemma ReplicasConverge(id: string, pre1: seq<Request>, o1: Request, post1: seq<Request>,
                         pre2: seq<Request>, o2: Request, post2: seq<Request>)
    requires HandledAlike(id, pre1, o1, post1, pre2, o2, post2)
    requires multiset(Stamps(o1, post1)) == multiset(Stamps(o2, post2))
    ensures SameOutcome(After(id, pre1, o1, post1).channel, After(id, pre2, o2, post2).channel)
  {
    ReplicasCloseAlike(id, pre1, o1, post1, pre2, o2, post2);
    HistoryReaches(id, pre1, o1, post1);
    HistoryReaches(id, pre2, o2, post2);
    MessagesAgree(
      After(id, pre1, o1, post1).channel, o1, Standing(pre1, o1, post1), Stamps(o1, post1),
      After(id, pre2, o2, post2).channel, o2, Standing(pre2, o2, post2), Stamps(o2, post2));
  }

  lemma ReplicasCloseAlike(id: string, pre1: seq<Request>, o1: Request, post1: seq<Request>,
                           pre2: seq<Request>, o2: Request, post2: seq<Request>)
    requires HandledAlike(id, pre1, o1, post1, pre2, o2, post2)
    ensures ClosedAlike(After(id, pre1, o1, post1).channel, After(id, pre2, o2, post2).channel)
  {
    SameClosures(o1, Tried(pre1, o1, post1), o2, Tried(pre2, o2, post2));
    ClosesAtEarliestAllowed(id, pre1, o1, post1);
    ClosesAtEarliestAllowed(id, pre2, o2, post2);
    hide After, Tried, Opens;
  }

  lemma MessagesAgree(c1: Channel, o1: Request, w1: Option<Action>, stamps1: seq<Time>,
                      c2: Channel, o2: Request, w2: Option<Action>, stamps2: seq<Time>)
    requires SameOpening(o1, o2) && multiset(stamps1) == multiset(stamps2)
    requires Reached(c1, o1, w1, stamps1) && Reached(c2, o2, w2, stamps2) && ClosedAlike(c1, c2)
    ensures SameOutcome(c1, c2)
  {
    forall t | !AtClosing(c1, t) ensures multiset(c1.messages)[t] == multiset(c2.messages)[t] {
      assert Agrees(c1, stamps1, t) && Agrees(c2, stamps2, t);
    }
  }

  /** A time at which an open channel, or one that closes with these closures, keeps what it stores. */
  predicate BeforeClosing(o: Request, closures: seq<Action>, t: Time)
    requires o.OpenRequest?
  {
    forall a :: a in closures && Allowed(o, a) ==> t < a.timestamp
  }

  /** Messages handled before the opening are dropped; two runs lost the same ones if they handled equally
      many allowed messages too early for every time before the closing. */
  ghost predicate LostAlike(o1: Request, pre1: seq<Request>, o2: Request, pre2: seq<Request>, closures: seq<Action>)
    requires o1.OpenRequest? && o2.OpenRequest?
  {
    forall t :: BeforeClosing(o1, closures, t) ==> multiset(Stamps(o1, pre1))[t] == multiset(Stamps(o2, pre2))[t]
  }

  /** With the same messages anywhere around the opening replicas agree as above, exactly when they lost
      the same ones. */
  lemma ReplicasConvergeExactly(id: string, pre1: seq<Request>, o1: Request, post1: seq<Request>,
                                pre2: seq<Request>, o2: Request, post2: seq<Request>)
    requires HandledAlike(id, pre1, o1, post1, pre2, o2, post2)
    requires multiset(Stamps(o1, pre1) + Stamps(o1, post1)) == multiset(Stamps(o2, pre2) + Stamps(o2, post2))
    ensures SameOutcome(After(id, pre1, o1, post1).channel, After(id, pre2, o2, post2).channel)
            <==> LostAlike(o1, pre1, o2, pre2, Tried(pre1, o1, post1))
  {
    ReplicasCloseAlike(id, pre1, o1, post1, pre2, o2, post2);
    ClosesAtEarliestAllowed(id, pre1, o1, post1);
    HistoryReaches(id, pre1, o1, post1);
    HistoryReaches(id, pre2, o2, post2);
    hide After, Opens, Stamps, Tried, Standing;
    AgreeExactly(
      After(id, pre1, o1, post1).channel, o1, Standing(pre1, o1, post1), Stamps(o1, pre1), Stamps(o1, post1),
      After(id, pre2, o2, post2).channel, o2, Standing(pre2, o2, post2), Stamps(o2, pre2), Stamps(o2, post2),
      Tried(pre1, o1, post1));
  }

  lemma AgreeExactly(c1: Channel, o1: Request, w1: Option<Action>, lost1: seq<Time>, stamps1: seq<Time>,
                     c2: Channel, o2: Request, w2: Option<Action>, lost2: seq<Time>, stamps2: seq<Time>,
                     closures: seq<Action>)
    requires o1.OpenRequest? && o2.OpenRequest? && multiset(lost1 + stamps1) == multiset(lost2 + stamps2)
    requires Reached(c1, o1, w1, stamps1) && Reached(c2, o2, w2, stamps2) && ClosedAlike(c1, c2)
    requires ClosedAtEarliest(o1, closures, c1)
    ensures SameOutcome(c1, c2)
            <==> forall t :: BeforeClosing(o1, closures, t) ==> multiset(lost1)[t] == multiset(lost2)[t]
  {
    forall t
      ensures multiset(lost1)[t] + multiset(stamps1)[t] == multiset(lost2)[t] + multiset(stamps2)[t]
      ensures Agrees(c1, stamps1, t) && Agrees(c2, stamps2, t)
      ensures BeforeClosing(o1, closures, t) <==> (c1.state.Closed? ==> t < c1.duration.value.closedAt)
    {
      assert multiset(lost1 + stamps1)[t] == multiset(lost2 + stamps2)[t];
    }
    if SameOutcome(c1, c2) {
      forall t | BeforeClosing(o1, closures, t) ensures multiset(lost1)[t] == multiset(lost2)[t] {
        assert !AtClosing(c1, t);
      }
    }
    if forall t :: BeforeClosing(o1, closures, t) ==> multiset(lost1)[t] == multiset(lost2)[t] {
      forall t | !AtClosing(c1, t) ensures multiset(c1.messages)[t] == multiset(c2.messages)[t] {
        assert BeforeClosing(o1, closures, t) ==> multiset(lost1)[t] == multiset(lost2)[t];
        assert Agrees(c1, stamps1, t) && Agrees(c2, stamps2, t);
      }
    }
  }

  /** They also agree on who closed the channel and when, if both settle ties. */
  lemma ReplicasAgreeOnClosure(id: string, pre1: seq<Request>, o1: Request, post1: seq<Request>,
                               pre2: seq<Request>, o2: Request, post2: seq<Request>, b: Action)
    requires HandledAlike(id, pre1, o1, post1, pre2, o2, post2)
    requires Best(o1, Tried(pre1, o1, post1), b)
    requires Settled(o1, EarlyClosures(pre1, o1), Closures(post1), b) && Settled(o2, EarlyClosures(pre2, o2), Closures(post2), b)
    ensures
      var c1, c2 := After(id, pre1, o1, post1).channel, After(id, pre2, o2, post2).channel;
      && c1.closure.Some? && c2.closure.Some?
      && SameRank(c1.closure.value, b) && SameRank(c2.closure.value, b)
  {
    SameClosures(o1, Tried(pre1, o1, post1), o2, Tried(pre2, o2, post2));
    SettledBestWins(o1, Arranged(EarlyClosures(pre1, o1), o1.order), EarlyClosures(pre1, o1), Closures(post1), b);
    SettledBestWins(o2, Arranged(EarlyClosures(pre2, o2), o2.order), EarlyClosures(pre2, o2), Closures(post2), b);
    HistoryReaches(id, pre1, o1, post1);
    HistoryReaches(id, pre2, o2, post2);
  }

  /** Replicas agree on the time and issuer of the closure in force wherever the closures stand and
      whatever the sort does, exactly when all earliest allowed closures have one issuer. */
  lemma ClosersConvergeExactly(id: string, pre: seq<Request>, o: Request, post: seq<Request>)
    requires History(pre, o)
    ensures
      (forall pre2, o2, post2 | Reordered(pre, o, post, pre2, o2, post2) :: SameCloser(id, pre, o, post, pre2, o2, post2))
      <==> OneIssuer(o, Closures(pre) + Closures(post))
  {
    if OneIssuer(o, Closures(pre) + Closures(post)) {
      forall pre2, o2, post2 | Reordered(pre, o, post, pre2, o2, post2)
        ensures SameCloser(id, pre, o, post, pre2, o2, post2)
      {
        OneIssuerAgrees(id, pre, o, post, pre2, o2, post2);
      }
    } else {
      var a, b :| a in Closures(pre) + Closures(post) && b in Closures(pre) + Closures(post)
                  && Earliest(o, Closures(pre) + Closures(post), a) && Earliest(o, Closures(pre) + Closures(post), b)
                  && a.issuerId != b.issuerId;
      var early := ClosesOf(pre + post);
      var x := TiedCloses(id, pre, o, post, a);
      var y := TiedCloses(id, pre, o, post, b);
      assert !SameCloser(id, pre, o, post, early, x, []) || !SameCloser(id, pre, o, post, early, y, []);
    }
  }

  /** A run with the same opening and, anywhere around it, the same closures. */
  predicate Reordered(pre: seq<Request>, o: Request, post: seq<Request>,
                      pre2: seq<Request>, o2: Request, post2: seq<Request>) {
    && History(pre, o) && History(pre2, o2) && SameOpening(o, o2)
    && multiset(Closures(pre) + Closures(post)) == multiset(Closures(pre2) + Closures(post2))
  }

  predicate SameCloser(id: string, pre: seq<Request>, o: Request, post: seq<Request>,
                       pre2: seq<Request>, o2: Request, post2: seq<Request>) {
    var c1, c2 := After(id, pre, o, post).channel, After(id, pre2, o2, post2).channel;
    && (c1.closure.Some? <==> c2.closure.Some?)
    && (c1.closure.Some? && c2.closure.Some? ==> SameRank(c1.closure.value, c2.closure.value))
  }

  predicate OneIssuer(o: Request, closures: seq<Action>)
    requires o.OpenRequest?
  {
    forall a, b :: a in closures && b in closures && Earliest(o, closures, a) && Earliest(o, closures, b) ==> a.issuerId == b.issuerId
  }

  lemma OneIssuerAgrees(id: string, pre: seq<Request>, o: Request, post: seq<Request>,
                        pre2: seq<Request>, o2: Request, post2: seq<Request>)
    requires Reordered(pre, o, post, pre2, o2, post2) && OneIssuer(o, Closures(pre) + Closures(post))
    ensures SameCloser(id, pre, o, post, pre2, o2, post2)
  {
    ClosesFullyFed(id, pre, o, post);
    ClosesFullyFed(id, pre2, o2, post2);
    hide After, Closures, History;
    SameClosures(o, Closures(pre) + Closures(post), o2, Closures(pre2) + Closures(post2));
  }

  lemma ClosesFullyFed(id: string, pre: seq<Request>, o: Request, post: seq<Request>)
    requires History(pre, o)
    ensures ClosedAtEarliest(o, Closures(pre) + Closures(post), After(id, pre, o, post).channel)
    ensures After(id, pre, o, post).channel.state.Open? ==> After(id, pre, o, post).channel.closure.None?
  {
    FullyFedRunsGoOn(id, pre, o, post);
    ClosesAtEarliestAllowed(id, pre, o, post);
    HistoryReaches(id, pre, o, post);
    assert Tried(pre, o, post) == Closures(pre) + Closures(post);
  }

  /** All closures come early, and the sort puts a chosen earliest one first. */
  lemma TiedCloses(id: string, pre: seq<Request>, o: Request, post: seq<Request>, p: Action) returns (o2: Request)
    requires History(pre, o) && Earliest(o, Closures(pre) + Closures(post), p)
    ensures Reordered(pre, o, post, ClosesOf(pre + post), o2, [])
    ensures After(id, ClosesOf(pre + post), o2, []).channel.closure == Some(p)
  {
    hide Closures, Run, Arrivals, NoOpening, ClosesOf, After;
    ClosesOfKeepsClosures(o, pre + post);
    ClosuresAdd(pre, post);
    var order := EarliestFirst(o, Closures(ClosesOf(pre + post)), p);
    o2 := o.(order := order);
    ClosesReorder(pre, o, post, o2);
    FirstIsStanding(id, ClosesOf(pre + post), o2, p);
  }

  lemma ClosesReorder(pre: seq<Request>, o: Request, post: seq<Request>, o2: Request)
    requires History(pre, o) && o2.OpenRequest? && o2 == o.(order := o2.order)
    ensures Reordered(pre, o, post, ClosesOf(pre + post), o2, [])
  {
    ClosesOfKeepsClosures(o, pre + post);
    ClosuresAdd(pre, post);
    ClosesArrive(pre + post);
    assert Closures([]) == [];
  }

  lemma FirstIsStanding(id: string, early: seq<Request>, o: Request, p: Action)
    requires History(early, o) && Arranges(o.order, Closures(early)) && Early(o, o.order) == Some(p)
    ensures After(id, early, o, []).channel.closure == Some(p)
  {
    FullyFedRunsGoOn(id, early, o, []);
    HistoryReaches(id, early, o, []);
    assert Standing(early, o, []) == Some(p);
  }

  /** Some order a sort by time can leave has a given earliest allowed closure first among the allowed. */
  lemma EarliestFirst(o: Request, early: seq<Action>, p: Action) returns (order: seq<Action>)
    requires o.OpenRequest? && Earliest(o, early, p)
    ensures Arranges(order, early) && Early(o, order) == Some(p)
  {
    var i :| 0 <= i < |early| && early[i] == p;
    var others := early[..i] + early[i + 1..];
    assert early == early[..i] + [p] + early[i + 1..];
    var rest := TimeSorted(others);
    InsertedSorts(p, rest);
    order := Inserted(p, rest);
    forall a | a in rest && a.timestamp < p.timestamp ensures !Allowed(o, a) {
      assert a in multiset(rest);
      assert a in others;
    }
    InsertedComesFirst(o, p, rest);
  }

  /** A message stamped exactly at the closing time stays or goes with the order of arrival. */
  lemma BoundaryMessagesDiverge()
    ensures
      var close, post := CloseRequest(Action(OWNER, OWNER, 5)), Post(5);
      && After("c", [], OpenAnswering(0), [close, post]).channel.messages == [5]
      && After("c", [], OpenAnswering(0), [post, close]).channel.messages == []
  {
    var close, post := CloseRequest(Action(OWNER, OWNER, 5)), Post(5);
    OpensAtOnce();
    var s := Run(Initial("c"), [] + [OpenAnswering(0)]);
    hide Run, Step;
    RunTwo(s, close, post);
    RunTwo(s, post, close);
    ClosesThenPosts(s);
    PostsThenCloses(s);
  }

  predicate JustOpened(s: System) {
    && Consistent(s) && s.channel.state.Open? && s.channel.messages == [] && !s.crashed && s.listeners.Some?
    && s.channel.permissions == Some(EXAMPLE_PERMISSIONS) && s.channel.opening == Some(Action(OWNER, OWNER, 1))
  }

  lemma ClosesThenPosts(s: System)
    requires JustOpened(s)
    ensures Step(Step(s, CloseRequest(Action(OWNER, OWNER, 5))).0, Post(5)).0.channel.messages == [5]
  {
    assert Before([], 5) == [];
  }

  lemma PostsThenCloses(s: System)
    requires JustOpened(s)
    ensures Step(Step(s, Post(5)).0, CloseRequest(Action(OWNER, OWNER, 5))).0.channel.messages == []
  {
    assert Step(s, Post(5)).0.channel.messages == [5];
    assert Before([5], 5) == [];
  }

  lemma OpensAtOnce()
    ensures JustOpened(Run(Initial("c"), [] + [OpenAnswering(0)]))
  {
    assert |EXAMPLE_PERMISSIONS| == 1;
    assert [] + [OpenAnswering(0)] == [OpenAnswering(0)];
    assert Run(Initial("c"), [OpenAnswering(0)]) == Step(Initial("c"), OpenAnswering(0)).0;
  }

  /** Two closures at the same time after the opening: in both orders of arrival the lesser issuer stays. */
  lemma TiedLateClosuresAgree()
    ensures
      var x, y := CloseRequest(Action("a", OWNER, 5)), CloseRequest(Action("b", OWNER, 5));
      && After("c", [], OpenAnswering(0), [x, y]).channel.closure == Some(x.closure)
      && After("c", [], OpenAnswering(0), [y, x]).channel.closure == Some(x.closure)
  {
    var x, y := CloseRequest(Action("a", OWNER, 5)), CloseRequest(Action("b", OWNER, 5));
    OpensAtOnce();
    hide Run, Step;
    var s := Run(Initial("c"), [] + [OpenAnswering(0)]);
    LesserIssuerStays(s);
    RunTwo(s, x, y);
    RunTwo(s, y, x);
  }

  lemma RunTwo(s: System, a: Request, b: Request)
    requires Consistent(s)
    ensures Run(s, [a, b]) == Step(Step(s, a).0, b).0
  {
    assert [a, b][..1] == [a] && [a][..0] == [];
    assert Run(s, [a]) == Step(s, a).0;
  }

  lemma LesserIssuerStays(s: System)
    requires JustOpened(s)
    ensures
      var x, y := CloseRequest(Action("a", OWNER, 5)), CloseRequest(Action("b", OWNER, 5));
      && Step(Step(s, x).0, y).0.channel.closure == Some(x.closure)
      && Step(Step(s, y).0, x).0.channel.closure == Some(x.closure)
  {
    assert Precedes("a", "b") && !Precedes("b", "a");
  }
}
