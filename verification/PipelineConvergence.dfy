/** Operations get through once a channel is open, and nodes that saw the same ones end up alike. */
module PipelineConvergence {
  import opened Common
  import opened ChannelRecord
  import opened Operations
  import opened ChannelServer
  import opened ChannelRuns
  import opened ChannelConvergence
  import opened MessageCounts
  import opened Pipeline
  import opened PipelineLosses

  // ---------------------------------------------------------------- everything comes to rest

  /** An open channel whose listeners record exists, so that publishing does not end the program. */
  predicate Going(w: World) {
    IsOpened(w) && !w.system.crashed && w.system.listeners.Some?
  }

  /** How many steps the operations on their way can still cause. */
  function Pending(w: World): nat {
    Due(w.atDecryptor) + Turns(w.atExecutor)
  }

  function Due(ops: seq<Operation>): nat {
    if ops == [] then 0 else Due(ops[..|ops| - 1]) + (if ops[|ops| - 1].buffered then 2 else 4)
  }

  function Turns(xs: seq<Waiting>): nat {
    if xs == [] then 0 else Turns(xs[..|xs| - 1]) + (if xs[|xs| - 1].ToBuffer? then 3 else 1)
  }

  lemma {:induction false} DueAdd(a: seq<Operation>, b: seq<Operation>)
    ensures Due(a + b) == Due(a) + Due(b)
  {
    if b == [] {
      assert a + b == a;
    } else {
      assert (a + b)[..|a + b| - 1] == a + b[..|b| - 1];
      DueAdd(a, b[..|b| - 1]);
    }
  }

  lemma DueOfFew(op: Operation)
    ensures Due([]) == 0 && Due([op]) == if op.buffered then 2 else 4
  {
    assert [op][..0] == [];
  }

  lemma DueWithout(ops: seq<Operation>, i: nat)
    requires i < |ops|
    ensures Due(ops) == Due(Without(ops, i)) + if ops[i].buffered then 2 else 4
  {
    hide Due;
    var a, x, b := ops[..i], [ops[i]], ops[i + 1..];
    assert ops == a + x + b;
    DueAdd(a + x, b);
    DueAdd(a, x);
    DueOfFew(ops[i]);
    DueAdd(a, b);
  }

  lemma {:induction false} TurnsAdd(a: seq<Waiting>, b: seq<Waiting>)
    ensures Turns(a + b) == Turns(a) + Turns(b)
  {
    if b == [] {
      assert a + b == a;
    } else {
      assert (a + b)[..|a + b| - 1] == a + b[..|b| - 1];
      TurnsAdd(a, b[..|b| - 1]);
    }
  }

  lemma TurnsOfOne(x: Waiting)
    ensures Turns([x]) == if x.ToBuffer? then 3 else 1
  {
    assert [x][..0] == [];
  }

  lemma TurnsWithout(xs: seq<Waiting>, i: nat)
    requires i < |xs|
    ensures Turns(xs) == Turns(Without(xs, i)) + if xs[i].ToBuffer? then 3 else 1
  {
    hide Turns;
    var a, x, b := xs[..i], [xs[i]], xs[i + 1..];
    assert xs == a + x + b;
    TurnsAdd(a + x, b);
    TurnsAdd(a, x);
    TurnsOfOne(xs[i]);
    TurnsAdd(a, b);
  }

  predicate IsInternal(m: Move) {
    m.Decrypt? || m.Execute?
  }

  /** Once the channel is open every step of an operation on its way lowers the steps that are left,
      whatever its result. */
  lemma InternalMovesDescend(w: World, m: Move)
    requires Consistent(w.system) && Going(w) && IsInternal(m) && Enabled(w, m)
    ensures Pending(Moved(w, m)) < Pending(w) && Going(Moved(w, m)) && Moved(w, m).arrived == w.arrived
  {
    match m {
      case Decrypt(i, decrypts, verifies, accepted) => DecryptDescends(w, i, decrypts, verifies, accepted);
      case Execute(j, taken) => ExecuteDescends(w, j, taken);
      case _ =>
    }
  }

  lemma DecryptDescends(w: World, i: nat, decrypts: bool, verifies: bool, accepted: bool)
    requires i < |w.atDecryptor|
    ensures Pending(Decrypted(w, i, decrypts, verifies, accepted)) < Pending(w)
  {
    hide Due, Turns, Without;
    var op := w.atDecryptor[i];
    DueWithout(w.atDecryptor, i);
    var x := Decrypted(w, i, decrypts, verifies, accepted).atExecutor;
    if x != w.atExecutor {
      var last := x[|x| - 1];
      assert x == w.atExecutor + [last] && (op.buffered ==> !last.ToBuffer?);
      TurnsAdd(w.atExecutor, [last]);
      TurnsOfOne(last);
    }
  }

  lemma ExecuteDescends(w: World, j: nat, taken: bool)
    requires Consistent(w.system) && Going(w) && j < |w.atExecutor|
    ensures
      var r := Executed(w, j, taken);
      Pending(r) < Pending(w) && Going(r) && r.arrived == w.arrived
  {
    var x := w.atExecutor[j];
    TurnsWithout(w.atExecutor, j);
    if taken {
      OpenHandsBack(w.system, RequestFor(x));
      DueOfFew(Marked(x.op));
      hide Step, FedBy, UnfedBy, Turns, Due, Without;
      DueAdd(w.atDecryptor, Arrival(RequestFor(x)));
    }
  }

  lemma OpenHandsBack(s: System, rq: Request)
    requires Consistent(s) && !s.crashed && s.listeners.Some? && !s.channel.state.Buffered?
    ensures FedBy(s, rq) == Arrival(rq)
    ensures
      var s' := Step(s, rq).0;
      !s'.crashed && s'.listeners.Some? && !s'.channel.state.Buffered?
  {
    WhereTheyGo(s, rq);
    StepFeeds(s, rq);
    ListenedStepGoesOn(s, rq);
    hide Step;
  }

  /** Moves of operations on their way, each of which can happen. */
  predicate Internal(w: World, moves: seq<Move>)
    requires Consistent(w.system)
  {
    moves == []
    || var n := |moves| - 1;
       Internal(w, moves[..n]) && IsInternal(moves[n]) && Enabled(Moves(w, moves[..n]), moves[n])
  }

  predicate CanMove(w: World) {
    Enabled(w, Decrypt(0, true, true, true)) || Enabled(w, Execute(0, true))
  }

  /** Whatever order the operations on their way take their steps in, and whatever these result in, at
      most `Pending` of them happen, and while anything is on its way one can. */
  lemma {:induction false} InternalRunsAreBounded(w: World, moves: seq<Move>)
    requires Consistent(w.system) && Going(w) && Internal(w, moves)
    ensures
      var r := Moves(w, moves);
      |moves| + Pending(r) <= Pending(w) && Going(r) && r.arrived == w.arrived && (Quiet(r) || CanMove(r))
  {
    if moves != [] {
      var n := |moves| - 1;
      hide Pending, Moved, Enabled, Consistent;
      InternalRunsAreBounded(w, moves[..n]);
      InternalMovesDescend(Moves(w, moves[..n]), moves[n]);
      SomethingCanMove(Moves(w, moves));
    }
  }

  lemma SomethingCanMove(w: World)
    requires Going(w)
    ensures Quiet(w) || CanMove(w)
  {
  }

  lemma {:induction false} MovesSplit(w: World, a: seq<Move>, b: seq<Move>)
    requires Consistent(w.system)
    ensures Moves(w, a + b) == Moves(Moves(w, a), b)
    ensures NeverLoses(w, a + b) <==> NeverLoses(w, a) && NeverLoses(Moves(w, a), b)
  {
    hide Moved, Loses, Consistent;
    if b == [] {
      assert a + b == a;
      assert NeverLoses(Moves(w, a), b);
    } else {
      assert (a + b)[..|a + b| - 1] == a + b[..|b| - 1];
      MovesSplit(w, a, b[..|b| - 1]);
    }
  }

  lemma {:induction false} InternalPrepends(w: World, m: Move, rest: seq<Move>)
    requires Consistent(w.system) && IsInternal(m) && Enabled(w, m) && Internal(Moved(w, m), rest)
    ensures Internal(w, [m] + rest)
  {
    assert [m][..0] == [] && Moves(w, [m]) == Moved(w, m);
    if rest == [] {
      assert [m] + rest == [m];
    } else {
      var n := |rest| - 1;
      assert ([m] + rest)[..n + 1] == [m] + rest[..n];
      InternalPrepends(w, m, rest[..n]);
      MovesSplit(w, [m], rest[..n]);
    }
  }

  /** Steps that all go well lead to rest. */
  lemma {:induction false} Drains(w: World) returns (more: seq<Move>)
    requires Consistent(w.system) && Going(w)
    ensures Internal(w, more) && NeverLoses(w, more) && Quiet(Moves(w, more))
    decreases Pending(w)
  {
    if Quiet(w) {
      more := [];
    } else {
      var m := if Enabled(w, Decrypt(0, true, true, true)) then Decrypt(0, true, true, true) else Execute(0, true);
      assert !Loses(w, m);
      hide Pending, Moved, Enabled, Loses, Consistent;
      InternalMovesDescend(w, m);
      var rest := Drains(Moved(w, m));
      InternalPrepends(w, m, rest);
      OneMove(w, m);
      MovesSplit(w, [m], rest);
      more := [m] + rest;
    }
  }

  lemma OneMove(w: World, m: Move)
    requires Consistent(w.system)
    ensures Moves(w, [m]) == Moved(w, m) && (NeverLoses(w, [m]) <==> !Loses(w, m))
  {
    assert [m][..0] == [];
    assert NeverLoses(w, []) && Moves(w, []) == w;
  }

  /** From wherever an open channel has come, possible steps of the operations on their way lead to rest;
      then it was given after its opening exactly the messages that arrived, once each, if and only if no
      move so far was one of the losing kinds. */
  lemma EverythingGetsThrough(id: string, moves: seq<Move>) returns (more: seq<Move>)
    requires Going(Moves(Begin(id), moves))
    ensures
      var w := Moves(Begin(id), moves);
      && Internal(w, more) && Quiet(Moves(w, more))
      && (multiset(InTime(Moves(w, more).handled)) == Actions(w.arrived) <==> NeverLoses(Begin(id), moves))
  {
    var w := Moves(Begin(id), moves);
    hide Moves, Begin, Consistent, NeverLoses, Internal, Going;
    more := Drains(w);
    InternalRunsAreBounded(w, more);
    MovesSplit(Begin(id), moves, more);
    GoingIsOpened(Moves(w, more));
    MessagesGetThroughExactly(id, moves + more);
  }

  lemma GoingIsOpened(w: World)
    requires Going(w)
    ensures IsOpened(w)
  {
  }

  // ---------------------------------------------------------------- what is posted

  /** The timestamps an opening allows among some messages, in order. */
  function Posted(o: Request, messages: seq<Action>): seq<Time>
    requires o.OpenRequest?
  {
    if messages == [] then []
    else
      var n := |messages| - 1;
      Posted(o, messages[..n])
      + (if Postable(o.opening, o.permissions, messages[n]) then [messages[n].timestamp] else [])
  }

  lemma {:induction false} StampsArePosted(o: Request, rqs: seq<Request>)
    requires o.OpenRequest?
    ensures Stamps(o, rqs) == Posted(o, Messages(rqs))
  {
    if rqs != [] {
      var n := |rqs| - 1;
      StampsArePosted(o, rqs[..n]);
      if rqs[n].MessageRequest? {
        PostedAdds(o, Messages(rqs[..n]), [rqs[n].message]);
        PostedOne(o, rqs[n]);
      } else {
        assert Messages(rqs) == Messages(rqs[..n]);
      }
    }
  }

  lemma PostedOne(o: Request, rq: Request)
    requires o.OpenRequest? && rq.MessageRequest?
    ensures Posted(o, [rq.message]) == Stamp(o, rq)
  {
    assert [rq.message][..0] == [];
    assert Posted(o, []) == [];
  }

  lemma {:induction false} PostedAdds(o: Request, a: seq<Action>, b: seq<Action>)
    requires o.OpenRequest?
    ensures Posted(o, a + b) == Posted(o, a) + Posted(o, b)
  {
    if b == [] {
      assert a + b == a;
    } else {
      assert (a + b)[..|a + b| - 1] == a + b[..|b| - 1];
      PostedAdds(o, a, b[..|b| - 1]);
    }
  }

  lemma PostedWithout(o: Request, a: seq<Action>, i: nat)
    requires o.OpenRequest? && i < |a|
    ensures multiset(Posted(o, a)) == multiset(Posted(o, Without(a, i))) + multiset(Posted(o, [a[i]]))
  {
    hide Posted;
    var x, y, z := a[..i], [a[i]], a[i + 1..];
    assert a == x + y + z;
    PostedAdds(o, x + y, z);
    PostedAdds(o, x, y);
    PostedAdds(o, x, z);
  }

  /** What is posted depends on the messages and not on their order. */
  lemma {:induction false} PostedIgnoresOrder(o: Request, a: seq<Action>, b: seq<Action>)
    requires o.OpenRequest? && multiset(a) == multiset(b)
    ensures multiset(Posted(o, a)) == multiset(Posted(o, b))
  {
    if a == [] {
      EmptyIsOnlyItself(a, b);
    } else {
      var i := Found(b, a, 0);
      WithoutIsLess(a, 0);
      WithoutIsLess(b, i);
      PostedIgnoresOrder(o, Without(a, 0), Without(b, i));
      PostedWithout(o, a, 0);
      PostedWithout(o, b, i);
    }
  }

  lemma EmptyIsOnlyItself(a: seq<Action>, b: seq<Action>)
    requires a == [] && multiset(a) == multiset(b)
    ensures b == []
  {
    assert |multiset(b)| == |b|;
  }

  lemma Found(b: seq<Action>, a: seq<Action>, k: nat) returns (i: nat)
    requires k < |a| && multiset(a) == multiset(b)
    ensures i < |b| && b[i] == a[k]
  {
    assert a[k] in multiset(b);
    i :| i < |b| && b[i] == a[k];
  }

  lemma WithoutIsLess(a: seq<Action>, i: nat)
    requires i < |a|
    ensures multiset(Without(a, i)) == multiset(a) - multiset{a[i]} && |Without(a, i)| == |a| - 1
  {
    assert a == a[..i] + [a[i]] + a[i + 1..];
  }

  lemma {:induction false} PostedByOpening(o1: Request, o2: Request, a: seq<Action>)
    requires SameOpening(o1, o2)
    ensures Posted(o1, a) == Posted(o2, a)
  {
    if a != [] {
      PostedByOpening(o1, o2, a[..|a| - 1]);
    }
  }

  // ---------------------------------------------------------------- nodes converge

  lemma {:induction false} MessagesAdd(a: seq<Request>, b: seq<Request>)
    ensures Messages(a + b) == Messages(a) + Messages(b)
  {
    if b == [] {
      assert a + b == a;
    } else {
      assert (a + b)[..|a + b| - 1] == a + b[..|b| - 1];
      MessagesAdd(a, b[..|b| - 1]);
    }
  }

  lemma {:induction false} EarlyIsAll(pre: seq<Request>)
    requires NoOpening(pre)
    ensures TooEarly(pre) == Messages(pre)
  {
    if pre != [] {
      EarlyIsAll(pre[..|pre| - 1]);
    }
  }

  lemma {:induction false} EarlyStays(pre: seq<Request>, o: Request, post: seq<Request>)
    requires NoOpening(pre) && ValidOpening(o)
    ensures TooEarly(pre + [o] + post) == Messages(pre)
  {
    var all := pre + [o] + post;
    if post == [] {
      assert all == pre + [o] && all[..|all| - 1] == pre;
      EarlyIsAll(pre);
    } else {
      assert all[..|all| - 1] == pre + [o] + post[..|post| - 1];
      EarlyStays(pre, o, post[..|post| - 1]);
      assert all[..|all| - 1][|pre|] == o;
      assert o in all[..|all| - 1];
    }
  }

  /** The requests of a channel, split at its opening, if no opening was cut short. */
  predicate Split(id: string, w: World, pre: seq<Request>, o: Request, post: seq<Request>) {
    && History(pre, o) && w.handled == pre + [o] + post && w.system == After(id, pre, o, post)
    && w.system.channel.opening == Some(o.opening) && w.system.channel.permissions == Some(o.permissions)
    && TooEarly(w.handled) == Messages(pre) && Messages(w.handled) == Messages(pre) + Messages(post)
    && Closures(w.handled) == Closures(pre) + Closures(post)
  }

  lemma SplitsAtOpening(id: string, w: World) returns (pre: seq<Request>, o: Request, post: seq<Request>)
    requires w.system == Run(Initial(id), w.handled) && IsOpened(w) && Clean(Initial(id), w.handled)
    ensures Split(id, w, pre, o, post)
  {
    BufferedUntilOpening(id, w.handled);
    pre, o, post := HasFirstOpening(w.handled);
    hide Run, Messages, Closures, TooEarly, Clean, NoOpening;
    AnsweredIfClean(id, pre, o, post);
    AfterIsOneRun(id, pre, o, post);
    EarlyStays(pre, o, post);
    SplitAtOpening(pre, o, post);
    OpeningIsKept(id, pre, o, post);
  }

  lemma OpeningIsKept(id: string, pre: seq<Request>, o: Request, post: seq<Request>)
    requires History(pre, o)
    ensures
      var c := After(id, pre, o, post).channel;
      c.opening == Some(o.opening) && c.permissions == Some(o.permissions)
  {
    FullyFedRunsGoOn(id, pre, o, post);
    HistoryReaches(id, pre, o, post);
  }

  lemma {:induction false} CleanBefore(s: System, a: seq<Request>, b: seq<Request>)
    requires Consistent(s) && Clean(s, a + b)
    ensures Clean(s, a)
  {
    if b == [] {
      assert a + b == a;
    } else {
      assert (a + b)[..|a + b| - 1] == a + b[..|b| - 1];
      CleanBefore(s, a, b[..|b| - 1]);
    }
  }

  lemma AnsweredIfClean(id: string, pre: seq<Request>, o: Request, post: seq<Request>)
    requires NoOpening(pre) && ValidOpening(o) && Clean(Initial(id), pre + [o] + post)
    ensures History(pre, o)
  {
    CleanBefore(Initial(id), pre + [o], post);
    assert (pre + [o])[..|pre|] == pre;
    WaitsBeforeOpening(id, pre);
    assert !CutShort(Run(Initial(id), pre), o);
  }

  lemma SplitAtOpening(pre: seq<Request>, o: Request, post: seq<Request>)
    requires o.OpenRequest?
    ensures Messages(pre + [o] + post) == Messages(pre) + Messages(post)
    ensures Closures(pre + [o] + post) == Closures(pre) + Closures(post)
  {
    hide Messages, Closures;
    MessagesAdd(pre + [o], post);
    MessagesAdd(pre, [o]);
    ClosuresAdd(pre + [o], post);
    ClosuresAdd(pre, [o]);
    OpeningIsNoMessage(o);
  }

  lemma OpeningIsNoMessage(o: Request)
    requires o.OpenRequest?
    ensures Messages([o]) == [] && Closures([o]) == []
  {
    assert [o][..0] == [];
  }

  /** Two nodes at rest that were sent the same messages, lost the same ones on the way and handled the
      same closures, around the same opening, which was not cut short. */
  predicate SeenAlike(id: string, w1: World, w2: World) {
    && Quiet(w1) && Quiet(w2) && IsOpened(w1) && IsOpened(w2)
    && Clean(Initial(id), w1.handled) && Clean(Initial(id), w2.handled)
    && w1.system.channel.opening == w2.system.channel.opening
    && w1.system.channel.permissions == w2.system.channel.permissions
    && Actions(w1.arrived) == Actions(w2.arrived) && Actions(w1.lost) == Actions(w2.lost)
    && multiset(Closures(w1.handled)) == multiset(Closures(w2.handled))
  }

  /** For every time before the closing equally many allowed messages came too early. */
  ghost predicate EarlyAlike(w1: World, w2: World) {
    forall o: Request, t ::
      o.OpenRequest? && Some(o.opening) == w1.system.channel.opening && Some(o.permissions) == w1.system.channel.permissions
      && BeforeClosing(o, Closures(w1.handled), t)
      ==> multiset(Posted(o, TooEarly(w1.handled)))[t] == multiset(Posted(o, TooEarly(w2.handled)))[t]
  }

  /** Such nodes agree on the state, the closing time, and every stored message not stamped exactly at it,
      in whatever order and interleaving everything came, exactly when the same messages came too early. */
  lemma PipelinesConvergeExactly(id: string, moves1: seq<Move>, moves2: seq<Move>)
    requires SeenAlike(id, Moves(Begin(id), moves1), Moves(Begin(id), moves2))
    ensures SameOutcome(Moves(Begin(id), moves1).system.channel, Moves(Begin(id), moves2).system.channel)
            <==> EarlyAlike(Moves(Begin(id), moves1), Moves(Begin(id), moves2))
  {
    hide Holds, SeenAlike, EarlyAlike, SameOutcome, Moves, Begin, Consistent;
    EveryRunHolds(id, moves1);
    EveryRunHolds(id, moves2);
    WorldsConvergeExactly(id, Moves(Begin(id), moves1), Moves(Begin(id), moves2));
  }

  /** If no move was one of the losing kinds they agree. */
  lemma PipelinesConverge(id: string, moves1: seq<Move>, moves2: seq<Move>)
    requires SeenAlike(id, Moves(Begin(id), moves1), Moves(Begin(id), moves2))
    requires NeverLoses(Begin(id), moves1) && NeverLoses(Begin(id), moves2)
    ensures SameOutcome(Moves(Begin(id), moves1).system.channel, Moves(Begin(id), moves2).system.channel)
  {
    LossesAreExact(id, moves1);
    LossesAreExact(id, moves2);
    hide SeenAlike, SameOutcome, Moves, Begin, Consistent, NeverLoses;
    PipelinesConvergeExactly(id, moves1, moves2);
  }

  lemma MessagesWithoutLost(id: string, w: World)
    requires Holds(id, w) && Quiet(w) && IsOpened(w)
    ensures Actions(w.arrived) == Actions(w.lost) + multiset(Messages(w.handled))
  {
    ActionsOfFew(Operation(AddMessageType, 0, "", "", "", false));
    assert WaitingActions([]) == multiset{};
    hide Actions, WaitingActions, Messages, Run;
  }

  lemma SameMessages(id: string, w1: World, w2: World)
    requires Holds(id, w1) && Holds(id, w2) && SeenAlike(id, w1, w2)
    ensures multiset(Messages(w1.handled)) == multiset(Messages(w2.handled))
  {
    hide Actions, Messages, Closures, Run, Clean, Holds;
    MessagesWithoutLost(id, w1);
    MessagesWithoutLost(id, w2);
    var lost := Actions(w1.lost);
    assert multiset(Messages(w1.handled)) == Actions(w1.arrived) - lost;
    assert multiset(Messages(w2.handled)) == Actions(w2.arrived) - lost;
  }

  lemma WorldsConvergeExactly(id: string, w1: World, w2: World)
    requires Holds(id, w1) && Holds(id, w2) && SeenAlike(id, w1, w2)
    ensures SameOutcome(w1.system.channel, w2.system.channel) <==> EarlyAlike(w1, w2)
  {
    SameMessages(id, w1, w2);
    hide Run, Messages, Closures, Clean, Actions, Placed;
    var pre1, o1, post1 := SplitsAtOpening(id, w1);
    var pre2, o2, post2 := SplitsAtOpening(id, w2);
    assert SameOpening(o1, o2) && multiset(Closures(w1.handled)) == multiset(Closures(w2.handled));
    hide Holds, SeenAlike;
    SplitsConvergeExactly(id, w1, pre1, o1, post1, w2, pre2, o2, post2);
  }

  lemma SplitsConvergeExactly(id: string, w1: World, pre1: seq<Request>, o1: Request, post1: seq<Request>,
                              w2: World, pre2: seq<Request>, o2: Request, post2: seq<Request>)
    requires Split(id, w1, pre1, o1, post1) && Split(id, w2, pre2, o2, post2) && SameOpening(o1, o2)
    requires multiset(Closures(w1.handled)) == multiset(Closures(w2.handled))
    requires multiset(Messages(w1.handled)) == multiset(Messages(w2.handled))
    ensures SameOutcome(w1.system.channel, w2.system.channel) <==> EarlyAlike(w1, w2)
  {
    assert Tried(pre1, o1, post1) == Closures(w1.handled) && Tried(pre2, o2, post2) == Closures(w2.handled);
    hide Messages, Closures, After, Run, Stamps, Posted, TooEarly, SameOutcome, NoOpening, Tried, Arrivals;
    FullyFedRunsGoOn(id, pre1, o1, post1);
    FullyFedRunsGoOn(id, pre2, o2, post2);
    SamePosted(o1, pre1, post1, o2, pre2, post2);
    ReplicasConvergeExactly(id, pre1, o1, post1, pre2, o2, post2);
    StampsArePosted(o1, pre1);
    StampsArePosted(o2, pre2);
    EarlyIsLost(w1, o1, pre1, w2, o2, pre2);
  }

  lemma SamePosted(o1: Request, pre1: seq<Request>, post1: seq<Request>, o2: Request, pre2: seq<Request>, post2: seq<Request>)
    requires SameOpening(o1, o2)
    requires multiset(Messages(pre1) + Messages(post1)) == multiset(Messages(pre2) + Messages(post2))
    ensures multiset(Stamps(o1, pre1) + Stamps(o1, post1)) == multiset(Stamps(o2, pre2) + Stamps(o2, post2))
  {
    hide Messages, Stamps, Posted;
    StampsArePosted(o1, pre1);
    StampsArePosted(o1, post1);
    StampsArePosted(o2, pre2);
    StampsArePosted(o2, post2);
    PostedAdds(o1, Messages(pre1), Messages(post1));
    PostedAdds(o2, Messages(pre2), Messages(post2));
    PostedIgnoresOrder(o1, Messages(pre1) + Messages(post1), Messages(pre2) + Messages(post2));
    PostedByOpening(o1, o2, Messages(pre2) + Messages(post2));
  }

  lemma EarlyIsLost(w1: World, o1: Request, pre1: seq<Request>, w2: World, o2: Request, pre2: seq<Request>)
    requires SameOpening(o1, o2)
    requires w1.system.channel.opening == Some(o1.opening) && w1.system.channel.permissions == Some(o1.permissions)
    requires Stamps(o1, pre1) == Posted(o1, TooEarly(w1.handled)) && Stamps(o2, pre2) == Posted(o2, TooEarly(w2.handled))
    ensures LostAlike(o1, pre1, o2, pre2, Closures(w1.handled)) <==> EarlyAlike(w1, w2)
  {
    hide Stamps, Closures, Posted, TooEarly;
    PostedByOpening(o1, o2, TooEarly(w2.handled));
    if LostAlike(o1, pre1, o2, pre2, Closures(w1.handled)) {
      forall o: Request, t |
        o.OpenRequest? && Some(o.opening) == w1.system.channel.opening && Some(o.permissions) == w1.system.channel.permissions
        && BeforeClosing(o, Closures(w1.handled), t)
        ensures multiset(Posted(o, TooEarly(w1.handled)))[t] == multiset(Posted(o, TooEarly(w2.handled)))[t]
      {
        PostedByOpening(o, o1, TooEarly(w1.handled));
        PostedByOpening(o, o1, TooEarly(w2.handled));
        assert BeforeClosing(o1, Closures(w1.handled), t);
      }
    }
  }
}
