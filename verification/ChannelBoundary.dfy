/** When the stored messages do not depend on the order of arrival at all. */
module ChannelBoundary {
  import opened Common
  import opened ChannelRecord
  import opened ChannelServer
  import opened ChannelRuns
  import opened ChannelConvergence

  /** Another run with the same opening, and the same closures and messages anywhere around it. */
  predicate Rearranged(pre: seq<Request>, o: Request, post: seq<Request>,
                       pre2: seq<Request>, o2: Request, post2: seq<Request>) {
    && History(pre, o) && History(pre2, o2) && SameOpening(o, o2)
    && multiset(AllClosures(pre, post)) == multiset(AllClosures(pre2, post2))
    && multiset(AllStamps(pre, o, post)) == multiset(AllStamps(pre2, o2, post2))
  }

  function AllClosures(pre: seq<Request>, post: seq<Request>): seq<Action> {
    Closures(pre) + Closures(post)
  }

  /** The timestamps of all messages the opening allows, whenever they are handled. */
  function AllStamps(pre: seq<Request>, o: Request, post: seq<Request>): seq<Time>
    requires o.OpenRequest?
  {
    Stamps(o, pre) + Stamps(o, post)
  }

  /** An allowed message carries exactly the time of the earliest allowed closure. */
  predicate OnBoundary(o: Request, closures: seq<Action>, stamps: seq<Time>)
    requires o.OpenRequest?
  {
    exists a :: a in closures && Earliest(o, closures, a) && a.timestamp in stamps
  }

  // ---------------------------------------------------------------- messages first, or closures first

  function PostsOf(rqs: seq<Request>): (r: seq<Request>)
    ensures forall i :: 0 <= i < |r| ==> r[i].MessageRequest?
  {
    if rqs == [] then []
    else
      var n := |rqs| - 1;
      PostsOf(rqs[..n]) + (if rqs[n].MessageRequest? then [rqs[n]] else [])
  }

  lemma {:induction false} PostsOfKeepsStamps(o: Request, rqs: seq<Request>)
    requires o.OpenRequest?
    ensures Stamps(o, PostsOf(rqs)) == Stamps(o, rqs) && Closures(PostsOf(rqs)) == []
  {
    if rqs != [] {
      var n := |rqs| - 1;
      PostsOfKeepsStamps(o, rqs[..n]);
      if rqs[n].MessageRequest? {
        SingleRequest(o, rqs[n]);
        ClosuresAdd(PostsOf(rqs[..n]), [rqs[n]]);
        StampsAdd(o, PostsOf(rqs[..n]), [rqs[n]]);
      } else {
        assert PostsOf(rqs) == PostsOf(rqs[..n]) && Stamps(o, rqs) == Stamps(o, rqs[..n]);
      }
    }
  }

  /** Every message that is left was stamped before the closing time. */
  predicate NoneAtClosing(c: Channel) {
    forall t :: t in c.messages ==> !AtClosing(c, t)
  }

  lemma {:induction false} ClosuresLeaveNoneAtClosing(s: System, closes: seq<Request>)
    requires Consistent(s) && !s.channel.state.Buffered? && NoneAtClosing(s.channel)
    requires forall i :: 0 <= i < |closes| ==> closes[i].CloseRequest?
    ensures NoneAtClosing(Run(s, closes).channel) && !Run(s, closes).channel.state.Buffered?
  {
    if closes != [] {
      var n := |closes| - 1;
      ClosuresLeaveNoneAtClosing(s, closes[..n]);
      ClosureLeavesNoneAtClosing(Run(s, closes[..n]), closes[n]);
    }
  }

  lemma ClosureLeavesNoneAtClosing(s: System, rq: Request)
    requires Consistent(s) && !s.channel.state.Buffered? && NoneAtClosing(s.channel) && rq.CloseRequest?
    ensures NoneAtClosing(Step(s, rq).0.channel) && !Step(s, rq).0.channel.state.Buffered?
  {
    var c := s.channel;
    var c' := Closing(c, Some(rq.closure)).channel;
    if c' != c {
      forall t | t in c'.messages ensures t < rq.closure.timestamp {
        BeforeCounts(c.messages, rq.closure.timestamp, t);
        assert t in multiset(c'.messages);
      }
    }
  }

  /** Once closed and with no more closures, a channel stores every allowed message stamped no later than
      the closing time. */
  lemma {:induction false} ClosedStoresUpToClosing(s: System, o: Request, posts: seq<Request>, t: Time)
    requires Consistent(s) && s.channel.state.Closed? && !s.crashed && o.OpenRequest?
    requires s.channel.opening == Some(o.opening) && s.channel.permissions == Some(o.permissions)
    requires forall i :: 0 <= i < |posts| ==> posts[i].MessageRequest?
    requires t <= s.channel.duration.value.closedAt && s.listeners.Some?
    ensures
      var s' := Run(s, posts);
      && s'.channel == s.channel.(messages := s'.channel.messages) && !s'.crashed && s'.listeners.Some?
      && multiset(s'.channel.messages)[t] == multiset(s.channel.messages)[t] + multiset(Stamps(o, posts))[t]
  {
    if posts != [] {
      var n := |posts| - 1;
      ClosedStoresUpToClosing(s, o, posts[..n], t);
      ClosedStoresOne(Run(s, posts[..n]), o, posts[n], t);
    }
  }

  lemma ClosedStoresOne(s: System, o: Request, rq: Request, t: Time)
    requires Consistent(s) && s.channel.state.Closed? && !s.crashed && s.listeners.Some?
    requires o.OpenRequest? && rq.MessageRequest? && t <= s.channel.duration.value.closedAt
    requires s.channel.opening == Some(o.opening) && s.channel.permissions == Some(o.permissions)
    ensures
      var s' := Step(s, rq).0;
      && s'.channel == s.channel.(messages := s'.channel.messages) && !s'.crashed && s'.listeners.Some?
      && multiset(s'.channel.messages)[t] == multiset(s.channel.messages)[t] + multiset(Stamp(o, rq))[t]
  {
  }

  // ---------------------------------------------------------------- the exact condition

  /** Messages before closures: none stamped at the closing time is left. */
  lemma PostsFirst(id: string, o: Request, closes: seq<Request>, posts: seq<Request>, a: Action)
    requires ValidOpening(o) && Closures(posts) == [] && Earliest(o, Closures(closes), a)
    requires forall i :: 0 <= i < |closes| ==> closes[i].CloseRequest?
    ensures a.timestamp !in After(id, [], o, posts + closes).channel.messages
  {
    var s := After(id, [], o, posts);
    FullyFedRunsGoOn(id, [], o, posts);
    FullyFedRunsGoOn(id, [], o, posts + closes);
    ClosesAtEarliestAllowed(id, [], o, posts);
    RunSplits(Run(Initial(id), [] + [o]), posts, closes);
    ClosuresLeaveNoneAtClosing(s, closes);
    ClosuresAdd(posts, closes);
    ClosesAtEarliestAllowed(id, [], o, posts + closes);
    hide Run, After, Closures;
    assert AtClosing(Run(s, closes).channel, a.timestamp);
  }

  /** Closures before messages: those stamped at the closing time are stored. */
  lemma ClosesFirst(id: string, o: Request, closes: seq<Request>, posts: seq<Request>, a: Action)
    requires ValidOpening(o) && Earliest(o, Closures(closes), a) && a.timestamp in Stamps(o, posts)
    requires forall i :: 0 <= i < |posts| ==> posts[i].MessageRequest?
    ensures a.timestamp in After(id, [], o, closes + posts).channel.messages
  {
    var s := After(id, [], o, closes);
    FullyFedRunsGoOn(id, [], o, closes);
    HistoryReaches(id, [], o, closes);
    ClosesAtEarliestAllowed(id, [], o, closes);
    RunSplits(Run(Initial(id), [] + [o]), closes, posts);
    ClosedStoresUpToClosing(s, o, posts, a.timestamp);
    assert a.timestamp in multiset(Stamps(o, posts));
    assert a.timestamp in multiset(Run(s, posts).channel.messages);
  }

  ghost predicate StoresAlike(id: string, pre: seq<Request>, o: Request, post: seq<Request>,
                              pre2: seq<Request>, o2: Request, post2: seq<Request>)
  {
    multiset(After(id, pre, o, post).channel.messages) == multiset(After(id, pre2, o2, post2).channel.messages)
  }

  /** How often a timestamp is stored: as often as it was allowed after the opening before the closing
      time, at most that often at it, and never after it. */
  lemma StoredCounts(id: string, pre: seq<Request>, o: Request, post: seq<Request>, t: Time)
    requires History(pre, o)
    ensures
      var all, n := AllClosures(pre, post), multiset(After(id, pre, o, post).channel.messages)[t];
      && n <= multiset(Stamps(o, post))[t]
      && (BeforeClosing(o, all, t) ==> n == multiset(Stamps(o, post))[t])
      && (AfterClosing(o, all, t) ==> n == 0)
  {
    FullyFedRunsGoOn(id, pre, o, post);
    HistoryReaches(id, pre, o, post);
    ClosesAtEarliestAllowed(id, pre, o, post);
    assert Tried(pre, o, post) == AllClosures(pre, post);
    hide After, Stamps, Tried, AllClosures, History, Standing;
    assert Agrees(After(id, pre, o, post).channel, Stamps(o, post), t);
  }

  /** A time after that of some allowed closure. */
  predicate AfterClosing(o: Request, closures: seq<Action>, t: Time)
    requires o.OpenRequest?
  {
    exists a :: a in closures && Allowed(o, a) && a.timestamp < t
  }

  lemma RearrangedAlike(id: string, pre: seq<Request>, o: Request, post: seq<Request>,
                        pre2: seq<Request>, o2: Request, post2: seq<Request>, t: Time)
    requires Rearranged(pre, o, post, pre2, o2, post2)
    ensures
      var all, all2 := AllClosures(pre, post), AllClosures(pre2, post2);
      && (BeforeClosing(o, all, t) <==> BeforeClosing(o2, all2, t))
      && (AfterClosing(o, all, t) <==> AfterClosing(o2, all2, t))
      && multiset(Stamps(o, pre))[t] + multiset(Stamps(o, post))[t] == multiset(Stamps(o2, pre2))[t] + multiset(Stamps(o2, post2))[t]
  {
    hide Stamps, AllClosures, History;
    SameClosures(o, AllClosures(pre, post), o2, AllClosures(pre2, post2));
    assert multiset(AllStamps(pre, o, post))[t] == multiset(AllStamps(pre2, o2, post2))[t];
  }

  /** A message that would be stored is handled before the opening, and so dropped. */
  predicate LosesMessage(pre: seq<Request>, o: Request, closures: seq<Action>)
    requires o.OpenRequest?
  {
    exists t :: t in Stamps(o, pre) && BeforeClosing(o, closures, t)
  }

  /** A run stores what every run does that has the same opening, closures and messages and handles no
      message before the opening, wherever the closures stand and in whatever order everything comes,
      exactly when no allowed message carries the time of the earliest allowed closure and none from
      before that time is handled too early. */
  lemma MessagesConvergeExactly(id: string, pre: seq<Request>, o: Request, post: seq<Request>)
    requires History(pre, o)
    ensures
      (forall pre2, o2, post2 | Rearranged(pre, o, post, pre2, o2, post2) && Stamps(o2, pre2) == [] ::
         StoresAlike(id, pre, o, post, pre2, o2, post2))
      <==> !OnBoundary(o, AllClosures(pre, post), AllStamps(pre, o, post)) && !LosesMessage(pre, o, AllClosures(pre, post))
  {
    if OnBoundary(o, AllClosures(pre, post), AllStamps(pre, o, post)) {
      var other := BoundaryDecides(id, pre, o, post);
      assert Stamps(o, []) == [];
    } else if LosesMessage(pre, o, AllClosures(pre, post)) {
      var other := LossShows(id, pre, o, post);
      assert Stamps(o, []) == [];
    } else {
      forall pre2, o2, post2 | Rearranged(pre, o, post, pre2, o2, post2) && Stamps(o2, pre2) == []
        ensures StoresAlike(id, pre, o, post, pre2, o2, post2)
      {
        hide Rearranged, OnBoundary, LosesMessage, Stamps, StoresAlike;
        OffBoundaryStoresAlike(id, pre, o, post, pre2, o2, post2);
      }
    }
  }

  lemma OffBoundaryStoresAlike(id: string, pre: seq<Request>, o: Request, post: seq<Request>,
                               pre2: seq<Request>, o2: Request, post2: seq<Request>)
    requires Rearranged(pre, o, post, pre2, o2, post2) && Stamps(o2, pre2) == []
    requires !OnBoundary(o, AllClosures(pre, post), AllStamps(pre, o, post)) && !LosesMessage(pre, o, AllClosures(pre, post))
    ensures StoresAlike(id, pre, o, post, pre2, o2, post2)
  {
    assert History(pre, o) && History(pre2, o2);
    hide After, History, AllClosures;
    var x, y := After(id, pre, o, post).channel.messages, After(id, pre2, o2, post2).channel.messages;
    forall t ensures multiset(x)[t] == multiset(y)[t] {
      OffBoundaryCounts(id, pre, o, post, pre2, o2, post2, t);
    }
  }

  lemma OffBoundaryCounts(id: string, pre: seq<Request>, o: Request, post: seq<Request>,
                          pre2: seq<Request>, o2: Request, post2: seq<Request>, t: Time)
    requires Rearranged(pre, o, post, pre2, o2, post2) && Stamps(o2, pre2) == []
    requires !OnBoundary(o, AllClosures(pre, post), AllStamps(pre, o, post)) && !LosesMessage(pre, o, AllClosures(pre, post))
    ensures multiset(After(id, pre, o, post).channel.messages)[t] == multiset(After(id, pre2, o2, post2).channel.messages)[t]
  {
    assert History(pre, o) && History(pre2, o2);
    hide After, History, AllClosures, Stamps, Rearranged;
    StoredCounts(id, pre, o, post, t);
    StoredCounts(id, pre2, o2, post2, t);
    RearrangedAlike(id, pre, o, post, pre2, o2, post2, t);
    if !BeforeClosing(o, AllClosures(pre, post), t) && !AfterClosing(o, AllClosures(pre, post), t) {
      OffBoundary(o, AllClosures(pre, post), AllStamps(pre, o, post), t);
    }
    assert t in Stamps(o, pre) <==> multiset(Stamps(o, pre))[t] > 0;
  }

  lemma OffBoundary(o: Request, closures: seq<Action>, stamps: seq<Time>, t: Time)
    requires o.OpenRequest? && !OnBoundary(o, closures, stamps)
    requires !BeforeClosing(o, closures, t) && !AfterClosing(o, closures, t)
    ensures multiset(stamps)[t] == 0
  {
    var a :| a in closures && Allowed(o, a) && t >= a.timestamp;
    assert Earliest(o, closures, a);
    assert t in stamps <==> t in multiset(stamps);
  }

  lemma BoundaryDecides(id: string, pre: seq<Request>, o: Request, post: seq<Request>) returns (other: seq<Request>)
    requires History(pre, o) && OnBoundary(o, AllClosures(pre, post), AllStamps(pre, o, post))
    ensures Rearranged(pre, o, post, [], o, other) && !StoresAlike(id, pre, o, post, [], o, other)
  {
    assert ValidOpening(o);
    hide After, Rearranged, Closures, Stamps, ClosesOf, PostsOf, OnBoundary, History, Earliest, ValidOpening, StoresAlike;
    var closes, posts := ClosesOf(pre + post), PostsOf(pre + post);
    TakenApart(pre, o, post);
    var a := EarliestOnBoundary(o, Closures(closes), Stamps(o, posts));
    PostsFirst(id, o, closes, posts, a);
    ClosesFirst(id, o, closes, posts, a);
    BothRearrange(pre, o, post, closes, posts);
    StoredInOneOnly(id, pre, o, post, posts + closes, closes + posts, a.timestamp);
    other := if StoresAlike(id, pre, o, post, [], o, posts + closes) then closes + posts else posts + closes;
  }

  lemma TakenApart(pre: seq<Request>, o: Request, post: seq<Request>)
    requires o.OpenRequest?
    ensures
      var closes, posts := ClosesOf(pre + post), PostsOf(pre + post);
      && Closures(closes) == AllClosures(pre, post) && Stamps(o, closes) == []
      && Stamps(o, posts) == AllStamps(pre, o, post) && Closures(posts) == []
  {
    ClosesOfKeepsClosures(o, pre + post);
    PostsOfKeepsStamps(o, pre + post);
    ClosuresAdd(pre, post);
    StampsAdd(o, pre, post);
  }

  lemma EarliestOnBoundary(o: Request, closures: seq<Action>, stamps: seq<Time>) returns (a: Action)
    requires o.OpenRequest? && OnBoundary(o, closures, stamps)
    ensures Earliest(o, closures, a) && a.timestamp in stamps
  {
    a :| a in closures && Earliest(o, closures, a) && a.timestamp in stamps;
  }

  lemma BothRearrange(pre: seq<Request>, o: Request, post: seq<Request>, closes: seq<Request>, posts: seq<Request>)
    requires History(pre, o)
    requires Closures(closes) == AllClosures(pre, post) && Stamps(o, closes) == []
    requires Stamps(o, posts) == AllStamps(pre, o, post) && Closures(posts) == []
    ensures Rearranged(pre, o, post, [], o, posts + closes) && Rearranged(pre, o, post, [], o, closes + posts)
  {
    assert o.OpenRequest?;
    hide Closures, Arrivals, Stamps, History, Rearranged;
    ClosuresAdd(posts, closes);
    ClosuresAdd(closes, posts);
    StampsAdd(o, posts, closes);
    StampsAdd(o, closes, posts);
    HandledLate(pre, o, post, posts + closes);
    HandledLate(pre, o, post, closes + posts);
  }

  lemma HandledLate(pre: seq<Request>, o: Request, post: seq<Request>, other: seq<Request>)
    requires History(pre, o) && Closures(other) == AllClosures(pre, post) && Stamps(o, other) == AllStamps(pre, o, post)
    ensures Rearranged(pre, o, post, [], o, other)
  {
    assert Closures([]) == [] && Arrivals([]) == [] && Stamps(o, []) == [] && NoOpening([]);
    hide Closures, Arrivals, Stamps, NoOpening;
    assert [] + Closures(other) == Closures(other) && [] + Stamps(o, other) == Stamps(o, other);
  }

  lemma StoredInOneOnly(id: string, pre: seq<Request>, o: Request, post: seq<Request>,
                        post1: seq<Request>, post2: seq<Request>, t: Time)
    requires t !in After(id, [], o, post1).channel.messages && t in After(id, [], o, post2).channel.messages
    ensures !StoresAlike(id, pre, o, post, [], o, post1) || !StoresAlike(id, pre, o, post, [], o, post2)
  {
    hide After;
    var x, y := After(id, [], o, post1).channel.messages, After(id, [], o, post2).channel.messages;
    assert t !in multiset(x) && t in multiset(y);
  }

  /** A message handled too early shows when compared with a run that handles everything after the opening. */
  lemma LossShows(id: string, pre: seq<Request>, o: Request, post: seq<Request>) returns (other: seq<Request>)
    requires History(pre, o) && LosesMessage(pre, o, AllClosures(pre, post))
    ensures Rearranged(pre, o, post, [], o, other) && !StoresAlike(id, pre, o, post, [], o, other)
  {
    var t :| t in Stamps(o, pre) && BeforeClosing(o, AllClosures(pre, post), t);
    var closes, posts := ClosesOf(pre + post), PostsOf(pre + post);
    other := closes + posts;
    hide After, Closures, Stamps, ClosesOf, PostsOf, LosesMessage, NoOpening, Arrivals;
    TakenApart(pre, o, post);
    BothRearrange(pre, o, post, closes, posts);
    StoredCounts(id, pre, o, post, t);
    StoredCounts(id, [], o, other, t);
    RearrangedAlike(id, pre, o, post, [], o, other, t);
    NothingHandledYet(o);
    assert t in multiset(Stamps(o, pre));
  }

  lemma NothingHandledYet(o: Request)
    requires o.OpenRequest?
    ensures Stamps(o, []) == []
  {
  }

  /** Whatever order everything comes in, messages before the opening included, the same is stored,
      exactly when nothing can be: every allowed message is later than some allowed closure. */
  lemma AnyOrderConvergesExactly(id: string, pre: seq<Request>, o: Request, post: seq<Request>)
    requires History(pre, o)
    ensures
      (forall pre2, o2, post2 | Rearranged(pre, o, post, pre2, o2, post2) :: StoresAlike(id, pre, o, post, pre2, o2, post2))
      <==> forall t :: t in AllStamps(pre, o, post) ==> AfterClosing(o, AllClosures(pre, post), t)
  {
    if t :| t in AllStamps(pre, o, post) && !AfterClosing(o, AllClosures(pre, post), t) {
      OrderDecides(id, pre, o, post, t);
    } else {
      forall pre2, o2, post2 | Rearranged(pre, o, post, pre2, o2, post2)
        ensures StoresAlike(id, pre, o, post, pre2, o2, post2)
      {
        hide Rearranged, AllStamps, StoresAlike;
        NothingStored(id, pre, o, post, pre2, o2, post2);
      }
    }
  }

  lemma NothingStored(id: string, pre: seq<Request>, o: Request, post: seq<Request>,
                      pre2: seq<Request>, o2: Request, post2: seq<Request>)
    requires Rearranged(pre, o, post, pre2, o2, post2)
    requires forall t :: t in AllStamps(pre, o, post) ==> AfterClosing(o, AllClosures(pre, post), t)
    ensures StoresAlike(id, pre, o, post, pre2, o2, post2)
  {
    assert History(pre, o) && History(pre2, o2);
    hide After, History, AllClosures, AfterClosing, Stamps;
    var x, y := After(id, pre, o, post).channel.messages, After(id, pre2, o2, post2).channel.messages;
    forall t ensures multiset(x)[t] == 0 && multiset(y)[t] == 0 {
      StoredCounts(id, pre, o, post, t);
      StoredCounts(id, pre2, o2, post2, t);
      RearrangedAlike(id, pre, o, post, pre2, o2, post2, t);
      assert t in AllStamps(pre, o, post) <==> t in multiset(AllStamps(pre, o, post));
    }
    assert multiset(x) == multiset{} == multiset(y);
  }

  /** Everything after the opening and closures first stores a message that all messages before the
      opening lose. */
  lemma OrderDecides(id: string, pre: seq<Request>, o: Request, post: seq<Request>, t: Time)
    requires History(pre, o) && t in AllStamps(pre, o, post) && !AfterClosing(o, AllClosures(pre, post), t)
    ensures exists pre2, o2, post2 ::
              Rearranged(pre, o, post, pre2, o2, post2) && !StoresAlike(id, pre, o, post, pre2, o2, post2)
  {
    var closes, posts := ClosesOf(pre + post), PostsOf(pre + post);
    hide After, Closures, Stamps, ClosesOf, PostsOf, Arrivals, AllStamps, Rearranged, StoresAlike, NoOpening;
    TakenApart(pre, o, post);
    BothRearrange(pre, o, post, closes, posts);
    PostsBefore(pre, o, post);
    StoredAfter(id, o, closes, posts, t);
    StoredNever(id, posts, o, closes, t);
    StoresDiffer(id, pre, o, post, [], o, closes + posts, posts, o, closes, t);
  }

  lemma StoresDiffer(id: string, pre: seq<Request>, o: Request, post: seq<Request>,
                     pre1: seq<Request>, o1: Request, post1: seq<Request>,
                     pre2: seq<Request>, o2: Request, post2: seq<Request>, t: Time)
    requires multiset(After(id, pre1, o1, post1).channel.messages)[t] != multiset(After(id, pre2, o2, post2).channel.messages)[t]
    ensures !StoresAlike(id, pre, o, post, pre1, o1, post1) || !StoresAlike(id, pre, o, post, pre2, o2, post2)
  {
  }

  lemma StoredAfter(id: string, o: Request, closes: seq<Request>, posts: seq<Request>, t: Time)
    requires ValidOpening(o) && t in Stamps(o, posts) && !AfterClosing(o, Closures(closes), t)
    requires forall i :: 0 <= i < |posts| ==> posts[i].MessageRequest?
    requires Closures(posts) == [] && Stamps(o, closes) == []
    ensures multiset(After(id, [], o, closes + posts).channel.messages)[t] > 0
  {
    assert t in multiset(Stamps(o, posts));
    if BeforeClosing(o, Closures(closes), t) {
      assert Closures([]) == [] && Arrivals([]) == [];
      ClosuresAdd(closes, posts);
      StampsAdd(o, closes, posts);
      assert AllClosures([], closes + posts) == Closures(closes);
      StoredCounts(id, [], o, closes + posts, t);
    } else {
      var a :| a in Closures(closes) && Allowed(o, a) && a.timestamp <= t;
      assert Earliest(o, Closures(closes), a);
      ClosesFirst(id, o, closes, posts, a);
      assert t in multiset(After(id, [], o, closes + posts).channel.messages);
    }
  }

  lemma StoredNever(id: string, posts: seq<Request>, o: Request, closes: seq<Request>, t: Time)
    requires History(posts, o) && Stamps(o, closes) == []
    ensures multiset(After(id, posts, o, closes).channel.messages)[t] == 0
  {
    StoredCounts(id, posts, o, closes, t);
  }

  lemma PostsBefore(pre: seq<Request>, o: Request, post: seq<Request>)
    requires History(pre, o)
    ensures Rearranged(pre, o, post, PostsOf(pre + post), o, ClosesOf(pre + post))
  {
    TakenApart(pre, o, post);
    PostsArrive(pre + post);
  }

  lemma {:induction false} PostsArrive(rqs: seq<Request>)
    ensures Arrivals(PostsOf(rqs)) == [] && NoOpening(PostsOf(rqs))
  {
    if rqs != [] {
      var n := |rqs| - 1;
      PostsArrive(rqs[..n]);
      ArrivalsAdd(PostsOf(rqs[..n]), if rqs[n].MessageRequest? then [rqs[n]] else []);
      assert [rqs[n]][..0] == [];
    }
  }

  /** A message handled before the opening is lost, with no closure at all. */
  lemma EarlyMessageIsLost()
    ensures
      && After("c", [Post(2)], OpenAnswering(0), []).channel.messages == []
      && After("c", [], OpenAnswering(0), [Post(2)]).channel.messages == [2]
  {
    OpensAtOnce();
    PostsAround();
    hide Run, Step;
    var i, open, post := Initial("c"), OpenAnswering(0), Post(2);
    RunOneMore(i, [post], open);
    RunOneMore(i, [], post);
    RunOneMore(i, [], open);
    RunOneMore(Run(i, [] + [open]), [], post);
    assert [] + [post] == [post];
  }

  lemma PostsAround()
    ensures Run(Initial("c"), []) == Initial("c") && Step(Initial("c"), Post(2)).0 == Initial("c")
    ensures forall s :: JustOpened(s) ==> Run(s, []) == s && Step(s, Post(2)).0.channel.messages == [2]
  {
  }
}
