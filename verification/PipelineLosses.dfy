/** Which messages get through to a channel, and which moves lose one. */
module PipelineLosses {
  import opened Common
  import opened ChannelRecord
  import opened Operations
  import opened ChannelServer
  import opened ChannelRuns
  import opened MessageCounts
  import opened Pipeline

  /** The messages handled before any valid opening, which are dropped, and those handled after one. */
  function TooEarly(rqs: seq<Request>): seq<Action> {
    if rqs == [] then []
    else
      var n := |rqs| - 1;
      TooEarly(rqs[..n]) + (if rqs[n].MessageRequest? && NoOpening(rqs[..n]) then [rqs[n].message] else [])
  }

  function InTime(rqs: seq<Request>): seq<Action> {
    if rqs == [] then []
    else
      var n := |rqs| - 1;
      InTime(rqs[..n]) + (if rqs[n].MessageRequest? && !NoOpening(rqs[..n]) then [rqs[n].message] else [])
  }

  lemma {:induction false} MessagesAreEarlyOrInTime(rqs: seq<Request>)
    ensures multiset(Messages(rqs)) == multiset(TooEarly(rqs)) + multiset(InTime(rqs))
  {
    if rqs != [] {
      MessagesAreEarlyOrInTime(rqs[..|rqs| - 1]);
    }
  }

  /** A channel is buffered exactly until its first valid opening. */
  lemma BufferedUntilOpening(id: string, rqs: seq<Request>)
    ensures Run(Initial(id), rqs).channel.state.Buffered? <==> NoOpening(rqs)
  {
    if NoOpening(rqs) {
      WaitsBeforeOpening(id, rqs);
    } else {
      var pre, o, post := HasFirstOpening(rqs);
      OpeningFeeds(id, pre, o);
      RunSplits(Initial(id), pre + [o], post);
      RunDescends(Run(Initial(id), pre + [o]), post);
    }
  }

  /** A move after which a message can no longer get through: the decryptor drops it or the executor does
      not take it; the messages daemon does not take it, or it reaches the channel before the opening; an
      opening leaves some that wait unfed. */
  predicate Loses(w: World, m: Move)
    requires Consistent(w.system)
  {
    && Enabled(w, m)
    && match m
       case Decrypt(i, decrypts, verifies, accepted) =>
         !accepted || (!(decrypts && verifies) && ShouldDrop(w.atDecryptor[i]))
       case Execute(j, taken) => !taken || (w.atExecutor[j].ToAdd? && w.system.channel.state.Buffered?)
       case GrantOpen(o) =>
         && CanOpen(w.system.channel, Some(o.opening), Some(o.permissions), o.keyId)
         && o.answered + 1 < |w.system.buffer|
       case _ => false
  }

  predicate NeverLoses(w: World, moves: seq<Move>)
    requires Consistent(w.system)
  {
    moves == []
    || var n := |moves| - 1;
       NeverLoses(w, moves[..n]) && !Loses(Moves(w, moves[..n]), moves[n])
  }

  predicate NothingMissing(w: World) {
    w.lost == [] && TooEarly(w.handled) == []
  }

  lemma LosingOpening(s: System, rq: Request)
    requires Consistent(s) && !s.crashed
    ensures UnfedBy(s, rq) != []
            <==> rq.OpenRequest? && CanOpen(s.channel, Some(rq.opening), Some(rq.permissions), rq.keyId) && rq.answered + 1 < |s.buffer|
  {
    StepFeeds(s, rq);
    if s.channel.state.Buffered? {
      OpensExactly(s, rq);
    }
    hide Step;
  }

  lemma OpensExactly(s: System, rq: Request)
    requires Consistent(s) && !s.crashed && s.channel.state.Buffered?
    ensures !Step(s, rq).0.channel.state.Buffered?
            <==> rq.OpenRequest? && CanOpen(s.channel, Some(rq.opening), Some(rq.permissions), rq.keyId)
  {
  }

  lemma MissingMore(w: World, rq: Request, unfed: seq<Operation>, w': World)
    requires w'.handled == w.handled + [rq] && w'.lost == w.lost + unfed
    ensures NothingMissing(w')
            <==> NothingMissing(w) && unfed == [] && !(rq.MessageRequest? && NoOpening(w.handled))
  {
    EarlyMore(w.handled, rq);
    hide NoOpening, TooEarly;
  }

  lemma EarlyMore(rqs: seq<Request>, rq: Request)
    ensures TooEarly(rqs + [rq]) == TooEarly(rqs) + (if rq.MessageRequest? && NoOpening(rqs) then [rq.message] else [])
  {
    assert (rqs + [rq])[..|rqs|] == rqs;
  }

  lemma LossStep(id: string, w: World, m: Move)
    requires w.system == Run(Initial(id), w.handled)
    ensures NothingMissing(Moved(w, m)) <==> NothingMissing(w) && !Loses(w, m)
  {
    BufferedUntilOpening(id, w.handled);
    hide Run, Step, FedBy, UnfedBy, TooEarly, NoOpening;
    if Enabled(w, m) {
      match m {
        case Arrive(op) =>
        case Decrypt(i, decrypts, verifies, accepted) =>
        case Execute(j, taken) => RequestMisses(w.(atExecutor := Without(w.atExecutor, j)), RequestFor(w.atExecutor[j]));
        case GrantOpen(o) => RequestMisses(w, o);
        case GrantClose(a) => RequestMisses(w, CloseRequest(a));
      }
    }
  }

  lemma RequestMisses(w: World, rq: Request)
    requires Consistent(w.system) && !w.system.crashed
    ensures NothingMissing(Handled(w, rq))
            <==> NothingMissing(w) && UnfedBy(w.system, rq) == [] && !(rq.MessageRequest? && NoOpening(w.handled))
    ensures UnfedBy(w.system, rq) != []
            <==> rq.OpenRequest? && CanOpen(w.system.channel, Some(rq.opening), Some(rq.permissions), rq.keyId)
                 && rq.answered + 1 < |w.system.buffer|
  {
    LosingOpening(w.system, rq);
    hide Step, FedBy, UnfedBy, TooEarly, NoOpening;
    MissingMore(w, rq, UnfedBy(w.system, rq), Handled(w, rq));
  }

  lemma {:induction false} LossesAreExact(id: string, moves: seq<Move>)
    ensures NeverLoses(Begin(id), moves) <==> NothingMissing(Moves(Begin(id), moves))
  {
    if moves != [] {
      var n := |moves| - 1;
      LossesAreExact(id, moves[..n]);
      EveryRunHolds(id, moves[..n]);
      LossStep(id, Moves(Begin(id), moves[..n]), moves[n]);
    }
  }

  /** Nothing is on its way any more. */
  predicate Quiet(w: World) {
    w.atDecryptor == [] && w.atExecutor == []
  }

  predicate IsOpened(w: World) {
    !w.system.channel.state.Buffered?
  }

  /** When nothing is on its way to an open channel any more, it was given after its opening exactly the
      messages that arrived, once each, if and only if no move of the run was one of the losing kinds. */
  lemma MessagesGetThroughExactly(id: string, moves: seq<Move>)
    requires Quiet(Moves(Begin(id), moves)) && IsOpened(Moves(Begin(id), moves))
    ensures multiset(InTime(Moves(Begin(id), moves).handled)) == Actions(Moves(Begin(id), moves).arrived)
            <==> NeverLoses(Begin(id), moves)
  {
    EveryRunHolds(id, moves);
    LossesAreExact(id, moves);
    hide Moves, NeverLoses, Begin, Run, Initial;
    ThroughIfNothingMissing(id, Moves(Begin(id), moves));
  }

  lemma ThroughIfNothingMissing(id: string, w: World)
    requires Holds(id, w) && Quiet(w) && IsOpened(w)
    ensures multiset(InTime(w.handled)) == Actions(w.arrived) <==> NothingMissing(w)
  {
    MessagesAreEarlyOrInTime(w.handled);
    ActionsCount(w.lost);
    ActionsOfFew(Operation(AddMessageType, 0, "", "", "", false));
    assert WaitingActions([]) == multiset{};
    hide Actions, WaitingActions, Messages, TooEarly, InTime, Run;
    var missing := Actions(w.lost) + multiset(TooEarly(w.handled));
    assert Actions(w.arrived) == missing + multiset(InTime(w.handled));
    assert |missing| == |w.lost| + |TooEarly(w.handled)|;
    if multiset(InTime(w.handled)) == Actions(w.arrived) {
      assert |Actions(w.arrived)| == |missing| + |multiset(InTime(w.handled))|;
    }
  }
}
