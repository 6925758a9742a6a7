/** The whole way of messages into one channel: decryptor, executor, buffer and channel together, with
    everything that is between them in any interleaving, and whatever the keys and the components do. */
module Pipeline {
  import opened ChannelRecord
  import opened Operations
  import opened ChannelServer
  import opened ChannelRuns
  import opened MessageCounts
  import D = Decryptor

  /** The channel with the requests it has handled, and the operations on their way. `arrived` are all that
      ever came in from outside, `lost` those some component refused or an opening left unfed. */
  datatype World = World(
    system: System,
    handled: seq<Request>,
    atDecryptor: seq<Operation>,
    atExecutor: seq<Waiting>,
    arrived: seq<Operation>,
    lost: seq<Operation>)

  /** An operation comes in; one is decrypted and verified, with whatever result, and offered to the
      executor; one gets the lock of the channel and is offered to the messages daemon; an opening or a
      closure gets that lock. Which keys are known, and why, is left open. */
  datatype Move =
    | Arrive(op: Operation)
    | Decrypt(i: nat, decrypts: bool, verifies: bool, accepted: bool)
    | Execute(j: nat, taken: bool)
    | GrantOpen(o: Request)
    | GrantClose(closure: Action)

  function Begin(id: string): (w: World)
    ensures Consistent(w.system)
  {
    World(Initial(id), [], [], [], [], [])
  }

  /** What the executor asks of the messages daemon: the signers are those it was handed, and of the operation
      itself it only uses the time. */
  function RequestFor(x: Waiting): Request {
    match x
    case ToBuffer(op) => BufferRequest(op, true)
    case ToAdd(op, signers, message) =>
      MessageRequest(Action(signers.issuerId, signers.certifierId, op.timestamp), message)
  }

  /** The operations that wait for the opening of the channel. */
  function InBuffer(s: System): seq<Operation> {
    if s.channel.state.Buffered? then s.buffer else []
  }

  /** What a request hands back to the decryptor. */
  function FedBy(s: System, rq: Request): seq<Operation>
    requires Consistent(s)
  {
    var s' := Step(s, rq).0;
    if |s.fed| <= |s'.fed| then s'.fed[|s.fed|..] else []
  }

  /** What an opening takes out of reach without handing it back. */
  function UnfedBy(s: System, rq: Request): seq<Operation>
    requires Consistent(s)
  {
    if s.channel.state.Buffered? && !Step(s, rq).0.channel.state.Buffered? && |FedBy(s, rq)| <= |s.buffer| then
      s.buffer[|FedBy(s, rq)|..]
    else []
  }

  function Handled(w: World, rq: Request): World
    requires Consistent(w.system)
  {
    w.(system := Step(w.system, rq).0, handled := w.handled + [rq],
       atDecryptor := w.atDecryptor + FedBy(w.system, rq), lost := w.lost + UnfedBy(w.system, rq))
  }

  predicate Enabled(w: World, m: Move) {
    && !w.system.crashed
    && match m
       case Arrive(op) => op.requestType.AddMessageType?
       case Decrypt(i, _, _, _) => i < |w.atDecryptor|
       case Execute(j, _) => j < |w.atExecutor|
       case GrantOpen(o) => o.OpenRequest?
       case GrantClose(_) => true
  }

  function Moved(w: World, m: Move): (r: World)
    requires Consistent(w.system)
    ensures Consistent(r.system)
  {
    if !Enabled(w, m) then w
    else
      match m
      case Arrive(op) => w.(atDecryptor := w.atDecryptor + [op], arrived := w.arrived + [op])
      case Decrypt(i, decrypts, verifies, accepted) => Decrypted(w, i, decrypts, verifies, accepted)
      case Execute(j, taken) => Executed(w, j, taken)
      case GrantOpen(o) => Handled(w, o)
      case GrantClose(a) => Handled(w, CloseRequest(a))
  }

  function Decrypted(w: World, i: nat, decrypts: bool, verifies: bool, accepted: bool): World
    requires i < |w.atDecryptor|
  {
    var op := w.atDecryptor[i];
    var rest := w.(atDecryptor := Without(w.atDecryptor, i));
    var verdict := D.Decision(op, true, decrypts, verifies);
    if verdict.Refused? || !accepted then rest.(lost := w.lost + [op])
    else rest.(atExecutor := w.atExecutor + [OnItsWay(op, verdict.handover)])
  }

  function OnItsWay(op: Operation, h: D.Handover): Waiting
    requires h.failed.Some? || (h.signers.Some? && h.plaintext.Some?)
  {
    if h.failed.Some? then ToBuffer(h.failed.value) else ToAdd(op, h.signers.value, h.plaintext.value)
  }

  function Executed(w: World, j: nat, taken: bool): World
    requires Consistent(w.system) && j < |w.atExecutor|
  {
    var x := w.atExecutor[j];
    var rest := w.(atExecutor := Without(w.atExecutor, j));
    if !taken then rest.(lost := w.lost + [x.op]) else Handled(rest, RequestFor(x))
  }

  function Moves(w: World, moves: seq<Move>): (r: World)
    requires Consistent(w.system)
    ensures Consistent(r.system)
  {
    if moves == [] then w else Moved(Moves(w, moves[..|moves| - 1]), moves[|moves| - 1])
  }

  // ---------------------------------------------------------------- every message is in one place

  /** The messages that are on their way, wait for the opening, are lost, or were handled by the channel. */
  function Placed(w: World): multiset<Action> {
    Actions(w.atDecryptor) + WaitingActions(w.atExecutor) + Actions(InBuffer(w.system)) + Actions(w.lost) + multiset(Messages(w.handled))
  }

  /** What waits to be added has the issuer, the certifier and the payload of its operation. */
  predicate Truthful(x: Waiting) {
    x.ToAdd? ==> x.signers.issuerId == x.op.issuerId && x.signers.certifierId == x.op.certifierId && x.message == x.op.payload
  }

  predicate AllTruthful(xs: seq<Waiting>) {
    forall i :: 0 <= i < |xs| ==> Truthful(xs[i])
  }

  predicate Holds(id: string, w: World) {
    && w.system == Run(Initial(id), w.handled)
    && Actions(w.arrived) == Placed(w)
    && AllTruthful(w.atExecutor)
  }

  function Carried(rq: Request): multiset<Action> {
    if rq.MessageRequest? then multiset{rq.message} else multiset{}
  }

  /** A request neither makes nor destroys operations: it adds what it brings, and an opening shares out
      what waited. */
  lemma RequestConserves(s: System, rq: Request)
    requires Consistent(s) && !s.crashed
    ensures
      Actions(FedBy(s, rq)) + Actions(UnfedBy(s, rq)) + Actions(InBuffer(Step(s, rq).0))
      == Actions(InBuffer(s)) + Actions(Arrival(rq))
  {
    WhereTheyGo(s, rq);
    hide Step, Actions, FedBy, UnfedBy, InBuffer, Arrival;
    ActionsOfFew(Operation(AddMessageType, 0, "", "", "", false));
    ActionsAdd(InBuffer(s), Arrival(rq));
    ActionsAdd(FedBy(s, rq), UnfedBy(s, rq));
  }

  lemma WhereTheyGo(s: System, rq: Request)
    requires Consistent(s) && !s.crashed
    ensures
      var s' := Step(s, rq).0;
      if !s.channel.state.Buffered? then
        FedBy(s, rq) == Arrival(rq) && UnfedBy(s, rq) == [] && InBuffer(s) == [] && InBuffer(s') == []
      else if s'.channel.state.Buffered? then
        FedBy(s, rq) == [] && UnfedBy(s, rq) == [] && InBuffer(s') == InBuffer(s) + Arrival(rq)
      else
        FedBy(s, rq) + UnfedBy(s, rq) == InBuffer(s) && InBuffer(s') == [] && Arrival(rq) == []
  {
    StepFeeds(s, rq);
    hide Step, CutShort;
  }

  lemma HandledPlaces(w: World, rq: Request)
    requires Consistent(w.system) && !w.system.crashed
    ensures Placed(Handled(w, rq)) == Placed(w) + Actions(Arrival(rq)) + Carried(rq)
  {
    hide Step, Actions, Messages, FedBy, UnfedBy, InBuffer, WaitingActions, Arrival, Carried;
    MessagesMore(w.handled, rq);
    RequestConserves(w.system, rq);
    ActionsAdd(w.atDecryptor, FedBy(w.system, rq));
    ActionsAdd(w.lost, UnfedBy(w.system, rq));
    var r := Handled(w, rq);
    var fed, unfed := Actions(FedBy(w.system, rq)), Actions(UnfedBy(w.system, rq));
    assert Actions(r.atDecryptor) == Actions(w.atDecryptor) + fed && Actions(r.lost) == Actions(w.lost) + unfed;
    forall a ensures Placed(r)[a] == (Placed(w) + Actions(Arrival(rq)) + Carried(rq))[a] {
      assert (fed + unfed + Actions(InBuffer(r.system)))[a] == (Actions(InBuffer(w.system)) + Actions(Arrival(rq)))[a];
    }
  }

  lemma MessagesMore(rqs: seq<Request>, rq: Request)
    ensures multiset(Messages(rqs + [rq])) == multiset(Messages(rqs)) + Carried(rq)
  {
    assert (rqs + [rq])[..|rqs|] == rqs;
  }

  lemma HandledHolds(id: string, w: World, rq: Request)
    requires Holds(id, w) && !w.system.crashed && Actions(Arrival(rq)) + Carried(rq) == multiset{}
    ensures Holds(id, Handled(w, rq))
  {
    RunMore(id, w.handled, rq);
    HandledPlaces(w, rq);
    hide Step, Run, Placed, Actions;
  }

  lemma RunMore(id: string, handled: seq<Request>, rq: Request)
    ensures Run(Initial(id), handled + [rq]) == Step(Run(Initial(id), handled), rq).0
  {
    assert (handled + [rq])[..|handled|] == handled;
  }

  lemma DecryptedHolds(id: string, w: World, i: nat, decrypts: bool, verifies: bool, accepted: bool)
    requires Holds(id, w) && i < |w.atDecryptor|
    ensures Holds(id, Decrypted(w, i, decrypts, verifies, accepted))
  {
    var op := w.atDecryptor[i];
    var verdict := D.Decision(op, true, decrypts, verifies);
    if verdict.Refused? || !accepted {
      hide Placed, Run, Without, AllTruthful, D.Decision;
      DroppedThere(w, i);
    } else {
      HandedOverTruthfully(op, decrypts, verifies);
      hide Placed, Run, Without, AllTruthful, Truthful, OnItsWay, D.Decision;
      OneMoreTruthful(w.atExecutor, OnItsWay(op, verdict.handover));
      HandedOn(w, i, OnItsWay(op, verdict.handover));
    }
  }

  lemma DroppedThere(w: World, i: nat)
    requires i < |w.atDecryptor|
    ensures Placed(w.(atDecryptor := Without(w.atDecryptor, i), lost := w.lost + [w.atDecryptor[i]])) == Placed(w)
  {
    hide Actions, WaitingActions, Messages, InBuffer, Without;
    ActionsWithout(w.atDecryptor, i);
    ActionsAdd(w.lost, [w.atDecryptor[i]]);
    ActionsOfFew(w.atDecryptor[i]);
  }

  lemma HandedOn(w: World, i: nat, x: Waiting)
    requires i < |w.atDecryptor| && ActionOf(x.op) == ActionOf(w.atDecryptor[i])
    ensures Placed(w.(atDecryptor := Without(w.atDecryptor, i), atExecutor := w.atExecutor + [x])) == Placed(w)
  {
    hide Actions, WaitingActions, Messages, InBuffer, Without;
    ActionsWithout(w.atDecryptor, i);
    WaitingAdd(w.atExecutor, [x]);
    WaitingOfOne(x);
  }

  /** Whatever the keys make of it, an operation is handed over as itself. */
  lemma HandedOverTruthfully(op: Operation, decrypts: bool, verifies: bool)
    requires D.Decision(op, true, decrypts, verifies).Passed?
    ensures
      var x := OnItsWay(op, D.Decision(op, true, decrypts, verifies).handover);
      Truthful(x) && ActionOf(x.op) == ActionOf(op)
  {
  }

  lemma OneMoreTruthful(xs: seq<Waiting>, x: Waiting)
    requires AllTruthful(xs) && Truthful(x)
    ensures AllTruthful(xs + [x])
  {
  }

  lemma ExecutedHolds(id: string, w: World, j: nat, taken: bool)
    requires Holds(id, w) && j < |w.atExecutor| && !w.system.crashed
    ensures Holds(id, Executed(w, j, taken))
  {
    if taken {
      TakenHolds(id, w, j);
    } else {
      WaitingWithout(w.atExecutor, j);
      ActionsOfFew(w.atExecutor[j].op);
      OthersTruthful(w.atExecutor, j);
      hide Actions, WaitingActions, Messages, InBuffer, Run, Without, AllTruthful;
      ActionsAdd(w.lost, [w.atExecutor[j].op]);
    }
  }

  lemma OthersTruthful(xs: seq<Waiting>, i: nat)
    requires AllTruthful(xs) && i < |xs|
    ensures Truthful(xs[i]) && AllTruthful(Without(xs, i))
  {
  }

  lemma TakenHolds(id: string, w: World, j: nat)
    requires Holds(id, w) && j < |w.atExecutor| && !w.system.crashed
    ensures Holds(id, Executed(w, j, true))
  {
    var x := w.atExecutor[j];
    RunMore(id, w.handled, RequestFor(x));
    OthersTruthful(w.atExecutor, j);
    RequestBrings(x);
    hide AllTruthful, Actions, WaitingActions, Messages, InBuffer, Run, Without, Step, FedBy, UnfedBy, RequestFor, Placed, Arrival, Carried;
    HandledPlaces(w.(atExecutor := Without(w.atExecutor, j)), RequestFor(x));
    TakenOut(w, j);
  }

  /** The request made of what waits is the message of its operation, or the buffering of it. */
  lemma RequestBrings(x: Waiting)
    requires Truthful(x)
    ensures Actions(Arrival(RequestFor(x))) + Carried(RequestFor(x)) == multiset{ActionOf(x.op)}
    ensures RequestFor(x) ==
              if x.ToAdd? then MessageRequest(Action(x.op.issuerId, x.op.certifierId, x.op.timestamp), x.op.payload)
              else BufferRequest(x.op, true)
  {
    ActionsOfFew(Marked(x.op));
  }

  lemma TakenOut(w: World, j: nat)
    requires j < |w.atExecutor|
    ensures Placed(w) == Placed(w.(atExecutor := Without(w.atExecutor, j))) + multiset{ActionOf(w.atExecutor[j].op)}
  {
    hide Actions, WaitingActions, Messages, InBuffer, Without;
    WaitingWithout(w.atExecutor, j);
  }

  /** In every interleaving, whatever the keys and the components do, each message that arrived is in
      exactly one place, once, with the issuer and the certifier it arrived with. */
  lemma {:induction false} EveryRunHolds(id: string, moves: seq<Move>)
    ensures Holds(id, Moves(Begin(id), moves))
  {
    if moves == [] {
      ActionsOfFew(Operation(AddMessageType, 0, "", "", "", false));
    } else {
      EveryRunHolds(id, moves[..|moves| - 1]);
      MoveHolds(id, Moves(Begin(id), moves[..|moves| - 1]), moves[|moves| - 1]);
    }
  }

  lemma MoveHolds(id: string, w: World, m: Move)
    requires Holds(id, w)
    ensures Holds(id, Moved(w, m))
  {
    hide Decrypted, Executed, Handled, Run, Holds;
    if Enabled(w, m) {
      match m {
        case Arrive(op) => ArrivedHolds(id, w, op);
        case Decrypt(i, decrypts, verifies, accepted) => DecryptedHolds(id, w, i, decrypts, verifies, accepted);
        case Execute(j, taken) => ExecutedHolds(id, w, j, taken);
        case GrantOpen(o) => HandledHolds(id, w, o);
        case GrantClose(a) => HandledHolds(id, w, CloseRequest(a));
      }
    }
  }

  lemma ArrivedHolds(id: string, w: World, op: Operation)
    requires Holds(id, w)
    ensures Holds(id, w.(atDecryptor := w.atDecryptor + [op], arrived := w.arrived + [op]))
  {
    hide Actions, WaitingActions, Messages, InBuffer, Run;
    ActionsOfFew(op);
    ActionsAdd(w.atDecryptor, [op]);
    ActionsAdd(w.arrived, [op]);
  }

  /** Every message the channel was given has the issuer, the certifier and the time of an operation that
      arrived. */
  lemma HandledMessagesArrived(id: string, moves: seq<Move>, a: Action)
    requires a in Messages(Moves(Begin(id), moves).handled)
    ensures
      var arrived := Moves(Begin(id), moves).arrived;
      exists i :: 0 <= i < |arrived| && arrived[i].issuerId == a.issuerId
                  && arrived[i].certifierId == a.certifierId && arrived[i].timestamp == a.timestamp
  {
    EveryRunHolds(id, moves);
    var w := Moves(Begin(id), moves);
    hide Moves, Run, Actions, Messages, WaitingActions, InBuffer;
    assert a in Actions(w.arrived) by {
      assert a in multiset(Messages(w.handled));
    }
    ActionsHaveOperations(w.arrived, a);
  }

  lemma {:induction false} ActionsHaveOperations(ops: seq<Operation>, a: Action)
    requires a in Actions(ops)
    ensures exists i :: 0 <= i < |ops| && ops[i].issuerId == a.issuerId
                        && ops[i].certifierId == a.certifierId && ops[i].timestamp == a.timestamp
  {
    var n := |ops| - 1;
    if a != ActionOf(ops[n]) {
      ActionsHaveOperations(ops[..n], a);
      var i :| 0 <= i < n && ops[..n][i].issuerId == a.issuerId
               && ops[..n][i].certifierId == a.certifierId && ops[..n][i].timestamp == a.timestamp;
      assert ops[i] == ops[..n][i];
    }
  }

  // ---------------------------------------------------------------- one operation among the others

  /** The way of one operation through buffering is its part of these moves: at the decryptor ... */
  lemma JourneysFollowDecrypting(w: World, i: nat, c: D.Choice, entries: nat)
    requires i < |w.atDecryptor|
    ensures
      var w' := Decrypted(w, i, c.decrypts, c.verifies, c.accepted);
      var j := D.Step(D.Journey(D.AtDecryptor(w.atDecryptor[i], true), entries), c);
      && j.entries == entries
      && w'.atDecryptor == Without(w.atDecryptor, i)
      && (if j.place.Finished? then w'.lost == w.lost + [w.atDecryptor[i]] && w'.atExecutor == w.atExecutor
          else
            && j.place.AtExecutor? && w'.lost == w.lost && |w'.atExecutor| == |w.atExecutor| + 1
            && var x := w'.atExecutor[|w.atExecutor|];
               x.op == j.place.op && x.ToBuffer? == j.place.failed)
  {
    hide Without;
  }

  /** ... at the executor, from which a failed one goes into the buffer or back to the decryptor ... */
  lemma JourneysFollowExecuting(w: World, k: nat, c: D.Choice, entries: nat)
    requires Consistent(w.system) && !w.system.crashed && k < |w.atExecutor|
    requires c.channelBuffered == w.system.channel.state.Buffered?
    ensures
      var x, w' := w.atExecutor[k], Executed(w, k, c.accepted);
      var j := D.Step(D.Journey(D.AtExecutor(x.op, x.ToBuffer?), entries), c);
      if !c.accepted then j == D.Journey(D.Finished, entries) && w'.lost == w.lost + [x.op]
      else if x.ToAdd? then j == D.Journey(D.Finished, entries) && w'.handled == w.handled + [RequestFor(x)]
      else if j.place.InBuffer? then
        j.entries == entries && c.channelBuffered && w'.system.buffer == w.system.buffer + [j.place.op]
      else
        && j.place.AtDecryptor? && j.place.isVerified && j.entries == entries + 1
        && !c.channelBuffered && w'.atDecryptor == w.atDecryptor + [j.place.op]
  {
    hide Without;
    if c.accepted {
      WhereTheyGo(w.system, RequestFor(w.atExecutor[k]));
    }
  }

  /** ... and in the buffer, from which an opening hands it back unless it was cut short before its turn. */
  lemma JourneysFollowOpening(w: World, o: Request, k: nat, c: D.Choice, entries: nat)
    requires Consistent(w.system) && !w.system.crashed && w.system.channel.state.Buffered? && k < |w.system.buffer|
    requires !Step(w.system, o).0.channel.state.Buffered? && (c.accepted <==> k < |FedBy(w.system, o)|)
    ensures
      var op, w' := w.system.buffer[k], Handled(w, o);
      var j := D.Step(D.Journey(D.InBuffer(op), entries), c);
      if c.accepted then
        && j == D.Journey(D.AtDecryptor(op, true), entries + 1)
        && |w.atDecryptor| + k < |w'.atDecryptor| && w'.atDecryptor[|w.atDecryptor| + k] == op
      else
        j == D.Journey(D.InBuffer(op), entries) && op in w'.lost
  {
    WhereTheyGo(w.system, o);
    hide Step, FedBy, UnfedBy;
    var fed, unfed := FedBy(w.system, o), UnfedBy(w.system, o);
    assert w.system.buffer == fed + unfed;
    if k >= |fed| {
      assert w.system.buffer[k] == unfed[k - |fed|];
      assert Handled(w, o).lost[|w.lost| + (k - |fed|)] == unfed[k - |fed|];
    }
  }
}
