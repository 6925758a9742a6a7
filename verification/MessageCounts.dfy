/** Which messages some operations and requests stand for, and how often. */
module MessageCounts {
  import opened Common
  import opened ChannelRecord
  import opened Operations
  import opened ChannelServer

  /** What waits for the lock of its channel: a message with its verified signers and plaintext, to be added,
      or an operation that failed, to be buffered. */
  datatype Waiting =
    | ToAdd(op: Operation, signers: Signers, message: string)
    | ToBuffer(op: Operation)

  function ActionOf(op: Operation): Action {
    Action(op.issuerId, op.certifierId, op.timestamp)
  }

  function Without<T>(s: seq<T>, i: nat): seq<T>
    requires i < |s|
  {
    s[..i] + s[i + 1..]
  }

  /** The messages among some requests, in order. */
  function Messages(rqs: seq<Request>): seq<Action> {
    if rqs == [] then []
    else
      var n := |rqs| - 1;
      Messages(rqs[..n]) + (if rqs[n].MessageRequest? then [rqs[n].message] else [])
  }

  /** Which messages a list of operations stands for. */
  function Actions(ops: seq<Operation>): multiset<Action> {
    if ops == [] then multiset{} else Actions(ops[..|ops| - 1]) + multiset{ActionOf(ops[|ops| - 1])}
  }

  function WaitingActions(xs: seq<Waiting>): multiset<Action> {
    if xs == [] then multiset{} else WaitingActions(xs[..|xs| - 1]) + multiset{ActionOf(xs[|xs| - 1].op)}
  }

  lemma {:induction false} ActionsAdd(a: seq<Operation>, b: seq<Operation>)
    ensures Actions(a + b) == Actions(a) + Actions(b)
  {
    if b == [] {
      assert a + b == a;
    } else {
      assert (a + b)[..|a + b| - 1] == a + b[..|b| - 1];
      ActionsAdd(a, b[..|b| - 1]);
    }
  }

  lemma ActionsOfFew(op: Operation)
    ensures Actions([]) == multiset{} && Actions([op]) == multiset{ActionOf(op)}
  {
    assert [op][..0] == [];
  }

  lemma ActionsWithout(ops: seq<Operation>, i: nat)
    requires i < |ops|
    ensures Actions(ops) == Actions(Without(ops, i)) + multiset{ActionOf(ops[i])}
  {
    hide Actions;
    var a, x, b := ops[..i], [ops[i]], ops[i + 1..];
    assert ops == a + x + b;
    ActionsAdd(a + x, b);
    ActionsAdd(a, x);
    ActionsOfFew(ops[i]);
    ActionsAdd(a, b);
  }

  lemma {:induction false} WaitingAdd(a: seq<Waiting>, b: seq<Waiting>)
    ensures WaitingActions(a + b) == WaitingActions(a) + WaitingActions(b)
  {
    if b == [] {
      assert a + b == a;
    } else {
      assert (a + b)[..|a + b| - 1] == a + b[..|b| - 1];
      WaitingAdd(a, b[..|b| - 1]);
    }
  }

  lemma WaitingOfOne(x: Waiting)
    ensures WaitingActions([x]) == multiset{ActionOf(x.op)}
  {
    assert [x][..0] == [];
  }

  lemma WaitingWithout(xs: seq<Waiting>, i: nat)
    requires i < |xs|
    ensures WaitingActions(xs) == WaitingActions(Without(xs, i)) + multiset{ActionOf(xs[i].op)}
  {
    hide WaitingActions;
    var a, x, b := xs[..i], [xs[i]], xs[i + 1..];
    assert xs == a + x + b;
    WaitingAdd(a + x, b);
    WaitingAdd(a, x);
    WaitingOfOne(xs[i]);
    WaitingAdd(a, b);
  }

  lemma {:induction false} ActionsCount(ops: seq<Operation>)
    ensures |Actions(ops)| == |ops|
  {
    if ops != [] {
      ActionsCount(ops[..|ops| - 1]);
    }
  }
}
