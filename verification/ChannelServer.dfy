/** The channel, message and listener daemons, acting on one channel one request at a time. */
module ChannelServer {
  import opened Common
  import opened ChannelRecord
  import opened Operations

  datatype EventKind = OpenEvent | MessageEvent | CloseEvent
  datatype Event = Event(kind: EventKind, position: nat, timestamp: Time, data: string)
  type SubscriberId = nat

  /** The listeners of a channel: queue subscribers, their certifiers, and what each was sent so far. */
  datatype Listeners = Listeners(
    queue: set<SubscriberId>,
    certifiers: map<SubscriberId, string>,
    inboxes: map<SubscriberId, seq<Event>>)

  /** Everything the daemons keep about one channel, and what they sent out. */
  datatype System = System(
    channel: Channel,
    buffer: seq<Operation>,
    listeners: Option<Listeners>,
    nextId: SubscriberId,
    fed: seq<Operation>,
    crashed: bool)

  /** Requests, with what the environment decides: how many fed operations the decryptor answers,
      and the order the sort leaves early closures in. */
  datatype Request =
    | OpenRequest(opening: Action, permissions: Permissions, keyId: string, answered: nat, order: seq<Action>)
    | CloseRequest(closure: Action)
    | MessageRequest(message: Action, data: string)
    | BufferRequest(operation: Operation, answer: bool)
    | SubscribeRequest(certifierId: string)
    | UnsubscribeRequest(subscriberId: SubscriberId)

  datatype Result = Success | Failure | BufferError | Dropped | Unauthorized

  // ---------------------------------------------------------------- specification

  function Initial(id: string): (s: System)
    ensures Consistent(s)
  {
    System(Empty(id), [], None, 0, [], false)
  }

  predicate Consistent(s: System) {
    && WellFormed(s.channel)
    && !s.channel.state.Inconsistent?
    && (s.listeners.Some? ==> ListenersValid(s.listeners.value, s.nextId))
  }

  predicate ListenersValid(l: Listeners, nextId: SubscriberId) {
    && l.queue <= l.inboxes.Keys
    && l.certifiers.Keys == l.queue
    && forall i :: i in l.inboxes ==> i < nextId
  }

  const NO_LISTENERS := Listeners({}, map[], map[])

  function Delivered(l: Listeners, e: Event): Listeners {
    l.(inboxes := map i | i in l.inboxes :: if i in l.queue then l.inboxes[i] + [e] else l.inboxes[i])
  }

  /** Publishing without a listeners record is a failed type assertion, which ends the program. */
  function Published(s: System, e: Event): (r: System)
    ensures Consistent(s) ==> Consistent(r)
    ensures r.channel == s.channel
  {
    if s.listeners.None? then s.(crashed := true)
    else s.(listeners := Some(Delivered(s.listeners.value, e)))
  }

  function Readers(l: Listeners, p: Permissions): set<SubscriberId> {
    set i | i in l.certifiers && MayRead(p, l.certifiers[i])
  }

  function Pruned(l: Listeners, p: Permissions): Listeners {
    var denied := l.certifiers.Keys - Readers(l, p);
    l.(queue := l.queue - denied, certifiers := l.certifiers - denied)
  }

  function Members(ids: seq<SubscriberId>): set<SubscriberId> {
    set i | i in ids
  }

  function Fetched(l: Option<Listeners>): Listeners {
    if l.None? then NO_LISTENERS else l.value
  }

  /** Puts an action in front of the first one of a list that is not earlier. */
  function Inserted(a: Action, s: seq<Action>): (r: seq<Action>)
    ensures multiset(r) == multiset(s) + multiset{a}
  {
    if s == [] || a.timestamp <= s[0].timestamp then [a] + s
    else
      assert s == [s[0]] + s[1..];
      [s[0]] + Inserted(a, s[1..])
  }

  lemma {:induction false} InsertedSorts(a: Action, s: seq<Action>)
    requires SortedByTime(s)
    ensures SortedByTime(Inserted(a, s))
  {
    if s != [] && s[0].timestamp < a.timestamp {
      InsertedSorts(a, s[1..]);
      var r := Inserted(a, s[1..]);
      forall i | 0 <= i < |r| ensures s[0].timestamp <= r[i].timestamp {
        assert r[i] in multiset(r);
        assert r[i] == a || r[i] in s[1..];
      }
    }
  }

  function TimeSorted(attempts: seq<Action>): (r: seq<Action>)
    ensures Arranges(r, attempts)
  {
    if attempts == [] then []
    else
      assert attempts == [attempts[0]] + attempts[1..];
      InsertedSorts(attempts[0], TimeSorted(attempts[1..]));
      Inserted(attempts[0], TimeSorted(attempts[1..]))
  }

  /** The proposed order when the sort could have produced it, and some sorted order otherwise. */
  function Arranged(attempts: seq<Action>, order: seq<Action>): (r: seq<Action>)
    ensures Arranges(r, attempts)
    ensures Arranges(order, attempts) ==> r == order
  {
    if multiset(order) == multiset(attempts) && SortedByTime(order) then order else TimeSorted(attempts)
  }

  function Fed(buffer: seq<Operation>, answered: nat): seq<Operation> {
    if answered < |buffer| then buffer[..answered + 1] else buffer
  }

  function OpenStep(s: System, rq: Request): (r: (System, Result))
    requires Consistent(s) && rq.OpenRequest?
    ensures Consistent(r.0)
  {
    if !CanOpen(s.channel, Some(rq.opening), Some(rq.permissions), rq.keyId) then (s, Failure)
    else
      var c := Opening(s.channel, s.channel.id, Some(rq.opening), Some(rq.permissions), rq.keyId);
      var s1 := s.(channel := c, fed := s.fed + Fed(s.buffer, rq.answered));
      if rq.answered < |s.buffer| then (s1, BufferError)
      else
        var s2 := s1.(buffer := [], listeners := Some(Pruned(Fetched(s.listeners), rq.permissions)));
        var s3 := Published(s2, Event(OpenEvent, 0, rq.opening.timestamp, ""));
        var (c', applied) := Applying(c, Arranged(c.attempts, rq.order));
        var s4 := s3.(channel := c');
        (if applied then Published(s4, Event(CloseEvent, 0, c'.duration.value.closedAt, "")) else s4, Success)
  }

  function CloseStep(s: System, rq: Request): (r: (System, Result))
    requires Consistent(s) && rq.CloseRequest?
    ensures Consistent(r.0)
  {
    var outcome := Closing(s.channel, Some(rq.closure));
    if !outcome.ok then (s, Failure)
    else
      var s1 := s.(channel := outcome.channel);
      (if outcome.channel.state.Closed?
       then Published(s1, Event(CloseEvent, outcome.remaining, outcome.channel.duration.value.closedAt, ""))
       else s1, Success)
  }

  function MessageStep(s: System, rq: Request): (r: (System, Result))
    requires Consistent(s) && rq.MessageRequest?
    ensures Consistent(r.0)
  {
    var outcome := Adding(s.channel, rq.message);
    if !outcome.ok then (s, Dropped)
    else (Published(s.(channel := outcome.channel), Event(MessageEvent, outcome.position, rq.message.timestamp, rq.data)), Success)
  }

  function BufferStep(s: System, rq: Request): (r: (System, Result))
    requires Consistent(s) && rq.BufferRequest?
    ensures Consistent(r.0)
  {
    var op := Marked(rq.operation);
    if s.channel.state.Buffered? then (s.(buffer := s.buffer + [op]), Success)
    else (s.(fed := s.fed + [op]), if rq.answer then Success else BufferError)
  }

  function SubscribeStep(s: System, rq: Request): (r: (System, Result))
    requires Consistent(s) && rq.SubscribeRequest?
    ensures Consistent(r.0)
  {
    if s.channel.permissions.Some? && !MayRead(s.channel.permissions.value, rq.certifierId) then (s, Unauthorized)
    else
      var l := Fetched(s.listeners);
      (s.(nextId := s.nextId + 1,
          listeners := Some(Listeners(l.queue + {s.nextId}, l.certifiers[s.nextId := rq.certifierId], l.inboxes[s.nextId := []]))),
       Success)
  }

  function UnsubscribeStep(s: System, rq: Request): (r: (System, Result))
    requires Consistent(s) && rq.UnsubscribeRequest?
    ensures Consistent(r.0)
  {
    if s.listeners.None? then (s, Failure)
    else
      var l := s.listeners.value;
      (s.(listeners := Some(l.(queue := l.queue - {rq.subscriberId}, certifiers := l.certifiers - {rq.subscriberId}))),
       if rq.subscriberId in l.queue then Success else Failure)
  }

  /** One request, handled under the lock of the channel. A crashed program handles nothing. */
  function Step(s: System, rq: Request): (r: (System, Result))
    requires Consistent(s)
    ensures Consistent(r.0)
  {
    if s.crashed then (s, Failure)
    else
      match rq
      case OpenRequest(_, _, _, _, _) => OpenStep(s, rq)
      case CloseRequest(_) => CloseStep(s, rq)
      case MessageRequest(_, _) => MessageStep(s, rq)
      case BufferRequest(_, _) => BufferStep(s, rq)
      case SubscribeRequest(_) => SubscribeStep(s, rq)
      case UnsubscribeRequest(_) => UnsubscribeStep(s, rq)
  }

  /** Requests in the order their turns on the channel lock come up. */
  function Run(s: System, rqs: seq<Request>): (r: System)
    requires Consistent(s)
    ensures Consistent(r)
  {
    if rqs == [] then s
    else Step(Run(s, rqs[..|rqs| - 1]), rqs[|rqs| - 1]).0
  }

  lemma {:induction false} RunSplits(s: System, a: seq<Request>, b: seq<Request>)
    requires Consistent(s)
    ensures Run(s, a + b) == Run(Run(s, a), b)
  {
    if b == [] {
      assert a + b == a;
    } else {
      var n := |b| - 1;
      assert (a + b)[..|a + b| - 1] == a + b[..n];
      RunSplits(s, a, b[..n]);
    }
  }

  // ---------------------------------------------------------------- the daemons

  class ListenersRecord {
    var queue: set<SubscriberId>
    var listenerCertifier: map<SubscriberId, string>
    var inboxes: map<SubscriberId, seq<Event>>

    ghost function View(): Listeners
      reads this
    {
      Listeners(queue, listenerCertifier, inboxes)
    }

    constructor ()
      ensures View() == NO_LISTENERS
    {
      queue, listenerCertifier, inboxes := {}, map[], map[];
    }

    method Subscribe(id: SubscriberId, certifierId: string)
      modifies this
      ensures View() == Listeners(old(queue) + {id}, old(listenerCertifier)[id := certifierId], old(inboxes)[id := []])
    {
      queue := queue + {id};
      inboxes := inboxes[id := []];
      listenerCertifier := listenerCertifier[id := certifierId];
    }

    method Unsubscribe(id: SubscriberId) returns (ok: bool)
      modifies this
      ensures ok == (id in old(queue))
      ensures View() == old(View()).(queue := old(queue) - {id}, certifiers := old(listenerCertifier) - {id})
    {
      listenerCertifier := listenerCertifier - {id};
      ok := id in queue;
      queue := queue - {id};
    }

    method UnsubscribeUnauthorized(permissions: Permissions)
      modifies this
      ensures View() == Pruned(old(View()), permissions)
      ensures inboxes == old(inboxes)
      ensures forall i :: i in listenerCertifier <==>
                            && i in old(listenerCertifier)
                            && old(listenerCertifier)[i] in permissions && permissions[old(listenerCertifier)[i]].read
      ensures forall i :: i in listenerCertifier ==> listenerCertifier[i] == old(listenerCertifier)[i]
      ensures forall i :: i in queue <==> i in old(queue) && (i in old(listenerCertifier) ==> i in listenerCertifier)
    {
      ghost var denied := listenerCertifier.Keys - Readers(View(), permissions);
      var unauthorized: seq<SubscriberId> := [];
      var rest := listenerCertifier.Keys;
      while rest != {}
        invariant rest <= listenerCertifier.Keys
        invariant forall i :: i in unauthorized <==> i in denied - rest
        decreases rest
      {
        var i :| i in rest;
        if !(listenerCertifier[i] in permissions && permissions[listenerCertifier[i]].read) {
          unauthorized := unauthorized + [i];
        }
        rest := rest - {i};
      }
      var k := 0;
      while k < |unauthorized|
        invariant 0 <= k <= |unauthorized|
        invariant inboxes == old(inboxes)
        invariant queue == old(queue) - Members(unauthorized[..k])
        invariant listenerCertifier == old(listenerCertifier) - Members(unauthorized[..k])
      {
        assert unauthorized[..k + 1] == unauthorized[..k] + [unauthorized[k]];
        assert Members(unauthorized[..k + 1]) == Members(unauthorized[..k]) + {unauthorized[k]};
        var _ := Unsubscribe(unauthorized[k]);
        k := k + 1;
      }
      assert unauthorized[..k] == unauthorized;
      assert Members(unauthorized) == denied;
    }

    method Publish(e: Event)
      modifies this
      ensures View() == Delivered(old(View()), e)
      ensures queue == old(queue) && listenerCertifier == old(listenerCertifier) && inboxes.Keys == old(inboxes).Keys
      ensures forall i :: i in inboxes ==> inboxes[i] == if i in queue then old(inboxes)[i] + [e] else old(inboxes)[i]
    {
      inboxes := map i | i in inboxes :: if i in queue then inboxes[i] + [e] else inboxes[i];
    }
  }

  class Server {
    const record: Record
    var buffer: seq<Operation>
    var listeners: ListenersRecord?
    var nextId: SubscriberId
    var fed: seq<Operation>
    var crashed: bool

    ghost function Repr(): set<object>
      reads this
    {
      {this, record} + if listeners == null then {} else {listeners}
    }

    ghost function View(): System
      reads this, record, listeners
    {
      System(record.Value(), buffer, if listeners == null then None else Some(listeners.View()), nextId, fed, crashed)
    }

    ghost predicate Valid()
      reads this, record, listeners
    {
      Consistent(View())
    }

    constructor (id: string)
      ensures Valid() && View() == Initial(id) && fresh(Repr())
    {
      record := new Record(id);
      buffer, listeners, nextId, fed, crashed := [], null, 0, [], false;
    }

    method Publish(e: Event)
      modifies this`crashed, listeners
      ensures View() == Published(old(View()), e)
      ensures crashed == (old(crashed) || listeners == null)
      ensures listeners != null ==>
                && listeners.queue == old(listeners.queue) && listeners.inboxes.Keys == old(listeners.inboxes).Keys
                && forall i :: i in listeners.inboxes ==>
                     listeners.inboxes[i] == old(listeners.inboxes)[i] + if i in listeners.queue then [e] else []
    {
      if listeners == null {
        crashed := true;
      } else {
        listeners.Publish(e);
      }
    }

    method GetOrMakeListeners() returns (l: ListenersRecord)
      modifies this`listeners
      ensures l == listeners && (l == old(listeners) || fresh(l))
      ensures View() == old(View()).(listeners := Some(Fetched(old(View()).listeners)))
    {
      if listeners == null {
        listeners := new ListenersRecord();
      }
      l := listeners;
    }

    /** Hands the buffered operations to the decryptor until one is left unanswered. */
    method Feed(answered: nat) returns (ok: bool)
      modifies this`fed
      ensures ok == (answered >= |buffer|)
      ensures fed == old(fed) + Fed(buffer, answered)
      ensures fed == old(fed) + if answered < |buffer| then buffer[..answered + 1] else buffer
    {
      var i := 0;
      while i < |buffer|
        invariant 0 <= i <= |buffer| && i <= answered
        invariant fed == old(fed) + buffer[..i]
      {
        fed := fed + [buffer[i]];
        assert buffer[..i + 1] == buffer[..i] + [buffer[i]];
        if i >= answered {
          return false;
        }
        i := i + 1;
      }
      assert buffer[..i] == buffer;
      return true;
    }

    method OpenChannel(rq: Request) returns (result: Result)
      requires Valid() && !crashed && rq.OpenRequest?
      requires Arranges(rq.order, record.closureAttempts)
      modifies this, record, listeners
      ensures Valid() && fresh(Repr() - old(Repr()))
      ensures (View(), result) == Step(old(View()), rq)
      ensures result == Failure <==>
                || !old(record.state).Buffered? || rq.opening.timestamp == ZERO_TIME
                || rq.permissions == map[] || rq.keyId == ""
      ensures result == BufferError <==> result != Failure && rq.answered < |old(buffer)|
      ensures result == Failure ==> View() == old(View())
      ensures result != Failure ==>
                && record.opening == Some(rq.opening) && record.permissions == Some(rq.permissions)
                && record.keyId == rq.keyId && record.id == old(record.id)
                && fed == old(fed) + if rq.answered < |old(buffer)| then old(buffer)[..rq.answered + 1] else old(buffer)
      ensures result == BufferError ==>
                && record.state.Open? && record.closureAttempts == old(record.closureAttempts)
                && buffer == old(buffer) && View().listeners == old(View()).listeners
      ensures result == Success ==>
                && buffer == [] && record.closureAttempts == [] && listeners != null
                && (forall i :: i in listeners.queue <==>
                      && old(View()).listeners.Some? && i in old(View()).listeners.value.queue
                      && old(View()).listeners.value.certifiers[i] in rq.permissions
                      && rq.permissions[old(View()).listeners.value.certifiers[i]].read)
                && (forall i :: i in listeners.queue ==>
                      listeners.inboxes[i] == old(View()).listeners.value.inboxes[i] + [Event(OpenEvent, 0, rq.opening.timestamp, "")]
                        + if record.closure.Some? then [Event(CloseEvent, 0, record.closure.value.timestamp, "")] else [])
    {
      var success := record.TryOpen(record.id, Some(rq.opening), Some(rq.permissions), rq.keyId);
      if !success {
        return Failure;
      }
      var answered := Feed(rq.answered);
      if !answered {
        return BufferError;
      }
      Announce(rq);
      return Success;
    }

    /** The rest of an opening for which all that waited was answered: only readers stay and are told of the
        opening, then of the closing if an early closure applies. */
    method Announce(rq: Request)
      requires Valid() && !crashed && rq.OpenRequest? && record.state.Open?
      requires record.permissions == Some(rq.permissions) && record.opening == Some(rq.opening)
      requires Arranges(rq.order, record.closureAttempts)
      modifies this, record, listeners
      ensures Valid() && fresh(Repr() - old(Repr()))
      ensures
        var c, s := old(record.Value()), old(View());
        var s2 := s.(buffer := [], listeners := Some(Pruned(Fetched(s.listeners), rq.permissions)));
        var s3 := Published(s2, Event(OpenEvent, 0, rq.opening.timestamp, ""));
        var (c', applied) := Applying(c, Arranged(c.attempts, rq.order));
        var s4 := s3.(channel := c');
        View() == if applied then Published(s4, Event(CloseEvent, 0, c'.duration.value.closedAt, "")) else s4
      ensures record.opening == old(record.opening) && record.permissions == old(record.permissions)
      ensures record.keyId == old(record.keyId) && record.id == old(record.id) && fed == old(fed)
      ensures
        && buffer == [] && record.closureAttempts == [] && listeners != null
        && (forall i :: i in listeners.queue <==>
              && old(View()).listeners.Some? && i in old(View()).listeners.value.queue
              && old(View()).listeners.value.certifiers[i] in rq.permissions
              && rq.permissions[old(View()).listeners.value.certifiers[i]].read)
        && (forall i :: i in listeners.queue ==>
              listeners.inboxes[i] == old(View()).listeners.value.inboxes[i] + [Event(OpenEvent, 0, rq.opening.timestamp, "")]
                + if record.closure.Some? then [Event(CloseEvent, 0, record.closure.value.timestamp, "")] else [])
    {
      hide Pruned, Fetched, Delivered, Arranged, FirstAdmissible, ClosedBy, Before;
      buffer := [];
      KeepReaders(rq.permissions);
      Publish(Event(OpenEvent, 0, record.duration.value.openedAt, ""));
      var applied := record.ApplyCloseAttempts(rq.order);
      if applied {
        Publish(Event(CloseEvent, 0, record.duration.value.closedAt, ""));
      }
    }

    method KeepReaders(permissions: Permissions)
      requires Valid()
      modifies this`listeners, listeners
      ensures Valid() && fresh(Repr() - old(Repr())) && listeners != null
      ensures View() == old(View()).(listeners := Some(Pruned(Fetched(old(View()).listeners), permissions)))
      ensures forall i :: i in listeners.queue <==>
                            && old(View()).listeners.Some? && i in old(View()).listeners.value.queue
                            && old(View()).listeners.value.certifiers[i] in permissions
                            && permissions[old(View()).listeners.value.certifiers[i]].read
      ensures forall i :: i in listeners.queue ==> listeners.inboxes[i] == old(View()).listeners.value.inboxes[i]
    {
      var l := GetOrMakeListeners();
      l.UnsubscribeUnauthorized(permissions);
    }

    method CloseChannel(rq: Request) returns (result: Result)
      requires Valid() && !crashed && rq.CloseRequest?
      modifies this, record, listeners
      ensures Valid() && fresh(Repr() - old(Repr()))
      ensures (View(), result) == Step(old(View()), rq)
      ensures result == Success || (result == Failure && View() == old(View()))
      ensures result == Success && old(record.state).Buffered? ==>
                && record.closureAttempts == old(record.closureAttempts) + [rq.closure]
                && View().listeners == old(View()).listeners && !crashed
      ensures result == Success && !old(record.state).Buffered? ==>
                record.closure == Some(rq.closure) && crashed == (listeners == null)
      ensures result == Success && !old(record.state).Buffered? && listeners != null ==>
                && listeners.queue == old(View()).listeners.value.queue
                && (forall i :: i in listeners.inboxes ==>
                      listeners.inboxes[i] == old(View()).listeners.value.inboxes[i]
                        + if i in listeners.queue then [Event(CloseEvent, |record.messageTimestamps|, rq.closure.timestamp, "")] else [])
    {
      var remaining, ok := record.TryClose(Some(rq.closure));
      if !ok {
        return Failure;
      }
      if record.state == Closed {
        Publish(Event(CloseEvent, remaining, record.duration.value.closedAt, ""));
      }
      return Success;
    }

    method AddMessage(rq: Request) returns (result: Result)
      requires Valid() && !crashed && rq.MessageRequest?
      modifies this, record, listeners
      ensures Valid() && fresh(Repr() - old(Repr()))
      ensures (View(), result) == Step(old(View()), rq)
      ensures result == Success || (result == Dropped && View() == old(View()))
      ensures result == Success ==>
                && record.messageTimestamps == old(record.messageTimestamps) + [rq.message.timestamp]
                && crashed == (listeners == null)
      ensures result == Success && listeners != null ==>
                && listeners.queue == old(View()).listeners.value.queue
                && var e := Event(MessageEvent, |Before(old(record.messageTimestamps), rq.message.timestamp)|, rq.message.timestamp, rq.data);
                   forall i :: i in listeners.inboxes ==>
                     listeners.inboxes[i] == old(View()).listeners.value.inboxes[i] + if i in listeners.queue then [e] else []
    {
      var position, ok := record.AddMessage(rq.message);
      if !ok {
        return Dropped;
      }
      Publish(Event(MessageEvent, position, rq.message.timestamp, rq.data));
      return Success;
    }

    method BufferOperation(rq: Request) returns (result: Result)
      requires Valid() && !crashed && rq.BufferRequest?
      modifies this
      ensures Valid() && fresh(Repr() - old(Repr()))
      ensures (View(), result) == Step(old(View()), rq)
      ensures old(record.state).Buffered? ==>
                result == Success && buffer == old(buffer) + [rq.operation.(buffered := true)] && fed == old(fed)
      ensures !old(record.state).Buffered? ==>
                && result == (if rq.answer then Success else BufferError)
                && buffer == old(buffer) && fed == old(fed) + [rq.operation.(buffered := true)]
    {
      var op := Marked(rq.operation);
      if record.state != Buffered {
        fed := fed + [op];
        return if rq.answer then Success else BufferError;
      }
      buffer := buffer + [op];
      return Success;
    }

    method Subscribe(rq: Request) returns (result: Result)
      requires Valid() && !crashed && rq.SubscribeRequest?
      modifies this, listeners
      ensures Valid() && fresh(Repr() - old(Repr()))
      ensures (View(), result) == Step(old(View()), rq)
      ensures result == Success || (result == Unauthorized && View() == old(View()))
      ensures result == Unauthorized <==>
                && record.permissions.Some?
                && !(rq.certifierId in record.permissions.value && record.permissions.value[rq.certifierId].read)
      ensures result == Success ==>
                && listeners != null && old(nextId) in listeners.queue
                && old(nextId) in listeners.listenerCertifier && listeners.listenerCertifier[old(nextId)] == rq.certifierId 
                && old(nextId) in listeners.inboxes && listeners.inboxes[old(nextId)] == []
    {
      hide WellFormed, Delivered, Pruned, Readers;
      var authorized := true;
      if record.permissions.Some? {
        authorized := rq.certifierId in record.permissions.value && record.permissions.value[rq.certifierId].read;
      }
      if !authorized {
        return Unauthorized;
      }
      var l := GetOrMakeListeners();
      l.Subscribe(nextId, rq.certifierId);
      nextId := nextId + 1;
      return Success;
    }

    method Unsubscribe(rq: Request) returns (result: Result)
      requires Valid() && !crashed && rq.UnsubscribeRequest?
      modifies listeners
      ensures Valid() && fresh(Repr() - old(Repr()))
      ensures (View(), result) == Step(old(View()), rq)
      ensures result == Success <==> old(View()).listeners.Some? && rq.subscriberId in old(View()).listeners.value.queue
      ensures result == Success || result == Failure
      ensures listeners != null ==>
                && listeners.queue == old(View()).listeners.value.queue - {rq.subscriberId}
                && listeners.inboxes == old(View()).listeners.value.inboxes
    {
      if listeners == null {
        return Failure;
      }
      var found := listeners.Unsubscribe(rq.subscriberId);
      return if found then Success else Failure;
    }
  }
}
