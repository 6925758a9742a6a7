/** The record of one channel: opening, closing, early closures and message positions. */
module ChannelRecord {
  import opened Common

  datatype Action = Action(issuerId: string, certifierId: string, timestamp: Time)
  datatype Permission = Permission(read: bool, write: bool, close: bool)
  type Permissions = map<string, Permission>
  datatype Duration = Duration(openedAt: Time, closedAt: Time)
  datatype State = Buffered | Open | Closed | Inconsistent

  /** The value of a channel record between two method calls. */
  datatype Channel = Channel(
    id: string,
    keyId: string,
    permissions: Option<Permissions>,
    opening: Option<Action>,
    closure: Option<Action>,
    attempts: seq<Action>,
    duration: Option<Duration>,
    messages: seq<Time>,
    state: State)

  // ---------------------------------------------------------------- specification

  function Empty(id: string): Channel {
    Channel(id, "", None, None, None, [], None, [], Buffered)
  }

  predicate MayRead(p: Permissions, user: string) { user in p && p[user].read }
  predicate MayWrite(p: Permissions, user: string) { user in p && p[user].write }
  predicate MayClose(p: Permissions, user: string) { user in p && p[user].close }

  /** What holds of every record that is not marked inconsistent. */
  predicate WellFormed(c: Channel) {
    match c.state
    case Buffered =>
      c.permissions.None? && c.opening.None? && c.closure.None? && c.duration.None? && c.messages == []
    case Open =>
      Opened(c) && c.closure.None?
    case Closed =>
      && Opened(c)
      && c.closure.Some?
      && Admissible(c.opening.value, c.permissions.value, c.closure.value)
      && c.duration.value.closedAt == c.closure.value.timestamp
      && forall t :: t in c.messages ==> t <= c.duration.value.closedAt
    case Inconsistent => true
  }

  predicate Opened(c: Channel) {
    && c.permissions.Some? && |c.permissions.value| > 0
    && c.opening.Some? && c.opening.value.timestamp != ZERO_TIME
    && c.keyId != ""
    && c.duration.Some? && c.duration.value.openedAt == c.opening.value.timestamp
    && forall t :: t in c.messages ==> c.duration.value.openedAt <= t
  }

  /** A closure that an opening and its permissions allow, whatever was closed before. */
  predicate Admissible(opening: Action, p: Permissions, a: Action) {
    a.timestamp != ZERO_TIME && opening.timestamp <= a.timestamp && MayClose(p, a.certifierId)
  }

  /** A message that an opening and its permissions allow, whatever was closed before. */
  predicate Postable(opening: Action, p: Permissions, a: Action) {
    a.timestamp != ZERO_TIME && opening.timestamp <= a.timestamp && MayWrite(p, a.certifierId)
  }

  /** Closures are ranked by time, then by issuer. */
  predicate Outranks(a: Action, b: Action) {
    a.timestamp < b.timestamp || (a.timestamp == b.timestamp && Precedes(a.issuerId, b.issuerId))
  }

  /** The stored timestamps strictly before an instant, in storage order. */
  function Before(messages: seq<Time>, t: Time): (r: seq<Time>)
    ensures forall x :: x in r ==> x in messages && x < t
  {
    if messages == [] then []
    else
      var n := |messages| - 1;
      Before(messages[..n], t) + (if messages[n] < t then [messages[n]] else [])
  }

  /** What is stamped before the instant stays as often as it was stored, and nothing else does. */
  lemma {:induction false} BeforeCounts(messages: seq<Time>, t: Time, x: Time)
    ensures multiset(Before(messages, t))[x] == if x < t then multiset(messages)[x] else 0
  {
    if messages != [] {
      var n := |messages| - 1;
      BeforeCounts(messages[..n], t, x);
      assert messages == messages[..n] + [messages[n]];
    }
  }

  predicate CanOpen(c: Channel, opening: Option<Action>, permissions: Option<Permissions>, keyId: string) {
    && c.state.Buffered?
    && opening.Some? && opening.value.timestamp != ZERO_TIME
    && permissions.Some? && |permissions.value| > 0
    && keyId != ""
  }

  function Opening(c: Channel, id: string, opening: Option<Action>, permissions: Option<Permissions>, keyId: string): (r: Channel)
    requires WellFormed(c)
    ensures WellFormed(r)
  {
    if CanOpen(c, opening, permissions, keyId) then
      c.(id := id, keyId := keyId, opening := opening, permissions := permissions,
         duration := Some(Duration(opening.value.timestamp, ZERO_TIME)), state := Open)
    else c
  }

  datatype CloseOutcome = CloseOutcome(channel: Channel, remaining: nat, ok: bool)

  /** Whether a closure takes effect on a channel that is past its opening. */
  predicate Closes(c: Channel, a: Action)
    requires WellFormed(c) && (c.state.Open? || c.state.Closed?)
  {
    && Admissible(c.opening.value, c.permissions.value, a)
    && (c.state.Closed? ==> Outranks(a, c.closure.value))
  }

  function ClosedBy(c: Channel, a: Action): (r: Channel)
    requires WellFormed(c) && (c.state.Open? || c.state.Closed?) && Closes(c, a)
    ensures WellFormed(r)
  {
    c.(closure := Some(a), attempts := [], duration := Some(c.duration.value.(closedAt := a.timestamp)),
       messages := Before(c.messages, a.timestamp), state := Closed)
  }

  function Closing(c: Channel, closure: Option<Action>): (r: CloseOutcome)
    requires WellFormed(c)
    ensures WellFormed(r.channel)
    ensures r.channel.state.Inconsistent? <==> c.state.Inconsistent?
  {
    if c.state.Inconsistent? || closure.None? || closure.value.timestamp == ZERO_TIME then
      CloseOutcome(c, 0, false)
    else if c.state.Buffered? then
      CloseOutcome(c.(attempts := c.attempts + [closure.value]), 0, true)
    else if Closes(c, closure.value) then
      CloseOutcome(ClosedBy(c, closure.value), |Before(c.messages, closure.value.timestamp)|, true)
    else
      CloseOutcome(c, 0, false)
  }

  predicate SortedByTime(s: seq<Action>) {
    forall i, j :: 0 <= i < j < |s| ==> s[i].timestamp <= s[j].timestamp
  }

  /** What sort.Sort may leave behind: ties can end up in any order. */
  predicate Arranges(order: seq<Action>, attempts: seq<Action>) {
    multiset(order) == multiset(attempts) && SortedByTime(order)
  }

  /** The first closure of a list that an open channel accepts, or the length of the list. */
  function FirstAdmissible(opening: Action, p: Permissions, order: seq<Action>): (k: nat)
    ensures k <= |order|
    ensures k < |order| ==> Admissible(opening, p, order[k])
    ensures forall i :: 0 <= i < k ==> !Admissible(opening, p, order[i])
  {
    if order == [] then 0
    else if Admissible(opening, p, order[0]) then 0
    else 1 + FirstAdmissible(opening, p, order[1..])
  }

  /** The early closures, applied in the order the sort left them in. */
  function Applying(c: Channel, order: seq<Action>): (r: (Channel, bool))
    requires WellFormed(c)
    ensures WellFormed(r.0)
    ensures r.0.state.Inconsistent? <==> c.state.Inconsistent?
    ensures r.1 ==> r.0.state.Closed?
  {
    if !c.state.Open? || c.attempts == [] then (c, false)
    else
      var k := FirstAdmissible(c.opening.value, c.permissions.value, order);
      if k < |order| then (ClosedBy(c, order[k]), true) else (c.(attempts := []), false)
  }

  datatype AddOutcome = AddOutcome(channel: Channel, position: nat, ok: bool)

  predicate Accepts(c: Channel, a: Action)
    requires WellFormed(c)
  {
    && (c.state.Open? || c.state.Closed?)
    && Postable(c.opening.value, c.permissions.value, a)
    && (c.state.Closed? ==> a.timestamp <= c.duration.value.closedAt)
  }

  function Adding(c: Channel, a: Action): (r: AddOutcome)
    requires WellFormed(c)
    ensures WellFormed(r.channel) && r.channel.state == c.state
  {
    if Accepts(c, a) then
      AddOutcome(c.(messages := c.messages + [a.timestamp]), |Before(c.messages, a.timestamp)|, true)
    else AddOutcome(c, 0, false)
  }

  /** At one time the issuers decide which closure outranks the other. */
  lemma RanksInTurn(c: Channel, a: Action)
    requires WellFormed(c)
    ensures c.state.Closed? && c.closure.value.timestamp == a.timestamp ==>
              (Outranks(a, c.closure.value)
               <==> c.closure.value.issuerId != a.issuerId && !Precedes(c.closure.value.issuerId, a.issuerId))
  {
    if c.state.Closed? {
      IssuersRank(c.closure.value.issuerId, a.issuerId);
    }
  }

  lemma IssuersRank(a: string, b: string)
    ensures Precedes(b, a) <==> a != b && !Precedes(a, b)
  {
    PrecedesIsTotal(a, b);
    if Precedes(b, a) {
      PrecedesIsAsymmetric(b, a);
    }
  }

  // ---------------------------------------------------------------- the record

  class Record {
    var id: string
    var keyId: string
    var permissions: Option<Permissions>
    var opening: Option<Action>
    var closure: Option<Action>
    var closureAttempts: seq<Action>
    var duration: Option<Duration>
    var messageTimestamps: seq<Time>
    var state: State

    ghost function Value(): Channel
      reads this
    {
      Channel(id, keyId, permissions, opening, closure, closureAttempts, duration, messageTimestamps, state)
    }

    ghost predicate Valid()
      reads this
    {
      WellFormed(Value())
    }

    constructor (id: string)
      ensures Valid() && Value() == Empty(id)
    {
      this.id := id;
      keyId := "";
      permissions, opening, closure, duration := None, None, None, None;
      closureAttempts, messageTimestamps := [], [];
      state := Buffered;
    }

    method TryOpen(id: string, opening: Option<Action>, permissions: Option<Permissions>, keyId: string) returns (ok: bool)
      requires Valid()
      modifies this
      ensures Valid()
      ensures ok == CanOpen(old(Value()), opening, permissions, keyId)
      ensures Value() == Opening(old(Value()), id, opening, permissions, keyId)
      ensures ok <==> && old(state).Buffered? && opening.Some? && opening.value.timestamp != ZERO_TIME
                      && permissions.Some? && permissions.value != map[] && keyId != ""
      ensures ok ==>
                && state.Open? && this.id == id && this.keyId == keyId
                && this.opening == opening && this.permissions == permissions
                && duration == Some(Duration(opening.value.timestamp, ZERO_TIME))
                && closure.None? && messageTimestamps == [] && closureAttempts == old(closureAttempts)
      ensures !ok ==> Value() == old(Value())
    {
      if state != Buffered || opening.None? || opening.value.timestamp == ZERO_TIME
        || permissions.None? || |permissions.value| == 0 || |keyId| == 0
      {
        return false;
      }
      this.id := id;
      this.keyId := keyId;
      this.opening := opening;
      this.permissions := permissions;
      this.duration := Some(Duration(opening.value.timestamp, ZERO_TIME));
      this.state := Open;
      return true;
    }

    method TryClose(closure: Option<Action>) returns (remaining: nat, ok: bool)
      requires Valid()
      modifies this
      ensures Valid()
      ensures CloseOutcome(Value(), remaining, ok) == Closing(old(Value()), closure)
      ensures ok <==>
                && closure.Some? && closure.value.timestamp != ZERO_TIME && !old(state).Inconsistent?
                && (!old(state).Buffered? ==>
                      && old(duration).value.openedAt <= closure.value.timestamp
                      && closure.value.certifierId in old(permissions).value
                      && old(permissions).value[closure.value.certifierId].close)
                && (old(state).Closed? ==>
                      || closure.value.timestamp < old(duration).value.closedAt
                      || (closure.value.timestamp == old(duration).value.closedAt
                          && closure.value.issuerId != old(this.closure).value.issuerId
                          && !Precedes(old(this.closure).value.issuerId, closure.value.issuerId)))
      ensures ok && old(state).Buffered? ==>
                remaining == 0 && Value() == old(Value()).(attempts := old(closureAttempts) + [closure.value])
      ensures ok && !old(state).Buffered? ==>
                && state.Closed? && this.closure == closure && closureAttempts == []
                && duration == Some(Duration(old(duration).value.openedAt, closure.value.timestamp))
                && remaining == |messageTimestamps|
                && forall x :: multiset(messageTimestamps)[x]
                               == if x < closure.value.timestamp then multiset(old(messageTimestamps))[x] else 0
      ensures id == old(id) && keyId == old(keyId) && opening == old(opening) && permissions == old(permissions)
      ensures !ok ==> remaining == 0 && Value() == old(Value())
    {
      hide Before, Precedes;
      if state == Inconsistent || closure.None? || closure.value.timestamp == ZERO_TIME {
        return 0, false;
      }
      if state == Buffered {
        closureAttempts := closureAttempts + [closure.value];
        return 0, true;
      }
      if duration.None? || duration.value.openedAt > closure.value.timestamp {
        return 0, false;
      }
      var canClose := false;
      if closure.value.certifierId in permissions.value {
        canClose := permissions.value[closure.value.certifierId].close;
      }
      if !canClose {
        return 0, false;
      }
      if state == Closed && duration.value.closedAt < closure.value.timestamp {
        return 0, false;
      }
      ghost var c := Value();
      RanksInTurn(c, closure.value);
      if state == Closed && duration.value.closedAt == closure.value.timestamp
        && (this.closure.value.issuerId == closure.value.issuerId || Precedes(this.closure.value.issuerId, closure.value.issuerId))
      {
        return 0, false;
      }
      this.closure := closure;
      closureAttempts := [];
      duration := Some(duration.value.(closedAt := closure.value.timestamp));
      state := Closed;
      forall x ensures multiset(Before(messageTimestamps, closure.value.timestamp))[x]
                       == if x < closure.value.timestamp then multiset(messageTimestamps)[x] else 0
      {
        BeforeCounts(messageTimestamps, closure.value.timestamp, x);
      }
      KeepBefore(closure.value.timestamp);
      assert Value() == ClosedBy(c, closure.value);
      return |messageTimestamps|, true;
    }

    /** Drops what is stamped at or after an instant. */
    method KeepBefore(t: Time)
      modifies this`messageTimestamps
      ensures messageTimestamps == Before(old(messageTimestamps), t)
    {
      var filtered: seq<Time> := [];
      var i := 0;
      while i < |messageTimestamps|
        invariant 0 <= i <= |messageTimestamps|
        invariant filtered == Before(messageTimestamps[..i], t)
      {
        assert messageTimestamps[..i + 1][..i] == messageTimestamps[..i];
        if messageTimestamps[i] < t {
          filtered := filtered + [messageTimestamps[i]];
        }
        i := i + 1;
      }
      assert messageTimestamps[..i] == messageTimestamps;
      messageTimestamps := filtered;
    }

    /** `order` is what sort.Sort made of the attempts. */
    method ApplyCloseAttempts(order: seq<Action>) returns (applied: bool)
      requires Valid()
      requires Arranges(order, closureAttempts)
      modifies this
      ensures Valid()
      ensures (Value(), applied) == Applying(old(Value()), order)
      ensures applied <==>
                && old(state).Open?
                && exists k ::
                     && 0 <= k < |order| && order[k].timestamp != ZERO_TIME
                     && old(opening).value.timestamp <= order[k].timestamp
                     && order[k].certifierId in old(permissions).value && old(permissions).value[order[k].certifierId].close
      ensures applied ==>
                && state.Closed? && closure.Some?
                && exists k ::
                     && 0 <= k < |order| && order[k] == closure.value
                     && forall i :: 0 <= i < k ==>
                          || order[i].timestamp == ZERO_TIME || order[i].timestamp < old(opening).value.timestamp
                          || order[i].certifierId !in old(permissions).value
                          || !old(permissions).value[order[i].certifierId].close
      ensures id == old(id) && keyId == old(keyId) && opening == old(opening) && permissions == old(permissions)
      ensures old(state).Open? ==> closureAttempts == []
      ensures !applied ==> Value() == old(Value()).(attempts := closureAttempts)
    {
      if state != Open || |closureAttempts| == 0 {
        return false;
      }
      closureAttempts := order;
      ghost var c := old(Value());
      ghost var first := FirstAdmissible(c.opening.value, c.permissions.value, order);
      var i := 0;
      while i < |order|
        invariant 0 <= i <= first
        invariant Value() == c.(attempts := order)
      {
        assert Closes(Value(), order[i]) <==> Admissible(c.opening.value, c.permissions.value, order[i]);
        var _, ok := TryClose(Some(order[i]));
        if ok {
          closureAttempts := [];
          return true;
        }
        i := i + 1;
      }
      closureAttempts := [];
      return false;
    }

    method AddMessage(a: Action) returns (position: nat, ok: bool)
      requires Valid()
      modifies this
      ensures Valid()
      ensures AddOutcome(Value(), position, ok) == Adding(old(Value()), a)
      ensures ok <==>
                && (old(state).Open? || old(state).Closed?)
                && a.timestamp != ZERO_TIME && old(opening).value.timestamp <= a.timestamp
                && (old(state).Closed? ==> a.timestamp <= old(closure).value.timestamp)
                && a.certifierId in old(permissions).value && old(permissions).value[a.certifierId].write
      ensures ok ==> position == |Before(old(messageTimestamps), a.timestamp)|
      ensures Value() == old(Value()).(messages := old(messageTimestamps) + if ok then [a.timestamp] else [])
    {
      if state == Buffered || state == Inconsistent || duration.value.openedAt > a.timestamp
        || (state == Closed && duration.value.closedAt < a.timestamp) || a.timestamp == ZERO_TIME
      {
        return 0, false;
      }
      var canWrite := false;
      if a.certifierId in permissions.value {
        canWrite := permissions.value[a.certifierId].write;
      }
      if !canWrite {
        return 0, false;
      }
      position := 0;
      var i := 0;
      while i < |messageTimestamps|
        invariant 0 <= i <= |messageTimestamps|
        invariant position == |Before(messageTimestamps[..i], a.timestamp)|
      {
        assert messageTimestamps[..i + 1][..i] == messageTimestamps[..i];
        if a.timestamp > messageTimestamps[i] {
          position := position + 1;
        }
        i := i + 1;
      }
      assert messageTimestamps[..i] == messageTimestamps;
      messageTimestamps := messageTimestamps + [a.timestamp];
      return position, true;
    }
  }
}
