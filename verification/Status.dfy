/** Status updates and listeners of one ticket. */
module Status {
  datatype Code = NoStatus | Queued | Running | Success | Failed
  datatype Reason = NoReason | Rejected | FailedReason

  function Rank(c: Code): nat {
    match c
    case NoStatus => 0
    case Queued => 1
    case Running => 2
    case Success => 3
    case Failed => 4
  }

  predicate IsDone(c: Code) {
    c.Success? || c.Failed?
  }

  /** What a status record says. */
  datatype Content = Content(code: Code, reason: Reason, payload: string, errs: seq<string>)

  const EMPTY := Content(NoStatus, NoReason, "", [])

  // ---------------------------------------------------------------- specification

  /** What one listener was sent; `since` is the point in the history its sends start from. */
  datatype Listener = Listener(since: nat, sent: seq<Content>, closed: bool)

  /** All contents the record of the ticket has had, and all listeners processed so far. */
  datatype Ticket = Ticket(history: seq<Content>, listeners: seq<Listener>)

  const BUFFER_SIZE := 3

  function Current(t: Ticket): Content
    requires t.history != []
  {
    t.history[|t.history| - 1]
  }

  /** Insert-if-absent: the first request for a ticket provides its record. */
  function Arrived(t: Ticket, c: Content): Ticket {
    if t.history == [] then t.(history := [c]) else t
  }

  function Sent(l: Listener, c: Content): Listener {
    if l.closed then l else l.(sent := l.sent + [c], closed := IsDone(c.code))
  }

  /** The locked part of an update: only a higher rank changes the record, and every open listener is told. */
  function Updated(t: Ticket, c: Content): Ticket
    requires t.history != []
  {
    if Rank(Current(t).code) >= Rank(c.code) then t
    else Ticket(t.history + [c], seq(|t.listeners|, i requires 0 <= i < |t.listeners| => Sent(t.listeners[i], c)))
  }

  /** The locked part of a listen request. */
  function Listened(t: Ticket): Ticket
    requires t.history != []
  {
    t.(listeners := t.listeners + [
         if IsDone(Current(t).code) then Listener(|t.history| - 1, [Current(t)], true)
         else Listener(|t.history|, [], false)])
  }

  predicate Rising(history: seq<Content>) {
    forall i, j :: 0 <= i < j < |history| ==> Rank(history[i].code) < Rank(history[j].code)
  }

  /** A listener got a stretch of the history: up to the present while open, and up to the first done
      status, which closed it, otherwise. */
  predicate Served(l: Listener, history: seq<Content>) {
    && l.since + |l.sent| <= |history|
    && l.sent == history[l.since..l.since + |l.sent|]
    && (forall i :: 0 <= i < |l.sent| - 1 ==> !IsDone(l.sent[i].code))
    && (l.closed <==> l.sent != [] && IsDone(l.sent[|l.sent| - 1].code))
    && (!l.closed ==> l.since + |l.sent| == |history| && l.since > 0 && !IsDone(history[|history| - 1].code))
    && (l.closed ==> l.since > 0 || |l.sent| == 1)
  }

  predicate Coherent(t: Ticket) {
    && Rising(t.history)
    && (t.history == [] ==> t.listeners == [])
    && forall i :: 0 <= i < |t.listeners| ==> Served(t.listeners[i], t.history)
  }

  lemma UpdatedStaysValid(t: Ticket, c: Content)
    requires t.history != [] && Coherent(t)
    ensures Coherent(Updated(t, c))
  {
    var r := Updated(t, c);
    forall i | 0 <= i < |r.listeners| ensures Served(r.listeners[i], r.history) {
      assert Served(t.listeners[i], t.history);
    }
  }

  lemma ListenedStaysValid(t: Ticket)
    requires t.history != [] && Coherent(t)
    ensures Coherent(Listened(t))
  {
    var r := Listened(t);
    forall i | 0 <= i < |r.listeners| ensures Served(r.listeners[i], r.history) {
      if i < |t.listeners| {
        assert Served(t.listeners[i], t.history);
      }
    }
  }

  /** Sends never fill the buffer of a listener that is still open. */
  lemma OpenListenersHaveRoom(t: Ticket, i: nat)
    requires Coherent(t) && i < |t.listeners|
    ensures |t.listeners[i].sent| <= BUFFER_SIZE
    ensures !t.listeners[i].closed ==> |t.listeners[i].sent| < BUFFER_SIZE
  {
    var l := t.listeners[i];
    assert Served(l, t.history);
    RankCountsUp(t.history, |t.history|);
    var n := |l.sent|;
    if n > 0 {
      assert l.sent[n - 1] == t.history[l.since + n - 1];
      if n > 1 {
        assert l.sent[n - 2] == t.history[l.since + n - 2];
      }
    }
  }

  lemma {:induction false} RankCountsUp(history: seq<Content>, k: nat)
    requires Rising(history) && k <= |history|
    ensures forall i :: 0 <= i < k ==> Rank(history[i].code) >= i
  {
    if k > 0 {
      RankCountsUp(history, k - 1);
      if k > 1 {
        assert Rank(history[k - 2].code) < Rank(history[k - 1].code);
      }
    }
  }

  // ---------------------------------------------------------------- the daemons

  class StatusRecord {
    var status: Code
    var failReason: Reason
    var payload: string
    var errs: seq<string>

    constructor (c: Content)
      ensures Value() == c
    {
      status, failReason, payload, errs := c.code, c.reason, c.payload, c.errs;
    }

    function Value(): Content
      reads this
    {
      Content(status, failReason, payload, errs)
    }

    /** Stale updates change nothing; `updated` may be this very record. */
    method Update(updated: StatusRecord) returns (changed: bool)
      modifies this
      ensures changed == (Rank(old(status)) < Rank(old(updated.status)))
      ensures Value() == if changed then old(updated.Value()) else old(Value())
      ensures changed <==>
                || (old(status) == NoStatus && old(updated.status) != NoStatus)
                || (old(status) == Queued && old(updated.status) in {Running, Success, Failed})
                || (old(status) == Running && old(updated.status) in {Success, Failed})
                || (old(status) == Success && old(updated.status) == Failed)
    {
      if Rank(status) >= Rank(updated.status) {
        return false;
      }
      status := updated.status;
      failReason := updated.failReason;
      payload := updated.payload;
      errs := updated.errs;
      return true;
    }
  }

  /** A buffered channel. Sending to a closed one ends the program, and to a full one blocks. */
  class UpdateChannel {
    ghost var since: nat
    var sent: seq<Content>
    var closed: bool

    constructor ()
      ensures sent == [] && !closed
    {
      sent, closed := [], false;
    }

    method Send(c: Content)
      requires !closed && |sent| < BUFFER_SIZE
      modifies this`sent
      ensures sent == old(sent) + [c]
    {
      sent := sent + [c];
    }

    method Close()
      requires !closed
      modifies this`closed
      ensures closed
    {
      closed := true;
    }

    ghost function View(): Listener
      reads this
    {
      Listener(since, sent, closed)
    }
  }

  /** The status and listeners daemons, for one ticket. */
  class Server {
    var record: StatusRecord?
    var hasListenersRecord: bool
    var channels: seq<UpdateChannel>
    ghost var history: seq<Content>
    ghost var processed: seq<UpdateChannel>

    ghost function View(): Ticket
      reads this, processed
    {
      var all := processed;
      Ticket(history, seq(|all|, i requires 0 <= i < |all| reads all => all[i].View()))
    }

    /** The stored channels are the processed ones that are still open. */
    ghost predicate Valid()
      reads this, record, processed
    {
      && Coherent(View())
      && (record == null <==> history == [])
      && (record != null ==> record.Value() == history[|history| - 1])
      && (forall i, j :: 0 <= i < j < |processed| ==> processed[i] != processed[j])
      && (forall i, j :: 0 <= i < j < |channels| ==> channels[i] != channels[j])
      && (forall c :: c in channels ==> c in processed && !c.closed)
      && (forall c :: c in processed && !c.closed ==> c in channels)
      && (channels != [] ==> hasListenersRecord)
    }

    constructor ()
      ensures Valid() && View() == Ticket([], [])
    {
      record, hasListenersRecord, channels := null, false, [];
      history, processed := [], [];
    }

    method CreateOrGet(rec: StatusRecord) returns (current: StatusRecord)
      requires Valid()
      modifies this
      ensures Valid() && View() == Arrived(old(View()), old(rec.Value()))
      ensures current == record && (old(record) != null ==> record == old(record)) && (old(record) == null ==> record == rec)
      ensures processed == old(processed)
      ensures record.Value() == if old(record) == null then old(rec.Value()) else old(record.Value())
    {
      if record == null {
        record := rec;
        history := [rec.Value()];
      }
      current := record;
    }

    method DoStatusUpdate(current: StatusRecord, changed: StatusRecord)
      requires Valid() && current == record
      modifies this, record, channels
      ensures Valid() && record == old(record) && processed == old(processed)
      ensures View() == Updated(old(View()), old(changed.Value()))
      ensures
        var before, c := old(current.status), old(changed.Value());
        var later :=
          || (before == NoStatus && c.code != NoStatus)
          || (before == Queued && c.code in {Running, Success, Failed})
          || (before == Running && c.code in {Success, Failed})
          || (before == Success && c.code == Failed);
        var done := c.code == Success || c.code == Failed;
        && record.Value() == (if later then c else old(current.Value()))
        && channels == (if later && done then [] else old(channels))
        && forall ch :: ch in old(channels) ==>
             ch.sent == old(ch.sent) + (if later then [c] else []) && ch.closed == (later && done)
    {
      ghost var t := View();
      var recordChanged := current.Update(changed);
      if !recordChanged {
        return;
      }
      ghost var c := old(changed.Value());
      assert current.Value() == c;
      FanOut(t, c);
      history := history + [c];
      UpdatedStaysValid(t, c);
      assert View() == Updated(t, c);
    }

    /** Tells every open listener about the record, and closes them all if it is done. */
    method FanOut(ghost t: Ticket, ghost c: Content)
      requires record != null && record.Value() == c
      requires Coherent(t) && View() == t
      requires forall i, j :: 0 <= i < j < |processed| ==> processed[i] != processed[j]
      requires forall i, j :: 0 <= i < j < |channels| ==> channels[i] != channels[j]
      requires forall c :: c in channels ==> c in processed && !c.closed
      requires forall c :: c in processed && !c.closed ==> c in channels
      requires channels != [] ==> hasListenersRecord
      modifies this`channels, this`hasListenersRecord, channels
      ensures forall i :: 0 <= i < |processed| ==> processed[i].View() == Sent(t.listeners[i], c)
      ensures channels == if c.code == Success || c.code == Failed then [] else old(channels)
      ensures forall ch :: ch in old(channels) ==>
                ch.sent == old(ch.sent) + [c] && ch.closed == (c.code == Success || c.code == Failed)
      ensures channels != [] ==> hasListenersRecord
    {
      if hasListenersRecord {
        SendToAll(record.Value(), t);
        if IsDone(record.status) {
          CloseAll();
          channels := [];
          hasListenersRecord := false;
        }
      }
      forall i | 0 <= i < |processed| ensures processed[i].View() == Sent(t.listeners[i], c) {
        assert t.listeners[i] == old(processed[i].View());
        assert processed[i] in processed;
      }
    }

    method SendToAll(c: Content, ghost t: Ticket)
      requires Coherent(t) && |t.listeners| == |processed|
      requires forall i :: 0 <= i < |processed| ==> processed[i].View() == t.listeners[i]
      requires forall i, j :: 0 <= i < j < |channels| ==> channels[i] != channels[j]
      requires forall c :: c in channels ==> c in processed && !c.closed
      modifies (set c | c in channels)`sent
      ensures forall c' :: c' in channels ==> c'.sent == old(c'.sent) + [c]
    {
      var i := 0;
      while i < |channels|
        invariant 0 <= i <= |channels|
        invariant forall k :: 0 <= k < i ==> channels[k].sent == old(channels[k].sent) + [c]
        invariant forall k :: i <= k < |channels| ==> channels[k].sent == old(channels[k].sent)
      {
        assert channels[i] in channels;
        ghost var k :| 0 <= k < |processed| && processed[k] == channels[i];
        OpenListenersHaveRoom(t, k);
        channels[i].Send(c);
        i := i + 1;
      }
    }

    method CloseAll()
      requires forall i, j :: 0 <= i < j < |channels| ==> channels[i] != channels[j]
      requires forall c :: c in channels ==> !c.closed
      modifies (set c | c in channels)`closed
      ensures forall c :: c in channels ==> c.closed
    {
      var i := 0;
      while i < |channels|
        invariant 0 <= i <= |channels|
        invariant forall k :: 0 <= k < i ==> channels[k].closed
        invariant forall k :: i <= k < |channels| ==> !channels[k].closed
      {
        assert channels[i] in channels;
        channels[i].Close();
        i := i + 1;
      }
    }

    method DoListenerServerWork(current: StatusRecord, channel: UpdateChannel)
      requires Valid() && current == record
      requires channel !in processed && channel.sent == [] && !channel.closed
      modifies this, channel
      ensures Valid() && record == old(record) && processed == old(processed) + [channel]
      ensures View() == Listened(old(View()))
      ensures
        if current.status == Success || current.status == Failed then
          channel.sent == [current.Value()] && channel.closed && channels == old(channels)
        else
          channel.sent == [] && !channel.closed && channels == old(channels) + [channel]
    {
      ghost var t := View();
      ListenedStaysValid(t);
      hide Coherent;
      processed := processed + [channel];
      channel.since := if IsDone(current.status) then |history| - 1 else |history|;
      if IsDone(current.status) {
        channel.Send(current.Value());
        channel.Close();
      } else {
        hasListenersRecord := true;
        channels := channels + [channel];
      }
      forall i | 0 <= i < |processed| ensures processed[i].View() == Listened(t).listeners[i] {
        if i < |t.listeners| {
          assert processed[i] in old(processed);
          assert old(processed)[i].View() == t.listeners[i];
        }
      }
      assert View().listeners == Listened(t).listeners;
    }
  }
}
