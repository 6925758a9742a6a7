/** Request handlers of the executor: the locks they take and the statuses they report. */
module Executor {
  import opened LockNeeds
  import opened Status
  import R = StatusRuns

  /** What a handler can hold: the lock of a channel, or read locks on user records. */
  datatype Lock = ChannelLock(mode: Mode) | UserLocks

  // What other subsystems may answer, one choice for every way their calls can end.
  datatype LockReply = LockRefused | LockDenied | LockDone
  datatype UsersReply = UsersRefused | UsersClosed | UsersFailed | UsersRead(permitted: bool)
  datatype UsersUnlock = NeverAnswered | NotUnlocked | Unlocked
  datatype ChannelReply = ChannelRefused | ChannelClosed | ChannelFailed | ChannelDone(writable: bool)
  datatype MessageReply = MessageRefused | MessageClosed | MessageFailed | MessageDone
  datatype SimpleReply = SimpleRefused | SimpleClosed | SimpleDone

  /** Statuses reported after the running status: one final one, and a failure on top of it when the
      lock of the channel was taken but could not be given back. */
  function Reports(success: bool, locked: LockReply, released: LockReply): seq<Code> {
    [if success then Success else Failed] + (if locked.LockDone? && !released.LockDone? then [Failed] else [])
  }

  /** Locks that were taken but whose release was refused, in the order of the attempts. */
  function Unreleased(tookUsers: bool, usersUnlock: UsersUnlock, locked: LockReply, released: LockReply, mode: Mode): seq<Lock> {
    (if tookUsers && usersUnlock.NotUnlocked? then [UserLocks] else []) + StillLocked(locked, released, mode)
  }

  function StillLocked(locked: LockReply, released: LockReply, mode: Mode): seq<Lock> {
    if locked.LockDone? && !released.LockDone? then [ChannelLock(mode)] else []
  }

  class Handler {
    // Locks taken and not yet given back, the latest last.
    var held: seq<Lock>
    // Locks whose release was attempted and refused.
    var kept: seq<Lock>
    var reports: seq<Code>
    // Waiting for an answer that never comes.
    var blocked: bool
    // Ended by a nil dereference, after the deferred releases have run.
    var crashed: bool

    constructor ()
      ensures held == [] && kept == [] && reports == [] && !blocked && !crashed
    {
      held, kept, reports, blocked, crashed := [], [], [], false, false;
    }

    method Report(c: Code)
      modifies this`reports
      ensures reports == old(reports) + [c]
    {
      reports := reports + [c];
    }

    /** One request to the locker; releasing is only ever asked for the lock taken last. */
    method RequestLock(mode: Mode, locking: bool, reply: LockReply) returns (ok: bool)
      requires !locking ==> held != [] && held[|held| - 1] == ChannelLock(mode)
      modifies this`held, this`kept, this`reports
      ensures ok == reply.LockDone?
      ensures reports == old(reports) + (if ok then [] else [Failed])
      ensures held == if locking then (if ok then old(held) + [ChannelLock(mode)] else old(held)) else old(held)[..|old(held)| - 1]
      ensures kept == if !locking && !ok then old(kept) + [ChannelLock(mode)] else old(kept)
    {
      if !locking {
        held := held[..|held| - 1];
      }
      if reply.LockRefused? || reply.LockDenied? {
        Report(Failed);
        if !locking {
          kept := kept + [ChannelLock(mode)];
        }
        return false;
      }
      if locking {
        held := held + [ChannelLock(mode)];
      }
      return true;
    }

    method TakeLock(mode: Mode, reply: LockReply) returns (ok: bool)
      modifies this`held, this`kept, this`reports
      ensures ok == reply.LockDone?
      ensures reports == old(reports) + (if ok then [] else [Failed])
      ensures held == (if ok then old(held) + [ChannelLock(mode)] else old(held)) && kept == old(kept)
    {
      ok := RequestLock(mode, true, reply);
    }

    /** The deferred release of the lock taken last. */
    method GiveLockBack(mode: Mode, reply: LockReply, ghost before: seq<Lock>)
      requires held == before + [ChannelLock(mode)]
      modifies this`held, this`kept, this`reports
      ensures held == before
      ensures reports == old(reports) + (if reply.LockDone? then [] else [Failed])
      ensures kept == old(kept) + (if reply.LockDone? then [] else [ChannelLock(mode)])
    {
      var _ := RequestLock(mode, false, reply);
    }

    /** A lock-only read of user records; locks are held only if it succeeds. */
    method ReadLockUsers(reply: UsersReply) returns (ok: bool)
      modifies this`held, this`reports
      ensures ok == reply.UsersRead?
      ensures held == if ok then old(held) + [UserLocks] else old(held)
      ensures reports == old(reports) + (if ok then [] else [Failed])
    {
      if !reply.UsersRead? {
        Report(Failed);
        return false;
      }
      held := held + [UserLocks];
      return true;
    }

    /** The deferred unlock-only read; its answer is waited for but not looked at. */
    method ReadUnlockUsers(reply: UsersUnlock)
      requires held != [] && held[|held| - 1] == UserLocks
      modifies this`held, this`kept, this`blocked
      ensures blocked == (old(blocked) || reply.NeverAnswered?)
      ensures held == if reply.NeverAnswered? then old(held) else old(held)[..|old(held)| - 1]
      ensures kept == if reply.NotUnlocked? then old(kept) + [UserLocks] else old(kept)
    {
      if reply.NeverAnswered? {
        blocked := true;
        return;
      }
      held := held[..|held| - 1];
      if reply.NotUnlocked? {
        kept := kept + [UserLocks];
      }
    }

    method ChannelAction(reply: ChannelReply) returns (ok: bool)
      modifies this`reports
      ensures ok == reply.ChannelDone?
      ensures reports == old(reports) + (if ok then [] else [Failed])
    {
      if !reply.ChannelDone? {
        Report(Failed);
        return false;
      }
      return true;
    }

    method ChannelActionPassthrough(reply: ChannelReply)
      modifies this`reports
      ensures reports == old(reports) + [if reply.ChannelDone? then Success else Failed]
    {
      var ok := ChannelAction(reply);
      if ok {
        Report(Success);
      }
    }

    /** The part of reading or opening a channel that runs under the lock of the certifier's record. */
    method UnderUserLock(users: UsersReply, keyAdded: bool, channel: ChannelReply, usersUnlock: UsersUnlock)
      requires !blocked
      modifies this`held, this`kept, this`reports, this`blocked
      ensures blocked == (users.UsersRead? && usersUnlock.NeverAnswered?)
      ensures held == if blocked then old(held) + [UserLocks] else old(held)
      ensures kept == old(kept) + if users.UsersRead? && usersUnlock.NotUnlocked? then [UserLocks] else []
      ensures reports == old(reports) + [if users == UsersRead(true) && keyAdded && channel.ChannelDone? then Success else Failed]
    {
      var ok := ReadLockUsers(users);
      if !ok {
        return;
      }
      if !users.permitted || !keyAdded {
        Report(Failed);
      } else {
        ChannelActionPassthrough(channel);
      }
      ReadUnlockUsers(usersUnlock);
    }

    method DoReadChannel(decodes: bool, signed: bool, locked: LockReply, users: UsersReply, channel: ChannelReply,
                         usersUnlock: UsersUnlock, released: LockReply)
      requires !blocked && !crashed
      modifies this
      ensures crashed == (decodes && locked.LockDone? && !signed)
      ensures
        var success := decodes && locked.LockDone? && users == UsersRead(true) && channel.ChannelDone?;
        var tookUsers := decodes && locked.LockDone? && signed && users.UsersRead?;
        && blocked == (tookUsers && usersUnlock.NeverAnswered?)
        && (blocked ==> held == old(held) + [ChannelLock(Read), UserLocks] && reports == old(reports) + [if success then Success else Failed])
        && (!blocked ==> held == old(held) && kept == old(kept) + Unreleased(tookUsers, usersUnlock, if decodes then locked else LockDenied, released, Read))
        && (!blocked && !crashed ==> reports == old(reports) + Reports(success, if decodes then locked else LockDenied, released))
    {
      if !decodes {
        Report(Failed);
        return;
      }
      var ok := TakeLock(Read, locked);
      if !ok {
        return;
      }
      ReadUnderLock(signed, users, channel, usersUnlock);
      if blocked {
        return;
      }
      GiveLockBack(Read, released, old(held));
    }

    /** Reads the certifier from the signers without looking whether there are any. */
    method ReadUnderLock(signed: bool, users: UsersReply, channel: ChannelReply, usersUnlock: UsersUnlock)
      requires !blocked && !crashed
      modifies this
      ensures crashed == !signed
      ensures blocked == (signed && users.UsersRead? && usersUnlock.NeverAnswered?)
      ensures held == if blocked then old(held) + [UserLocks] else old(held)
      ensures kept == old(kept) + if signed && users.UsersRead? && usersUnlock.NotUnlocked? then [UserLocks] else []
      ensures signed ==> reports == old(reports) + [if users == UsersRead(true) && channel.ChannelDone? then Success else Failed]
    {
      if !signed {
        crashed := true;
      } else {
        UnderUserLock(users, true, channel, usersUnlock);
      }
    }

    method DoAddChannel(decodes: bool, hasChannel: bool, signed: bool, locked: LockReply, users: UsersReply, keyAdded: bool,
                        channel: ChannelReply, usersUnlock: UsersUnlock, released: LockReply)
      requires !blocked && !crashed
      modifies this
      ensures !crashed
      ensures
        var asked := if decodes && hasChannel && signed then locked else LockDenied;
        var success := asked.LockDone? && users == UsersRead(true) && keyAdded && channel.ChannelDone?;
        var tookUsers := asked.LockDone? && users.UsersRead?;
        && blocked == (tookUsers && usersUnlock.NeverAnswered?)
        && (blocked ==> held == old(held) + [ChannelLock(Write), UserLocks] && reports == old(reports) + [if success then Success else Failed])
        && (!blocked ==>
              && held == old(held)
              && kept == old(kept) + Unreleased(tookUsers, usersUnlock, asked, released, Write)
              && reports == old(reports) + Reports(success, asked, released))
    {
      if !decodes || !hasChannel || !signed {
        Report(Failed);
        return;
      }
      var ok := TakeLock(Write, locked);
      if !ok {
        return;
      }
      UnderUserLock(users, keyAdded, channel, usersUnlock);
      if blocked {
        return;
      }
      GiveLockBack(Write, released, old(held));
    }

    method DoCloseChannel(decodes: bool, signed: bool, locked: LockReply, channel: ChannelReply, released: LockReply)
      requires !blocked && !crashed
      modifies this
      ensures !blocked && !crashed && held == old(held)
      ensures
        var asked := if decodes && signed then locked else LockDenied;
        && kept == old(kept) + StillLocked(asked, released, Write)
        && reports == old(reports) + Reports(asked.LockDone? && channel.ChannelDone?, asked, released)
    {
      if !decodes || !signed {
        Report(Failed);
        return;
      }
      var ok := TakeLock(Write, locked);
      if !ok {
        return;
      }
      ChannelActionPassthrough(channel);
      GiveLockBack(Write, released, old(held));
    }

    /** Adds a message or buffers a failed operation; the answer is treated alike. */
    method DoAddMessage(locked: LockReply, reply: MessageReply, released: LockReply)
      requires !blocked && !crashed
      modifies this
      ensures !blocked && !crashed && held == old(held)
      ensures kept == old(kept) + StillLocked(locked, released, Write)
      ensures reports == old(reports) + Reports(locked.LockDone? && reply.MessageDone?, locked, released)
    {
      var ok := TakeLock(Write, locked);
      if !ok {
        return;
      }
      match reply {
        case MessageRefused => Report(Failed);
        case MessageClosed => Report(Failed);
        case MessageFailed => Report(Failed);
        case MessageDone => Report(Success);
      }
      GiveLockBack(Write, released, old(held));
    }

    method DoSubscribeChannel(signed: bool, locked: LockReply, reply: SimpleReply, released: LockReply)
      requires !blocked && !crashed
      modifies this
      ensures !blocked && !crashed && held == old(held)
      ensures
        var asked := if signed then locked else LockDenied;
        && kept == old(kept) + StillLocked(asked, released, Read)
        && reports == old(reports) + Reports(asked.LockDone? && reply.SimpleDone?, asked, released)
    {
      if !signed {
        Report(Failed);
        return;
      }
      var ok := TakeLock(Read, locked);
      if !ok {
        return;
      }
      match reply {
        case SimpleRefused => Report(Failed);
        case SimpleClosed => Report(Failed);
        case SimpleDone => Report(Success);
      }
      GiveLockBack(Read, released, old(held));
    }

    method DoChannelEncrypt(decodes: bool, payloadDecodes: bool, signed: bool, locked: LockReply, channel: ChannelReply,
                            encrypts: bool, released: LockReply)
      requires !blocked && !crashed
      modifies this
      ensures !blocked && held == old(held)
      ensures
        var asked := if decodes && payloadDecodes then locked else LockDenied;
        && crashed == (asked.LockDone? && channel.ChannelDone? && !signed)
        && kept == old(kept) + StillLocked(asked, released, Read)
        && (!crashed ==> reports == old(reports) + Reports(asked.LockDone? && channel == ChannelDone(true) && encrypts, asked, released))
    {
      if !decodes || !payloadDecodes {
        Report(Failed);
        return;
      }
      var ok := TakeLock(Read, locked);
      if !ok {
        return;
      }
      EncryptUnderLock(signed, channel, encrypts);
      GiveLockBack(Read, released, old(held));
    }

    /** Looks up the certifier's permission without looking whether there are signers. */
    method EncryptUnderLock(signed: bool, channel: ChannelReply, encrypts: bool)
      requires !crashed
      modifies this`crashed, this`reports
      ensures crashed == (channel.ChannelDone? && !signed)
      ensures !crashed ==> reports == old(reports) + [if channel == ChannelDone(true) && encrypts then Success else Failed]
    {
      var ok := ChannelAction(channel);
      if ok {
        if !signed {
          crashed := true;
        } else if !channel.writable || !encrypts {
          Report(Failed);
        } else {
          Report(Success);
        }
      }
    }

    /** User requests take and give back their own locks in the users daemon. */
    method DoGenericUsersRequest(reply: UsersReply)
      requires !blocked && !crashed
      modifies this`reports
      ensures reports == old(reports) + [if reply.UsersRead? then Success else Failed]
    {
      if !reply.UsersRead? {
        Report(Failed);
      } else {
        Report(Success);
      }
    }

    method DoTransactionEncrypt(decodes: bool, users: UsersReply, keysParse: seq<bool>, encrypts: bool, usersUnlock: UsersUnlock)
      requires !blocked && !crashed
      modifies this
      ensures !crashed
      ensures
        var tookUsers := decodes && users.UsersRead?;
        && blocked == (tookUsers && usersUnlock.NeverAnswered?)
        && held == (if blocked then old(held) + [UserLocks] else old(held))
        && kept == old(kept) + (if tookUsers && usersUnlock.NotUnlocked? then [UserLocks] else [])
        && reports == old(reports) + [if tookUsers && encrypts && (forall i :: 0 <= i < |keysParse| ==> keysParse[i]) then Success else Failed]
    {
      if !decodes {
        Report(Failed);
        return;
      }
      var ok := ReadLockUsers(users);
      if !ok {
        return;
      }
      var i := 0;
      while i < |keysParse| && keysParse[i]
        invariant 0 <= i <= |keysParse|
        invariant forall k :: 0 <= k < i ==> keysParse[k]
      {
        i := i + 1;
      }
      if i < |keysParse| || !encrypts {
        Report(Failed);
      } else {
        Report(Success);
      }
      ReadUnlockUsers(usersUnlock);
    }
  }

  // ---------------------------------------------------------------- what a ticket ends with

  /** The codes of the updates that arrived, in order. */
  function Codes(events: seq<R.Event>): seq<Code> {
    if events == [] then []
    else
      var n := |events| - 1;
      Codes(events[..n]) + (if events[n].UpdateArrives? then [events[n].content.code] else [])
  }

  lemma {:induction false} HighestIsACode(events: seq<R.Event>)
    ensures forall c :: c in Codes(events) ==> Rank(c) <= R.HighestRank(events)
    ensures R.HighestRank(events) == 0 || exists c :: c in Codes(events) && Rank(c) == R.HighestRank(events)
  {
    if events != [] {
      var n := |events| - 1;
      HighestIsACode(events[..n]);
      assert forall c :: c in Codes(events[..n]) ==> c in Codes(events);
      if events[n].UpdateArrives? {
        assert events[n].content.code in Codes(events);
      }
    }
  }

  lemma RecordIsHighest(events: seq<R.Event>, c: Code)
    requires R.Run(R.START, events).updates == multiset{}
    requires c in Codes(events) && Rank(c) > 0 && forall d :: d in Codes(events) ==> Rank(d) <= Rank(c)
    ensures R.Run(R.START, events).ticket.history != [] && Current(R.Run(R.START, events).ticket).code == c
  {
    hide R.Run;
    HighestIsACode(events);
    R.HighestIsCovered(events);
  }

  function Outcome(success: bool, locked: LockReply, released: LockReply): Code {
    if success && (locked.LockDone? ==> released.LockDone?) then Success else Failed
  }

  lemma OutcomeIsHighest(success: bool, locked: LockReply, released: LockReply)
    ensures
      var codes, c := [Queued, Running] + Reports(success, locked, released), Outcome(success, locked, released);
      c in codes && Rank(c) > 0 && forall d :: d in codes ==> Rank(d) <= Rank(c)
  {
    var codes := [Queued, Running] + Reports(success, locked, released);
    assert codes[|codes| - 1] == Outcome(success, locked, released);
  }

  /** A request is queued, runs, and is reported on by its handler. In whatever order the status daemons
      take these updates up, and whoever listens, the ticket ends as a success exactly when the handler
      succeeded and gave the lock of the channel back. */
  lemma TicketEndsAsReported(events: seq<R.Event>, success: bool, locked: LockReply, released: LockReply)
    requires R.Run(R.START, events).updates == multiset{}
    requires multiset(Codes(events)) == multiset([Queued, Running] + Reports(success, locked, released))
    ensures
      var t := R.Run(R.START, events).ticket;
      && t.history != []
      && Current(t).code == if success && (locked.LockDone? ==> released.LockDone?) then Success else Failed
  {
    hide R.Run;
    var codes := [Queued, Running] + Reports(success, locked, released);
    OutcomeIsHighest(success, locked, released);
    hide Reports, Codes;
    forall c ensures c in Codes(events) <==> c in codes {
      assert c in Codes(events) <==> c in multiset(Codes(events));
      assert c in codes <==> c in multiset(codes);
    }
    RecordIsHighest(events, Outcome(success, locked, released));
  }

  /** All updates of a request that ended this way have been taken up. */
  predicate Reported(events: seq<R.Event>, success: bool, locked: LockReply, released: LockReply) {
    && R.Run(R.START, events).updates == multiset{}
    && multiset(Codes(events)) == multiset([Queued, Running] + Reports(success, locked, released))
  }

  /** A listener that was closed was last sent a status with this code. */
  predicate Learns(l: Listener, c: Code) {
    l.closed ==> l.sent != [] && l.sent[|l.sent| - 1].code == c
  }

  predicate AllLearn(t: Ticket, c: Code) {
    forall i :: 0 <= i < |t.listeners| ==> Learns(t.listeners[i], c)
  }

  lemma {:induction false} CodesArrive(events: seq<R.Event>)
    ensures forall i :: 0 <= i < |events| && events[i].UpdateArrives? ==> events[i].content.code in Codes(events)
  {
    if events != [] {
      var n := |events| - 1;
      CodesArrive(events[..n]);
      forall i | 0 <= i < |events| && events[i].UpdateArrives? ensures events[i].content.code in Codes(events) {
        if i < n {
          assert events[i] == events[..n][i];
        }
      }
    }
  }

  /** However the status daemons take up the reports, every closed listener learns the outcome of its
      request, exactly unless the handler succeeded and the release of the channel's lock was refused. */
  lemma ListenersLearnOutcomeExactly(success: bool, locked: LockReply, released: LockReply)
    ensures
      (forall events | Reported(events, success, locked, released) ::
         AllLearn(R.Run(R.START, events).ticket, Outcome(success, locked, released)))
      <==> !(success && locked.LockDone? && !released.LockDone?)
  {
    if success && locked.LockDone? && !released.LockDone? {
      RefusedReleaseGoesUnnoticed(success, locked, released);
    } else {
      forall events | Reported(events, success, locked, released)
        ensures AllLearn(R.Run(R.START, events).ticket, Outcome(success, locked, released))
      {
        OutcomeIsLearnt(events, success, locked, released);
      }
    }
  }

  lemma OutcomeIsLearnt(events: seq<R.Event>, success: bool, locked: LockReply, released: LockReply)
    requires Reported(events, success, locked, released)
    requires !(success && locked.LockDone? && !released.LockDone?)
    ensures AllLearn(R.Run(R.START, events).ticket, Outcome(success, locked, released))
  {
    var t := R.Run(R.START, events).ticket;
    hide R.Run, Outcome, Codes, Reports, Reported, Learns;
    forall i | 0 <= i < |t.listeners| ensures Learns(t.listeners[i], Outcome(success, locked, released)) {
      OneLearns(events, success, locked, released, i);
    }
  }

  lemma OneLearns(events: seq<R.Event>, success: bool, locked: LockReply, released: LockReply, i: nat)
    requires Reported(events, success, locked, released)
    requires !(success && locked.LockDone? && !released.LockDone?)
    requires i < |R.Run(R.START, events).ticket.listeners|
    ensures Learns(R.Run(R.START, events).ticket.listeners[i], Outcome(success, locked, released))
  {
    hide R.Run, R.FailureArrived, R.Known, Codes, Reports;
    TicketEndsAsReported(events, success, locked, released);
    OneOutcomeOnly(events, success, locked, released);
    R.HistoryIsKnown(events);
    if R.Run(R.START, events).ticket.listeners[i].closed {
      R.ClosedListenersHoldFinalExactly(events, i);
      if !success {
        LastSentIsKnown(R.Run(R.START, events).ticket, i);
      }
    }
  }

  /** Only one of the two outcomes is ever reported. */
  lemma OneOutcomeOnly(events: seq<R.Event>, success: bool, locked: LockReply, released: LockReply)
    requires Reported(events, success, locked, released)
    requires !(success && locked.LockDone? && !released.LockDone?)
    ensures success ==> !R.FailureArrived(events)
    ensures !success ==> forall c: Content :: R.Known(c, events) ==> c.code != Success
  {
    hide R.Run, Codes;
    CodesArrive(events);
    var codes := [Queued, Running] + Reports(success, locked, released);
    forall c | c in Codes(events) ensures c in codes {
      assert c in multiset(Codes(events));
      assert c in multiset(codes);
    }
  }

  lemma LastSentIsKnown(t: Ticket, i: nat)
    requires Coherent(t) && i < |t.listeners| && t.listeners[i].closed
    ensures t.listeners[i].sent != []
    ensures t.listeners[i].sent[|t.listeners[i].sent| - 1] in t.history && IsDone(t.listeners[i].sent[|t.listeners[i].sent| - 1].code)
  {
    var l := t.listeners[i];
    assert Served(l, t.history);
    assert l.sent[|l.sent| - 1] == t.history[l.since + |l.sent| - 1];
  }

  const QUEUED := Content(Queued, NoReason, "", [])
  const RUNNING := Content(Running, NoReason, "", [])

  function LateReports(): seq<R.Event> {
    R.FailureFollows() + [R.UpdateArrives(QUEUED)] + [R.UpdateRuns(R.Foreign(QUEUED))]
    + [R.UpdateArrives(RUNNING)] + [R.UpdateRuns(R.Foreign(RUNNING))]
  }

  /** A run in which a listener is closed by the success before the failure of the release comes. */
  lemma RefusedReleaseGoesUnnoticed(success: bool, locked: LockReply, released: LockReply)
    requires success && locked.LockDone? && !released.LockDone?
    ensures Reported(LateReports(), success, locked, released)
    ensures !AllLearn(R.Run(R.START, LateReports()).ticket, Outcome(success, locked, released))
  {
    hide R.Run, LateReports, Codes, Reports;
    LateReportsChangeNothing();
    LateCodes();
    SuccessThenFailure(success, locked, released);
    NotAllLearn(R.Run(R.START, LateReports()).ticket);
  }

  lemma SuccessThenFailure(success: bool, locked: LockReply, released: LockReply)
    requires success && locked.LockDone? && !released.LockDone?
    ensures multiset([Success, Failed, Queued, Running]) == multiset([Queued, Running] + Reports(success, locked, released))
  {
    assert [Queued, Running] + Reports(success, locked, released) == [Queued, Running, Success, Failed];
  }

  lemma NotAllLearn(t: Ticket)
    requires t.listeners == [Listener(1, [R.SUCCEEDED], true)]
    ensures !AllLearn(t, Failed)
  {
    assert t.listeners[0].closed && t.listeners[0].sent[0].code == Success;
  }

  lemma LateReportsChangeNothing()
    ensures R.Run(R.START, LateReports())
            == R.World(Ticket([EMPTY, R.SUCCEEDED, R.REFUSED], [Listener(1, [R.SUCCEEDED], true)]), multiset{}, 0)
  {
    hide R.Run, R.FailureFollows;
    R.FailureOverridesSuccess();
    LateUpdate(R.FailureFollows(), QUEUED);
    LateUpdate(R.FailureFollows() + [R.UpdateArrives(QUEUED)] + [R.UpdateRuns(R.Foreign(QUEUED))], RUNNING);
  }

  lemma LateUpdate(events: seq<R.Event>, c: Content)
    requires
      var w := R.Run(R.START, events);
      w.updates == multiset{} && w.ticket.history != [] && Rank(c.code) < Rank(Current(w.ticket).code)
    ensures R.Run(R.START, events + [R.UpdateArrives(c)] + [R.UpdateRuns(R.Foreign(c))]) == R.Run(R.START, events)
  {
    R.RunOne(R.START, events, R.UpdateArrives(c));
    R.RunOne(R.START, events + [R.UpdateArrives(c)], R.UpdateRuns(R.Foreign(c)));
    StaleUpdate(R.Run(R.START, events), c);
  }

  lemma StaleUpdate(w: R.World, c: Content)
    requires R.Sound(w) && w.updates == multiset{} && w.ticket.history != [] && Rank(c.code) < Rank(Current(w.ticket).code)
    ensures R.Step(R.Step(w, R.UpdateArrives(c)), R.UpdateRuns(R.Foreign(c))) == w
  {
  }

  lemma LateCodes()
    ensures Codes(LateReports()) == [Success, Failed, Queued, Running]
  {
    var a: seq<R.Event> := [];
    CodesMore(a, R.ListenArrives);
    CodesMore(a + [R.ListenArrives], R.ListenRuns);
    var b := a + [R.ListenArrives] + [R.ListenRuns];
    CodesMore(b, R.UpdateArrives(R.SUCCEEDED));
    CodesMore(b + [R.UpdateArrives(R.SUCCEEDED)], R.UpdateRuns(R.Foreign(R.SUCCEEDED)));
    CodesOfPair(R.SuccessFirst(), R.REFUSED);
    CodesOfPair(R.FailureFollows(), QUEUED);
    CodesOfPair(R.FailureFollows() + [R.UpdateArrives(QUEUED)] + [R.UpdateRuns(R.Foreign(QUEUED))], RUNNING);
  }

  lemma CodesOfPair(events: seq<R.Event>, c: Content)
    ensures Codes(events + [R.UpdateArrives(c)] + [R.UpdateRuns(R.Foreign(c))]) == Codes(events) + [c.code]
  {
    CodesMore(events, R.UpdateArrives(c));
    CodesMore(events + [R.UpdateArrives(c)], R.UpdateRuns(R.Foreign(c)));
  }

  lemma CodesMore(events: seq<R.Event>, e: R.Event)
    ensures Codes(events + [e]) == Codes(events) + (if e.UpdateArrives? then [e.content.code] else [])
  {
    assert (events + [e])[..|events|] == events;
  }
}
