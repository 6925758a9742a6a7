/** Handlers that keep users read-locked between two requests, beside updates of those users. */
module SplitReads {
  import opened Common
  import opened LockNeeds
  import opened UserServer
  import opened UserLocks
  import opened UserTasks
  import opened Deadlock
  import C = ClaimsDeadlock
  import U = UsersDeadlock

  // ---------------------------------------------------------------- who gives back what

  /** A request whose returns are covered by what was held and what it takes. */
  predicate Covered(program: seq<Action>, m: Made)
    requires IsMade(m)
  {
    multiset(Sanitized(GivenBack(m))) <= Held(program) + multiset(Sanitized(TakenNeeds(m.rq)))
  }

  lemma DropsCovered(program: seq<Action>, needs: seq<Need>)
    requires DropsOwn(program) && multiset(needs) <= Held(program)
    ensures DropsOwn(program + DropAll(needs))
  {
    var whole := program + DropAll(needs);
    hide DropsOwnAt, DropAll;
    forall k: nat | k < |whole| ensures DropsOwnAt(whole, k) {
      if k < |program| {
        SameAtFront(program, DropAll(needs), k);
      } else {
        DropIsHeld(program, needs, k - |program|);
      }
    }
  }

  lemma SameAtFront(program: seq<Action>, more: seq<Action>, k: nat)
    requires k < |program|
    ensures DropsOwnAt(program + more, k) == DropsOwnAt(program, k)
  {
    hide Held;
    assert (program + more)[..k] == program[..k];
  }

  lemma DropIsHeld(program: seq<Action>, needs: seq<Need>, d: nat)
    requires d < |needs| && multiset(needs) <= Held(program)
    ensures DropsOwnAt(program + DropAll(needs), |program| + d)
  {
    HeldAfterDrops(program, needs[..d]);
    DropPrefix(program, needs, d);
    PrefixCounts(needs, d);
    hide Held, DropAll;
    assert (program + DropAll(needs))[|program| + d] == Drop(needs[d]);
  }

  lemma DropPrefix(program: seq<Action>, needs: seq<Need>, d: nat)
    requires d <= |needs|
    ensures (program + DropAll(needs))[..|program| + d] == program + DropAll(needs[..d])
  {
    var x, y := (program + DropAll(needs))[..|program| + d], program + DropAll(needs[..d]);
    assert |x| == |y| && forall k :: 0 <= k < |x| ==> x[k] == y[k];
  }

  lemma PrefixCounts(needs: seq<Need>, d: nat)
    requires d < |needs|
    ensures multiset(needs[..d])[needs[d]] < multiset(needs)[needs[d]]
  {
    assert needs == needs[..d] + [needs[d]] + needs[d + 1..];
  }

  lemma TakesKeepDrops(program: seq<Action>, needs: seq<Need>)
    requires DropsOwn(program)
    ensures DropsOwn(program + TakeAll(needs))
  {
    var whole := program + TakeAll(needs);
    hide Held;
    forall k: nat | k < |whole| ensures DropsOwnAt(whole, k) {
      if k < |program| {
        SameAtFront(program, TakeAll(needs), k);
      } else {
        assert whole[k] == TakeAll(needs)[k - |program|];
      }
    }
  }

  lemma CoveredDropsOwn(program: seq<Action>, m: Made)
    requires IsMade(m) && DropsOwn(program) && Covered(program, m)
    ensures DropsOwn(program + Steps(m))
  {
    var takes, drops := Sanitized(TakenNeeds(m.rq)), Reversed(Sanitized(GivenBack(m)));
    TakesKeepDrops(program, takes);
    HeldAfterTakes(program, takes);
    ReversedHasSame(Sanitized(GivenBack(m)));
    hide Held, DropsOwn, Sanitized, TakenNeeds, ReturnedNeeds, Reversed;
    DropsCovered(program + TakeAll(takes), drops);
    Regroup(program, TakeAll(takes), DropAll(drops));
  }

  lemma Regroup(a: seq<Action>, b: seq<Action>, c: seq<Action>)
    ensures a + b + c == a + (b + c)
  {
  }

  /** A request of any kind but an unlock-only read drops only what it took. */
  lemma SameIsCovered(program: seq<Action>, m: Made)
    requires IsMade(m) && (m.rq.kind.UpdateRequest? || !m.granted || !m.rq.kind.ReadRequest? || m.rq.readLock || !m.rq.readUnlock)
    ensures Covered(program, m)
  {
    hide Held;
    if GivenBack(m) != TakenNeeds(m.rq) {
      forall n ensures multiset(Sanitized(GivenBack(m)))[n] <= multiset(Sanitized(TakenNeeds(m.rq)))[n] {
        GivenWithinTaken(m, n);
      }
    }
  }

  lemma GivenWithinTaken(m: Made, n: Need)
    requires IsMade(m) && m.granted && m.rq.kind.ReadRequest? && m.rq.readLock && !m.rq.readUnlock
    ensures multiset(Sanitized(GivenBack(m)))[n] <= multiset(Sanitized(TakenNeeds(m.rq)))[n]
  {
    if n.mode.Read? {
      TakenOnce(m.rq, n.id);
      ReturnedOnce(m.rq, n.id);
      assert n == Need(Read, n.id);
    } else {
      TakesOnlyReads(m.rq);
      assert n !in Sanitized(ReturnedNeeds(m.rq));
    }
  }

  lemma SingleIsTask(m: Made)
    requires IsMade(m) && (m.rq.kind.UpdateRequest? || !m.granted || !m.rq.kind.ReadRequest? || m.rq.readLock || !m.rq.readUnlock)
    ensures IsTask([m])
  {
    OneProgram(m);
    SameIsCovered([], m);
    CoveredDropsOwn([], m);
    hide Held, Steps, TaskProgram, Covered;
  }

  /** A later unlock-only read drops what a lock-only read before it kept. */
  lemma UnlockIsCovered(program: seq<Action>, m: Made)
    requires IsMade(m) && m.granted && m.rq.kind.ReadRequest? && !m.rq.readLock && m.rq.readUnlock
    requires forall id :: id in m.rq.subjects && id !in SignerIds(m.rq) ==> Need(Read, id) in Held(program)
    ensures Covered(program, m)
  {
    var given, held := multiset(Sanitized(GivenBack(m))), Held(program) + multiset(Sanitized(TakenNeeds(m.rq)));
    hide Held;
    forall n ensures given[n] <= held[n] {
      if n.mode.Read? {
        TakenOnce(m.rq, n.id);
        ReturnedOnce(m.rq, n.id);
        assert n == Need(Read, n.id);
      } else {
        TakesOnlyReads(m.rq);
        assert n !in Sanitized(ReturnedNeeds(m.rq));
      }
    }
  }

  // ---------------------------------------------------------------- requests that keep nothing

  /** A request that gives back all it took: any but a granted half of a split read. */
  predicate IsWhole(m: Made) {
    IsMade(m) && (m.granted && m.rq.kind.ReadRequest? ==> m.rq.readLock == m.rq.readUnlock)
  }

  predicate AllWhole(ms: seq<Made>) {
    forall i :: 0 <= i < |ms| ==> IsWhole(ms[i])
  }

  /** One handler for each request. */
  function Singles(ms: seq<Made>): (ts: seq<Task>)
    ensures |ts| == |ms| && forall i :: 0 <= i < |ts| ==> ts[i] == [ms[i]]
  {
    seq(|ms|, i requires 0 <= i < |ms| => [ms[i]])
  }

  function AllWishes(ms: seq<Made>): (us: seq<U.Wish>)
    requires AllWhole(ms)
    ensures |us| == |ms| && forall i :: 0 <= i < |us| ==> IsWhole(ms[i]) && us[i] == WishOf(ms[i].rq)
  {
    seq(|ms|, i requires 0 <= i < |ms| => assert IsWhole(ms[i]); WishOf(ms[i].rq))
  }

  lemma WholeSteps(m: Made)
    requires IsWhole(m)
    ensures IsTask([m]) && TaskProgram([m]) == Served(U.WishNeeds(WishOf(m.rq)), U.WishNeeds(WishOf(m.rq)))
  {
    SameNeeds(m.rq);
    OneProgram(m);
    assert GivenBack(m) == TakenNeeds(m.rq);
    hide Served, TaskProgram, DropsOwn, TakenNeeds, Held;
    CoveredDropsOwn([], m);
  }

  lemma WholeStart(ms: seq<Made>)
    requires AllWhole(ms)
    ensures AllTasks(Singles(ms)) && Begin(AllPrograms(Singles(ms))) == Start(U.AllNeeds(AllWishes(ms)))
  {
    hide TaskProgram, Served, WishOf, IsWhole;
    forall i | 0 <= i < |ms|
      ensures IsTask(Singles(ms)[i]) && AllMade([ms[i]])
      ensures TaskProgram([ms[i]]) == Served(U.WishNeeds(AllWishes(ms)[i]), U.WishNeeds(AllWishes(ms)[i]))
    {
      assert IsWhole(ms[i]);
      WholeSteps(ms[i]);
    }
    hide IsTask;
    assert AllTasks(Singles(ms));
    var x, y := Begin(AllPrograms(Singles(ms))), Start(U.AllNeeds(AllWishes(ms)));
    assert |x| == |y| && forall i :: 0 <= i < |x| ==> x[i] == y[i];
  }

  /** Any number of handlers with one whole request each can block each other for good, exactly when following
      which update leads to which comes round again: to one that reads the user to be written or, if announced
      writers go first, to one that writes what some request reads after that user. */
  lemma WholeRequestsDeadlockExactly(ms: seq<Made>, writersFirst: bool)
    requires AllWhole(ms)
    ensures AllTasks(Singles(ms))
    ensures
      (exists schedule :: Deadlocked(Exec(Begin(AllPrograms(Singles(ms))), schedule, writersFirst), writersFirst))
      <==> exists p :: U.Cycle(U.AllArranged(AllWishes(ms)), p, writersFirst)
  {
    WholeStart(ms);
    hide Exec, Deadlocked, Begin, Start, AllPrograms, AllTasks, Singles, AllWishes, U.AllArranged, U.Cycle;
    U.RequestsDeadlockExactlyInCycles(AllWishes(ms), writersFirst);
  }

  // ---------------------------------------------------------------- split reads

  /** A split read: a granted lock-only read, and the unlock-only read with the same signers and users. */
  function Split(rq: Request, granted: bool): Task {
    [Made(Half(rq, true), true), Made(Half(rq, false), granted)]
  }

  lemma SplitProgram(rq: Request, granted: bool)
    requires Checked(rq) && (rq.skipPermissions ==> granted)
    ensures AllMade(Split(rq, granted))
    ensures TaskProgram(Split(rq, granted)) == TaskProgram([Split(rq, granted)[0]]) + Steps(Split(rq, granted)[1])
  {
    OneMore([Split(rq, granted)[0]], Split(rq, granted)[1]);
    assert [Split(rq, granted)[0]] + [Split(rq, granted)[1]] == Split(rq, granted);
    hide Steps, TaskProgram;
  }

  /** It ends holding the requested users that are not signers, exactly if its second half is refused. */
  lemma SplitKeeps(rq: Request, granted: bool, id: string)
    requires Checked(rq) && rq.kind.ReadRequest? && (rq.skipPermissions ==> granted)
    ensures AllMade(Split(rq, granted))
    ensures Need(Read, id) in Held(TaskProgram(Split(rq, granted))) <==> !granted && id in rq.subjects && id !in SignerIds(rq)
  {
    SplitProgram(rq, granted);
    var a, b := Split(rq, granted)[0], Split(rq, granted)[1];
    OneProgram(a);
    StepsLeave([], a, id);
    StepsLeave(TaskProgram([a]), b, id);
    hide Steps, TaskProgram;
  }

  lemma SplitIsTask(rq: Request, granted: bool)
    requires Checked(rq) && rq.kind.ReadRequest? && (rq.skipPermissions ==> granted)
    ensures IsTask(Split(rq, granted))
  {
    var a, b := Split(rq, granted)[0], Split(rq, granted)[1];
    SplitProgram(rq, granted);
    SingleIsTask(a);
    forall id | id in rq.subjects && id !in SignerIds(rq) ensures Need(Read, id) in Held(TaskProgram([a])) {
      SingleKeeps(a, id);
    }
    if granted {
      UnlockIsCovered(TaskProgram([a]), b);
    } else {
      SameIsCovered(TaskProgram([a]), b);
    }
    hide Held, Steps, TaskProgram, Covered;
    CoveredDropsOwn(TaskProgram([a]), b);
  }

  /** A split read takes no user again while it holds the user. */
  lemma SplitTakesOnce(rq: Request, granted: bool, id: string)
    requires Checked(rq) && rq.kind.ReadRequest? && (rq.skipPermissions ==> granted)
    ensures AllMade(Split(rq, granted)) && !C.Rereads(TaskProgram(Split(rq, granted)), id)
  {
    var a, b := Split(rq, granted)[0], Split(rq, granted)[1];
    SplitProgram(rq, granted);
    SingleTakesOnce(a, id);
    RereadsServed(TaskProgram([a]), TakenNeeds(b.rq), GivenBack(b), id);
    SingleKeeps(a, id);
    TakenOnce(b.rq, id);
    hide Held, TaskProgram, TakenNeeds, ReturnedNeeds, Sanitized, C.Rereads;
  }

  /** A split read and one update can block each other for good, exactly when the second half is refused and the
      update is of a user who was asked for and is no signer. */
  lemma SplitReadDeadlocksExactly(rq: Request, granted: bool, update: Made, writersFirst: bool)
    requires Checked(rq) && rq.kind.ReadRequest? && (rq.skipPermissions ==> granted)
    requires IsMade(update) && update.rq.kind.UpdateRequest?
    ensures AllTasks([Split(rq, granted), [update]])
    ensures
      (exists schedule :: Deadlocked(Exec(Begin(AllPrograms([Split(rq, granted), [update]])), schedule, writersFirst), writersFirst))
      <==> !granted && update.rq.change.id in rq.subjects && update.rq.change.id !in SignerIds(rq)
  {
    var id := update.rq.change.id;
    SplitIsTask(rq, granted);
    SingleIsTask(update);
    SplitTakesOnce(rq, granted, id);
    SplitKeeps(rq, granted, id);
    UpdateHolds(update, id);
    hide Exec, Deadlocked, Begin, AllPrograms, TaskProgram, IsTask, Held, U.ClaimOf, U.Arranged, C.Rereads;
    TwoTasks(Split(rq, granted), [update], writersFirst);
  }

  // ---------------------------------------------------------------- a lock held around another read

  /** An unverified read that locks and unlocks. */
  predicate IsPlainRead(rq: Request) {
    rq.kind.ReadRequest? && rq.skipPermissions && rq.readLock && rq.readUnlock
  }

  /** A handler that keeps the users of one read locked while it makes another one. */
  function Around(outer: Request, inner: Request): Task {
    [Made(Half(outer, true), true), Made(inner, true), Made(Half(outer, false), true)]
  }

  lemma ThreeProgram(a: Made, b: Made, c: Made)
    requires IsMade(a) && IsMade(b) && IsMade(c)
    ensures AllMade([a, b, c]) && TaskProgram([a, b, c]) == TaskProgram([a]) + Steps(b) + Steps(c)
  {
    hide Steps, TaskProgram;
    OneMore([a], b);
    assert [a] + [b] == [a, b];
    OneMore([a, b], c);
    assert [a, b] + [c] == [a, b, c];
  }

  lemma OneMoreIsTask(t: Task, m: Made)
    requires IsTask(t) && NoUpdate(t) && IsMade(m) && !m.rq.kind.UpdateRequest? && Covered(TaskProgram(t), m)
    ensures IsTask(t + [m]) && NoUpdate(t + [m]) && TaskProgram(t + [m]) == TaskProgram(t) + Steps(m)
  {
    OneMore(t, m);
    NoUpdateMore(t, m);
    hide Steps, TaskProgram, Covered, DropsOwn, NoUpdate, IsMade;
    CoveredDropsOwn(TaskProgram(t), m);
  }

  lemma NoUpdateMore(t: Task, m: Made)
    requires NoUpdate(t) && !m.rq.kind.UpdateRequest?
    ensures NoUpdate(t + [m])
  {
  }

  lemma ThreeAreTask(a: Made, b: Made, c: Made)
    requires IsTask([a]) && NoUpdate([a]) && IsMade(b) && IsMade(c)
    requires !b.rq.kind.UpdateRequest? && !c.rq.kind.UpdateRequest?
    requires Covered(TaskProgram([a]), b) && Covered(TaskProgram([a]) + Steps(b), c)
    ensures IsTask([a, b, c])
  {
    hide Steps, TaskProgram, Covered, IsTask;
    OneMoreIsTask([a], b);
    OneMoreIsTask([a] + [b], c);
    assert [a] + [b] + [c] == [a, b, c];
  }

  lemma AroundProgram(outer: Request, inner: Request)
    requires IsPlainRead(outer) && IsPlainRead(inner)
    ensures
      var t := Around(outer, inner);
      && AllMade(t)
      && TaskProgram(t) == TaskProgram([t[0]]) + Steps(t[1]) + Steps(t[2])
  {
    hide Steps, TaskProgram;
    ThreeProgram(Made(Half(outer, true), true), Made(inner, true), Made(Half(outer, false), true));
  }

  lemma AroundIsTask(outer: Request, inner: Request)
    requires IsPlainRead(outer) && IsPlainRead(inner)
    ensures IsTask(Around(outer, inner))
  {
    var a, b, c := Made(Half(outer, true), true), Made(inner, true), Made(Half(outer, false), true);
    SingleIsTask(a);
    SameIsCovered(TaskProgram([a]), b);
    AroundUnlocks(outer, inner);
    hide Steps, TaskProgram, Covered, IsTask;
    ThreeAreTask(a, b, c);
  }

  lemma AroundUnlocks(outer: Request, inner: Request)
    requires IsPlainRead(outer) && IsPlainRead(inner)
    ensures Covered(TaskProgram([Around(outer, inner)[0]]) + Steps(Around(outer, inner)[1]), Around(outer, inner)[2])
  {
    var t := Around(outer, inner);
    var program := TaskProgram([t[0]]) + Steps(t[1]);
    hide Held, Steps, TaskProgram, Covered;
    forall id | id in outer.subjects ensures Need(Read, id) in Held(program) {
      SingleKeeps(t[0], id);
      StepsLeave(TaskProgram([t[0]]), t[1], id);
    }
    UnlockIsCovered(program, t[2]);
  }

  lemma AroundKeepsNothing(outer: Request, inner: Request, id: string)
    requires IsPlainRead(outer) && IsPlainRead(inner)
    ensures Need(Read, id) !in Held(TaskProgram(Around(outer, inner)))
  {
    var t := Around(outer, inner);
    var one := TaskProgram([t[0]]);
    AroundProgram(outer, inner);
    OneProgram(t[0]);
    StepsLeave([], t[0], id);
    StepsLeave(one, t[1], id);
    StepsLeave(one + Steps(t[1]), t[2], id);
    hide TaskProgram, Steps;
  }

  lemma AroundTakesTwice(outer: Request, inner: Request, id: string)
    requires IsPlainRead(outer) && IsPlainRead(inner)
    ensures C.Rereads(TaskProgram(Around(outer, inner)), id) <==> id in outer.subjects && id in inner.subjects
  {
    var t := Around(outer, inner);
    var one := TaskProgram([t[0]]);
    AroundProgram(outer, inner);
    SingleKeeps(t[0], id);
    SingleTakesOnce(t[0], id);
    TakenOnce(t[1].rq, id);
    TakenOnce(t[2].rq, id);
    hide Held, TaskProgram, TakenNeeds, ReturnedNeeds, Sanitized, C.Rereads, Served;
    RereadsServed(one, TakenNeeds(t[1].rq), GivenBack(t[1]), id);
    RereadsServed(one + Steps(t[1]), TakenNeeds(t[2].rq), GivenBack(t[2]), id);
  }

  /** A handler that keeps users read-locked while it waits for another read, as opening a channel keeps the
      certifier locked while the signers of waiting operations are looked up, and one update can block each
      other for good, exactly when announced writers go first and both reads are of the user to be changed. */
  lemma HeldReadDeadlocksExactly(outer: Request, inner: Request, update: Made, writersFirst: bool)
    requires IsPlainRead(outer) && IsPlainRead(inner) && IsMade(update) && update.rq.kind.UpdateRequest?
    ensures AllTasks([Around(outer, inner), [update]])
    ensures
      (exists schedule :: Deadlocked(Exec(Begin(AllPrograms([Around(outer, inner), [update]])), schedule, writersFirst), writersFirst))
      <==> writersFirst && update.rq.change.id in outer.subjects && update.rq.change.id in inner.subjects
  {
    var id := update.rq.change.id;
    AroundIsTask(outer, inner);
    SingleIsTask(update);
    AroundKeepsNothing(outer, inner, id);
    AroundTakesTwice(outer, inner, id);
    UpdateHolds(update, id);
    hide Exec, Deadlocked, Begin, AllPrograms, TaskProgram, IsTask, Held, U.ClaimOf, U.Arranged, C.Rereads;
    TwoTasks(Around(outer, inner), [update], writersFirst);
  }

  // ---------------------------------------------------------------- a split read beside two updates

  /** The first update is of a user who was asked for and is no signer, the second of one who signs both the read
      and the first update. */
  predicate Entangled(rq: Request, a: Made, b: Made)
    requires Checked(rq) && IsMade(a)
  {
    && a.rq.kind.UpdateRequest? && b.rq.kind.UpdateRequest?
    && a.rq.change.id in rq.subjects && a.rq.change.id !in SignerIds(rq)
    && b.rq.change.id in SignerIds(rq) && b.rq.change.id in SignerIds(a.rq)
  }

  /** A reader, and two writers of different records, the first of which reads what the second writes. */
  predicate Triple(cs: seq<C.Claim>, r: string, s: string) {
    && |cs| == 3 && cs[0].written.None? && cs[1].written == Some(r) && cs[2].written == Some(s)
    && Need(Read, s) in Held(cs[1].before)
  }

  lemma Waiting(cs: seq<C.Claim>, stops: seq<nat>, i: nat, j: nat, id: string, writersFirst: bool)
    requires C.Placed(cs, stops) && i < |cs| && j < |cs| && i != j
    requires cs[i].written == Some(id) && stops[i] == |cs[i].before| && Need(Read, id) in Held(cs[j].before[..stops[j]])
    ensures C.Waits(cs, stops, i, j, writersFirst)
  {
    hide Held;
  }

  lemma WaitingToRead(cs: seq<C.Claim>, stops: seq<nat>, i: nat, j: nat, id: string)
    requires C.Placed(cs, stops) && i < |cs| && j < |cs| && i != j
    requires cs[j].written == Some(id) && stops[j] == |cs[j].before|
    requires stops[i] < |cs[i].before| && cs[i].before[stops[i]] == Take(Need(Read, id))
    ensures C.Waits(cs, stops, i, j, true)
  {
    hide Held;
  }

  lemma TwoInCycle(cs: seq<C.Claim>, stops: seq<nat>, x: nat, y: nat, writersFirst: bool)
    requires C.Placed(cs, stops) && C.Waits(cs, stops, x, y, writersFirst) && C.Waits(cs, stops, y, x, writersFirst)
    ensures C.Cycle(cs, stops, [x, y], writersFirst)
  {
    hide C.Waits, C.Placed;
  }

  lemma ThreeInCycle(cs: seq<C.Claim>, stops: seq<nat>, x: nat, y: nat, z: nat, writersFirst: bool)
    requires C.Placed(cs, stops)
    requires C.Waits(cs, stops, x, y, writersFirst) && C.Waits(cs, stops, y, z, writersFirst) && C.Waits(cs, stops, z, x, writersFirst)
    ensures C.Cycle(cs, stops, [x, y, z], writersFirst)
  {
    hide C.Waits, C.Placed;
  }

  /** A place for the reader, with both writers at their writes. */
  function Stops(cs: seq<C.Claim>, k: nat): (stops: seq<nat>)
    requires |cs| == 3 && k <= |cs[0].before|
    ensures C.Placed(cs, stops) && stops[0] == k && stops[1] == |cs[1].before| && stops[2] == |cs[2].before|
    ensures cs[1].before[..stops[1]] == cs[1].before && cs[2].before[..stops[2]] == cs[2].before
  {
    [k, |cs[1].before|, |cs[2].before|]
  }

  lemma TripleWaits(cs: seq<C.Claim>, r: string, s: string, k: nat)
    requires Triple(cs, r, s) && k < |cs[0].before|
    requires cs[0].before[k] == Take(Need(Read, s)) && Need(Read, r) in Held(cs[0].before[..k])
    ensures C.Cycle(cs, Stops(cs, k), [1, 0, 2], true)
  {
    var stops := Stops(cs, k);
    hide Held, Stops, C.Cycle, C.Waits;
    Waiting(cs, stops, 1, 0, r, true);
    WaitingToRead(cs, stops, 0, 2, s);
    Waiting(cs, stops, 2, 1, s, true);
    ThreeInCycle(cs, stops, 1, 0, 2, true);
  }

  lemma TripleCrosses(cs: seq<C.Claim>, r: string, s: string, writersFirst: bool)
    requires Triple(cs, r, s) && Need(Read, r) in Held(cs[2].before)
    ensures C.Cycle(cs, Stops(cs, 0), [1, 2], writersFirst)
  {
    var stops := Stops(cs, 0);
    hide Held, Stops, C.Cycle, C.Waits;
    Waiting(cs, stops, 1, 2, r, writersFirst);
    Waiting(cs, stops, 2, 1, s, writersFirst);
    TwoInCycle(cs, stops, 1, 2, writersFirst);
  }

  /** Where announced writers do not go first only writers wait. */
  lemma WritersWaitOnly(cs: seq<C.Claim>, stops: seq<nat>, i: nat, j: nat)
    requires C.Placed(cs, stops) && C.Waits(cs, stops, i, j, false)
    ensures i < |cs| && j < |cs| && i != j && cs[i].written.Some? && stops[i] == |cs[i].before|
    ensures Need(Read, cs[i].written.value) in Held(cs[j].before[..stops[j]])
  {
  }

  lemma TripleStaysApart(cs: seq<C.Claim>, r: string, s: string, stops: seq<nat>, p: seq<nat>)
    requires Triple(cs, r, s) && C.Cycle(cs, stops, p, false)
    ensures Need(Read, r) in Held(cs[2].before)
  {
    hide C.Waits, Held;
    var l := C.NextIn(cs, stops, p, 0, false);
    var m := C.NextIn(cs, stops, p, l, false);
    var n := C.NextIn(cs, stops, p, m, false);
    WritersWaitOnly(cs, stops, p[0], p[l]);
    WritersWaitOnly(cs, stops, p[l], p[m]);
    WritersWaitOnly(cs, stops, p[m], p[n]);
    hide C.Cycle;
    assert cs[2].before[..|cs[2].before|] == cs[2].before;
  }

  lemma TripleCyclesExactly(cs: seq<C.Claim>, r: string, s: string, k: nat, writersFirst: bool)
    requires Triple(cs, r, s) && k < |cs[0].before|
    requires cs[0].before[k] == Take(Need(Read, s)) && Need(Read, r) in Held(cs[0].before[..k])
    ensures (exists stops, p :: C.Cycle(cs, stops, p, writersFirst)) <==> writersFirst || Need(Read, r) in Held(cs[2].before)
  {
    hide C.Cycle, Held, Stops;
    if writersFirst {
      TripleWaits(cs, r, s, k);
    } else {
      if Need(Read, r) in Held(cs[2].before) {
        TripleCrosses(cs, r, s, writersFirst);
      }
      if stops, p :| C.Cycle(cs, stops, p, false) {
        TripleStaysApart(cs, r, s, stops, p);
      }
    }
  }

  function Three(rq: Request, granted: bool, a: Made, b: Made): seq<Task> {
    [Split(rq, granted), [a], [b]]
  }

  lemma ThreeClaims(s: Task, t: Task, u: Task)
    requires IsTask(s) && IsTask(t) && IsTask(u)
    ensures AllTasks([s, t, u]) && AllClaims([s, t, u]) == [ClaimOf(s), ClaimOf(t), ClaimOf(u)]
  {
    hide IsTask, ClaimOf;
    var ts := [s, t, u];
    assert ts[0] == s && ts[1] == t && ts[2] == u;
  }

  lemma ThreeTasks(rq: Request, granted: bool, a: Made, b: Made)
    requires Checked(rq) && rq.kind.ReadRequest? && (rq.skipPermissions ==> granted) && IsMade(a) && IsMade(b)
    requires a.rq.kind.UpdateRequest? && b.rq.kind.UpdateRequest?
    ensures AllTasks(Three(rq, granted, a, b)) && AllMade(Split(rq, granted))
    ensures AllClaims(Three(rq, granted, a, b)) == [C.Claim(TaskProgram(Split(rq, granted)), None, []), ClaimOf([a]), ClaimOf([b])]
  {
    SplitIsTask(rq, granted);
    SingleIsTask(a);
    SingleIsTask(b);
    SplitClaim(rq, granted);
    hide IsTask, ClaimOf, Split, AllClaims, AllTasks, TaskProgram;
    ThreeClaims(Split(rq, granted), [a], [b]);
  }

  lemma SplitClaim(rq: Request, granted: bool)
    requires Checked(rq) && rq.kind.ReadRequest? && (rq.skipPermissions ==> granted)
    ensures AllMade(Split(rq, granted))
    ensures ClaimOf(Split(rq, granted)) == C.Claim(TaskProgram(Split(rq, granted)), None, [])
  {
    SplitProgram(rq, granted);
    hide TaskProgram, U.ClaimOf, U.Arranged;
  }

  /** What the claims of the three hold. */
  lemma ThreeHold(rq: Request, granted: bool, a: Made, b: Made)
    requires Checked(rq) && rq.kind.ReadRequest? && (rq.skipPermissions ==> granted) && IsMade(a) && IsMade(b)
    requires Entangled(rq, a, b)
    ensures
      var ts, r, s := Three(rq, granted, a, b), a.rq.change.id, b.rq.change.id;
      && AllTasks(ts)
      && Triple(AllClaims(ts), r, s)
      && (Need(Read, r) in Held(AllClaims(ts)[2].before) <==> r in SignerIds(b.rq))
      && (Need(Read, r) in Held(AllClaims(ts)[0].before) <==> !granted)
      && Need(Read, s) !in Held(AllClaims(ts)[0].before)
  {
    ThreeTasks(rq, granted, a, b);
    hide Held, TaskProgram, AllClaims, ClaimOf, Three, Split, AllTasks, AllMade, Triple;
    ClaimsHold(AllClaims(Three(rq, granted, a, b)), rq, granted, a, b);
  }

  lemma ClaimsHold(cs: seq<C.Claim>, rq: Request, granted: bool, a: Made, b: Made)
    requires Checked(rq) && rq.kind.ReadRequest? && (rq.skipPermissions ==> granted) && IsMade(a) && IsMade(b)
    requires Entangled(rq, a, b) && AllMade(Split(rq, granted))
    requires |cs| == 3 && cs[0] == C.Claim(TaskProgram(Split(rq, granted)), None, []) && cs[1] == ClaimOf([a]) && cs[2] == ClaimOf([b])
    ensures Triple(cs, a.rq.change.id, b.rq.change.id)
    ensures Need(Read, a.rq.change.id) in Held(cs[2].before) <==> a.rq.change.id in SignerIds(b.rq)
    ensures Need(Read, a.rq.change.id) in Held(cs[0].before) <==> !granted
    ensures Need(Read, b.rq.change.id) !in Held(cs[0].before)
  {
    hide Held, TaskProgram, ClaimOf, Split, AllMade;
    ReadsOfUpdates(a, b);
    SplitKeeps(rq, granted, a.rq.change.id);
    SplitKeeps(rq, granted, b.rq.change.id);
  }

  lemma ReadsOfUpdates(a: Made, b: Made)
    requires IsMade(a) && IsMade(b) && a.rq.kind.UpdateRequest? && b.rq.kind.UpdateRequest? && a.rq.change.id != b.rq.change.id
    ensures ClaimOf([a]).written == Some(a.rq.change.id) && ClaimOf([b]).written == Some(b.rq.change.id)
    ensures Need(Read, b.rq.change.id) in Held(ClaimOf([a]).before) <==> b.rq.change.id in SignerIds(a.rq)
    ensures Need(Read, a.rq.change.id) in Held(ClaimOf([b]).before) <==> a.rq.change.id in SignerIds(b.rq)
  {
    hide Held, ClaimOf;
    UpdateHolds(a, b.rq.change.id);
    UpdateHolds(b, a.rq.change.id);
  }

  /** Where a split read takes a signer for the second time, it still holds the users it asked for. */
  lemma SecondTake(rq: Request, granted: bool, signer: string, id: string) returns (k: nat)
    requires Checked(rq) && rq.kind.ReadRequest? && (rq.skipPermissions ==> granted)
    requires signer in SignerIds(rq) && id in rq.subjects && id !in SignerIds(rq)
    ensures AllMade(Split(rq, granted))
    ensures
      var program := TaskProgram(Split(rq, granted));
      k < |program| && program[k] == Take(Need(Read, signer)) && Need(Read, id) in Held(program[..k])
  {
    var a, b := Made(Half(rq, true), true), Made(Half(rq, false), granted);
    SplitProgram(rq, granted);
    SingleKeeps(a, id);
    TakenOnce(b.rq, signer);
    hide Held, TaskProgram, TakenNeeds, ReturnedNeeds, Sanitized, Served;
    k := TakesLater(TaskProgram([a]), TakenNeeds(b.rq), GivenBack(b), signer, id);
  }

  lemma TakesLater(program: seq<Action>, taken: seq<Need>, returned: seq<Need>, signer: string, id: string) returns (k: nat)
    requires multiset(Sanitized(taken))[Need(Read, signer)] == 1 && Need(Read, id) in Held(program)
    ensures
      var whole := program + Served(taken, returned);
      k < |whole| && whole[k] == Take(Need(Read, signer)) && Need(Read, id) in Held(whole[..k])
  {
    hide Held, Sanitized, Served;
    var x := PlaceOf(Sanitized(taken), Need(Read, signer));
    HeldWithin(program, taken, returned, x);
    k := |program| + x;
  }

  lemma PlaceOf(needs: seq<Need>, n: Need) returns (x: nat)
    requires multiset(needs)[n] == 1
    ensures x < |needs| && needs[x] == n
  {
    assert n in multiset(needs);
    x :| x < |needs| && needs[x] == n;
  }

  /** The three of them can block each other for good, exactly when the second half of the read is refused, or
      announced writers go first, or the two updates already block each other. */
  lemma EntangledDeadlockExactly(rq: Request, granted: bool, a: Made, b: Made, writersFirst: bool)
    requires Checked(rq) && rq.kind.ReadRequest? && (rq.skipPermissions ==> granted) && IsMade(a) && IsMade(b)
    requires Entangled(rq, a, b)
    ensures AllTasks(Three(rq, granted, a, b))
    ensures
      (exists schedule :: Deadlocked(Exec(Begin(AllPrograms(Three(rq, granted, a, b))), schedule, writersFirst), writersFirst))
      <==> !granted || writersFirst || a.rq.change.id in SignerIds(b.rq)
  {
    ThreeHold(rq, granted, a, b);
    var ts := Three(rq, granted, a, b);
    hide Exec, Deadlocked, Begin, AllPrograms, C.Cycle, AllClaims, AllTasks, Three, Held;
    TasksDeadlockExactly(ts, writersFirst);
    if granted {
      TripleKeepsNothing(AllClaims(ts), a.rq.change.id, b.rq.change.id);
      var k := SecondTakeInClaim(rq, granted, a, b);
      TripleCyclesExactly(AllClaims(ts), a.rq.change.id, b.rq.change.id, k, writersFirst);
    } else {
      assert C.KeptFrom(AllClaims(ts), 1, 0);
    }
  }

  lemma TripleKeepsNothing(cs: seq<C.Claim>, r: string, s: string)
    requires Triple(cs, r, s) && Need(Read, r) !in Held(cs[0].before) && Need(Read, s) !in Held(cs[0].before)
    ensures !exists i, j :: C.KeptFrom(cs, i, j)
  {
    hide Held;
  }

  lemma SecondTakeInClaim(rq: Request, granted: bool, a: Made, b: Made) returns (k: nat)
    requires Checked(rq) && rq.kind.ReadRequest? && (rq.skipPermissions ==> granted) && IsMade(a) && IsMade(b)
    requires Entangled(rq, a, b)
    ensures AllTasks(Three(rq, granted, a, b))
    ensures
      var cs := AllClaims(Three(rq, granted, a, b));
      && |cs| == 3 && k < |cs[0].before| && cs[0].before[k] == Take(Need(Read, b.rq.change.id))
      && Need(Read, a.rq.change.id) in Held(cs[0].before[..k])
  {
    ThreeTasks(rq, granted, a, b);
    hide AllClaims, AllTasks, Three, Held, TaskProgram, ClaimOf, Split, AllMade;
    k := SecondTake(rq, granted, b.rq.change.id, a.rq.change.id);
  }
}
