/** Handlers that make requests to the users daemon one after another, many at once: when they block each other for
    good. Every request is taken to find its records. */
module UserTasks {
  import opened Common
  import opened LockNeeds
  import opened UserServer
  import opened UserLocks
  import opened Deadlock
  import C = ClaimsDeadlock
  import U = UsersDeadlock

  /** A request, and whether its certifier is granted it. */
  datatype Made = Made(rq: Request, granted: bool)

  predicate IsMade(m: Made) {
    Checked(m.rq) && (m.rq.skipPermissions ==> m.granted)
  }

  /** The needs given back at the end of a request. */
  function GivenBack(m: Made): seq<Need>
    requires IsMade(m)
  {
    if m.granted then ReturnedNeeds(m.rq) else TakenNeeds(m.rq)
  }

  function Steps(m: Made): seq<Action>
    requires IsMade(m)
  {
    Served(TakenNeeds(m.rq), GivenBack(m))
  }

  /** What one handler asks for, in order; each request waits for the answer to the one before. */
  type Task = seq<Made>

  predicate AllMade(t: Task) {
    forall i :: 0 <= i < |t| ==> IsMade(t[i])
  }

  function TaskProgram(t: Task): seq<Action>
    requires AllMade(t)
  {
    if t == [] then [] else TaskProgram(t[..|t| - 1]) + Steps(t[|t| - 1])
  }

  predicate DropsOwnAt(program: seq<Action>, k: nat)
    requires k < |program|
  {
    program[k].Drop? ==> program[k].need in Held(program[..k])
  }

  /** Nothing is dropped that is not held. */
  predicate DropsOwn(program: seq<Action>) {
    forall k: nat :: k < |program| ==> DropsOwnAt(program, k)
  }

  predicate OneUpdate(t: Task) {
    |t| == 1 && t[0].rq.kind.UpdateRequest?
  }

  predicate NoUpdate(t: Task) {
    forall i :: 0 <= i < |t| ==> !t[i].rq.kind.UpdateRequest?
  }

  /** A handler makes one update, or any reads and creations, and gives back only what it holds. */
  predicate IsTask(t: Task) {
    AllMade(t) && (OneUpdate(t) || NoUpdate(t)) && DropsOwn(TaskProgram(t))
  }

  predicate AllTasks(ts: seq<Task>) {
    forall i :: 0 <= i < |ts| ==> IsTask(ts[i])
  }

  function AllPrograms(ts: seq<Task>): (r: seq<seq<Action>>)
    requires AllTasks(ts)
    ensures |r| == |ts| && forall i :: 0 <= i < |ts| ==> r[i] == TaskProgram(ts[i])
  {
    seq(|ts|, i requires 0 <= i < |ts| => assert IsTask(ts[i]); TaskProgram(ts[i]))
  }

  // ---------------------------------------------------------------- tasks as claims

  function SignersToRead(rq: Request): seq<string>
    requires Checked(rq)
  {
    if rq.skipPermissions then [] else [rq.signers.value.issuerId, rq.signers.value.certifierId]
  }

  /** What a request of any kind reads and writes. */
  function WishOf(rq: Request): U.Wish
    requires Checked(rq)
  {
    U.Wish(SignersToRead(rq) + (if rq.kind.ReadRequest? && rq.readLock then rq.subjects else []),
           if rq.kind.UpdateRequest? then Some(rq.change.id) else None)
  }

  lemma SameNeeds(rq: Request)
    requires Checked(rq)
    ensures TakenNeeds(rq) == U.WishNeeds(WishOf(rq))
  {
    var a, b := TakenNeeds(rq), U.WishNeeds(WishOf(rq));
    assert |a| == |b| && forall i :: 0 <= i < |a| ==> a[i] == b[i];
  }

  function ClaimOf(t: Task): C.Claim
    requires AllMade(t)
  {
    if OneUpdate(t) then U.ClaimOf(U.Arranged(WishOf(t[0].rq))) else C.Claim(TaskProgram(t), None, [])
  }

  function AllClaims(ts: seq<Task>): (cs: seq<C.Claim>)
    requires AllTasks(ts)
    ensures |cs| == |ts| && forall i :: 0 <= i < |ts| ==> IsTask(ts[i]) && cs[i] == ClaimOf(ts[i])
  {
    seq(|ts|, i requires 0 <= i < |ts| => assert IsTask(ts[i]); ClaimOf(ts[i]))
  }

  lemma TakesOnlyReads(rq: Request)
    requires Checked(rq) && !rq.kind.UpdateRequest?
    ensures forall n :: n in Sanitized(TakenNeeds(rq)) ==> n.mode.Read?
    ensures forall n :: n in Sanitized(ReturnedNeeds(rq)) ==> n.mode.Read?
  {
    assert forall n :: n in TakenNeeds(rq) ==> n.mode.Read?;
    assert forall n :: n in ReturnedNeeds(rq) ==> n.mode.Read?;
    assert forall n :: n in Sanitized(TakenNeeds(rq)) ==> n in Elements(Sanitized(TakenNeeds(rq)));
    assert forall n :: n in Sanitized(ReturnedNeeds(rq)) ==> n in Elements(Sanitized(ReturnedNeeds(rq)));
  }

  lemma StepsRead(m: Made)
    requires IsMade(m) && !m.rq.kind.UpdateRequest?
    ensures forall k :: 0 <= k < |Steps(m)| ==> Steps(m)[k].need.mode.Read?
  {
    TakesOnlyReads(m.rq);
    hide TakenNeeds, ReturnedNeeds, Sanitized;
    var takes, drops := Sanitized(TakenNeeds(m.rq)), Reversed(Sanitized(GivenBack(m)));
    forall k | 0 <= k < |Steps(m)| ensures Steps(m)[k].need.mode.Read? {
      if k < |takes| {
        assert Steps(m)[k].need == takes[k];
      } else {
        assert Steps(m)[k].need == drops[k - |takes|];
      }
    }
  }

  lemma {:induction false} TaskReads(t: Task)
    requires AllMade(t) && NoUpdate(t)
    ensures forall k :: 0 <= k < |TaskProgram(t)| ==> TaskProgram(t)[k].need.mode.Read?
  {
    if t != [] {
      TaskReads(t[..|t| - 1]);
      StepsRead(t[|t| - 1]);
      hide Steps;
    }
  }

  lemma UpdateProgram(t: Task)
    requires AllMade(t) && OneUpdate(t)
    ensures TaskProgram(t) == Served(TakenNeeds(t[0].rq), TakenNeeds(t[0].rq)) == C.Program(ClaimOf(t))
  {
    SameNeeds(t[0].rq);
    U.RequestStarts(WishOf(t[0].rq));
    assert t[..0] == [];
    assert TaskProgram(t[..0]) + Steps(t[0]) == Steps(t[0]);
    hide TakenNeeds, Served, U.Arranged, U.ClaimOf, C.Program;
  }

  lemma TaskIsClaim(t: Task)
    requires IsTask(t)
    ensures C.Fit(ClaimOf(t)) && C.Program(ClaimOf(t)) == TaskProgram(t)
  {
    if OneUpdate(t) {
      UpdateProgram(t);
      U.WishIsFit(U.Arranged(WishOf(t[0].rq)));
    } else {
      TaskReads(t);
    }
    hide TaskProgram, U.ClaimOf, U.Arranged, Held;
  }

  lemma TasksAreClaims(ts: seq<Task>)
    requires AllTasks(ts)
    ensures C.AllFit(AllClaims(ts)) && C.Programs(AllClaims(ts)) == AllPrograms(ts)
  {
    hide C.Fit, C.Program, TaskProgram, ClaimOf;
    forall i | 0 <= i < |ts| ensures C.Fit(AllClaims(ts)[i]) && C.Programs(AllClaims(ts))[i] == AllPrograms(ts)[i] {
      TaskIsClaim(ts[i]);
    }
  }

  /** Any number of handlers that make updates, reads, split reads and creations at the same time, verified or
      not, granted or not, can block each other for good, exactly when one ends without giving back a user that
      another one is to change, or when there are places for all of them from which following who waits for whom
      comes round. */
  lemma TasksDeadlockExactly(ts: seq<Task>, writersFirst: bool)
    requires AllTasks(ts)
    ensures (exists schedule :: Deadlocked(Exec(Begin(AllPrograms(ts)), schedule, writersFirst), writersFirst))
            <==> (exists i, j :: C.KeptFrom(AllClaims(ts), i, j)) || exists stops, p :: C.Cycle(AllClaims(ts), stops, p, writersFirst)
  {
    TasksAreClaims(ts);
    hide Exec, Deadlocked, Begin, C.Programs, C.AllFit, C.KeptFrom, C.Cycle, AllClaims, AllPrograms;
    C.ClaimsDeadlockExactly(AllClaims(ts), writersFirst);
  }

  /** Without an update among them nobody ever waits for good. */
  lemma ReadsAndCreationsNeverDeadlock(ts: seq<Task>, schedule: seq<nat>, writersFirst: bool)
    requires AllTasks(ts) && forall i :: 0 <= i < |ts| ==> NoUpdate(ts[i])
    ensures !Deadlocked(Exec(Begin(AllPrograms(ts)), schedule, writersFirst), writersFirst)
  {
    var cs := AllClaims(ts);
    forall i | 0 <= i < |cs| ensures cs[i].written.None? {
      assert NoUpdate(ts[i]);
    }
    hide Exec, Deadlocked, Begin, AllPrograms, AllClaims, C.Cycle;
    TasksDeadlockExactly(ts, writersFirst);
    if stops, p :| C.Cycle(cs, stops, p, writersFirst) {
      var i := C.CycleHasWriter(cs, stops, p, writersFirst);
      assert false;
    }
  }

  // ---------------------------------------------------------------- what a task holds

  lemma {:induction false} DistinctOnce(s: seq<Need>, n: Need)
    requires Distinct(s)
    ensures multiset(s)[n] == if n in s then 1 else 0
  {
    if s != [] {
      var front, last := s[..|s| - 1], s[|s| - 1];
      DistinctOnce(front, n);
      assert s == front + [last];
    }
  }

  lemma SanitizedOnce(needs: seq<Need>, n: Need)
    ensures multiset(Sanitized(needs))[n] == if n in Strongest(Elements(needs)) then 1 else 0
  {
    CanonicalIsDistinct(Sanitized(needs));
    DistinctOnce(Sanitized(needs), n);
    assert n in Sanitized(needs) <==> n in Elements(Sanitized(needs));
    hide Sanitized, Strongest;
  }

  /** Whether a read of a user is taken before a request, and given back after it. */
  predicate IsTaken(rq: Request, id: string)
    requires Checked(rq)
  {
    id in SignerIds(rq) || (rq.kind.ReadRequest? && rq.readLock && id in rq.subjects)
  }

  predicate IsGivenBack(m: Made, id: string)
    requires IsMade(m)
  {
    if m.granted then id in SignerIds(m.rq) || (m.rq.kind.ReadRequest? && m.rq.readUnlock && id in m.rq.subjects)
    else IsTaken(m.rq, id)
  }

  lemma TakenOnce(rq: Request, id: string)
    requires Checked(rq) && !rq.kind.UpdateRequest?
    ensures multiset(Sanitized(TakenNeeds(rq)))[Need(Read, id)] == if IsTaken(rq, id) then 1 else 0
  {
    var extra := if rq.kind.ReadRequest? && rq.readLock then rq.subjects else [];
    assert TakenNeeds(rq) == SignerNeeds(rq) + Reads(extra);
    ReadNeeds(rq, id, extra);
    SanitizedOnce(TakenNeeds(rq), Need(Read, id));
    hide TakenNeeds, SignerNeeds, Reads, Sanitized, Strongest;
  }

  lemma ReturnedOnce(rq: Request, id: string)
    requires Checked(rq) && !rq.kind.UpdateRequest?
    ensures multiset(Sanitized(ReturnedNeeds(rq)))[Need(Read, id)]
            == if id in SignerIds(rq) || (rq.kind.ReadRequest? && rq.readUnlock && id in rq.subjects) then 1 else 0
  {
    var extra := if rq.kind.ReadRequest? && rq.readUnlock then rq.subjects else [];
    assert SignerNeeds(rq) + Reads([]) == SignerNeeds(rq);
    assert ReturnedNeeds(rq) == SignerNeeds(rq) + Reads(extra);
    ReadNeeds(rq, id, extra);
    SanitizedOnce(ReturnedNeeds(rq), Need(Read, id));
    hide ReturnedNeeds, SignerNeeds, Reads, Sanitized, Strongest;
  }

  /** What one more request adds to what is held, or takes away. */
  lemma StepsLeave(program: seq<Action>, m: Made, id: string)
    requires IsMade(m) && !m.rq.kind.UpdateRequest?
    ensures
      var n, before := Need(Read, id), Held(program);
      Held(program + Steps(m))[n]
      == if !IsGivenBack(m, id) then before[n] + (if IsTaken(m.rq, id) then 1 else 0)
         else if IsTaken(m.rq, id) then before[n]
         else if before[n] > 0 then before[n] - 1 else 0
  {
    HeldAfterServed(program, TakenNeeds(m.rq), GivenBack(m));
    TakenOnce(m.rq, id);
    ReturnedOnce(m.rq, id);
    hide Held, TakenNeeds, ReturnedNeeds, Sanitized;
  }

  /** The accounts of the lock table and of the program agree: a request that finds its records, and gives back
      only what is held, changes what its handler holds by what it leaves on the lock. */
  lemma HeldIsLeft(store: Store, program: seq<Action>, m: Made, id: string)
    requires IsMade(m) && !m.rq.kind.UpdateRequest? && NeedsKnown(store, m.rq) && !ReadFails(store, m.rq)
    requires m.granted == (Answer(store, m.rq) == Success)
    requires Held(program)[Need(Read, id)] + Left(store, m.rq, id) >= 0
    ensures Held(program + Steps(m))[Need(Read, id)] == Held(program)[Need(Read, id)] + Left(store, m.rq, id)
  {
    StepsLeave(program, m, id);
    if m.rq.kind.ReadRequest? {
      ReadRunsExactly(store, m.rq);
    }
    hide Held, Steps;
  }

  lemma OneProgram(m: Made)
    requires IsMade(m)
    ensures TaskProgram([m]) == [] + Steps(m) == Steps(m)
  {
    assert [m][..0] == [];
    hide Steps;
  }

  lemma OneMore(t: Task, m: Made)
    requires AllMade(t) && IsMade(m)
    ensures AllMade(t + [m]) && TaskProgram(t + [m]) == TaskProgram(t) + Steps(m)
  {
    assert (t + [m])[..|t|] == t;
    hide Steps;
  }

  /** A single request ends holding a user exactly if it is a granted lock-only read of a user who is not a
      signer. */
  lemma SingleKeeps(m: Made, id: string)
    requires IsMade(m) && !m.rq.kind.UpdateRequest?
    ensures Need(Read, id) in Held(TaskProgram([m])) <==> IsTaken(m.rq, id) && !IsGivenBack(m, id)
  {
    OneProgram(m);
    StepsLeave([], m, id);
    hide Steps, TaskProgram;
  }

  // ---------------------------------------------------------------- two handlers

  /** A program takes something twice within a request only if it held it before. */
  lemma RereadsServed(program: seq<Action>, taken: seq<Need>, returned: seq<Need>, id: string)
    ensures
      C.Rereads(program + Served(taken, returned), id)
      <==> C.Rereads(program, id) || (Need(Read, id) in Held(program) && Need(Read, id) in Sanitized(taken))
  {
    hide Held, Sanitized, Served, C.RereadsAt;
    var whole, n := program + Served(taken, returned), Need(Read, id);
    if C.Rereads(program, id) {
      var k: nat :| k < |program| && C.RereadsAt(program, id, k);
      SameRereadAtFront(program, Served(taken, returned), id, k);
    }
    if n in Held(program) && n in Sanitized(taken) {
      var a: nat :| a < |Sanitized(taken)| && Sanitized(taken)[a] == n;
      TakesAgain(program, taken, returned, id, a);
    }
    if C.Rereads(whole, id) {
      var k: nat :| k < |whole| && C.RereadsAt(whole, id, k);
      if k < |program| {
        SameRereadAtFront(program, Served(taken, returned), id, k);
      } else {
        RereadsWithin(program, taken, returned, id, k - |program|);
      }
    }
  }

  lemma SameRereadAtFront(program: seq<Action>, more: seq<Action>, id: string, k: nat)
    requires k < |program|
    ensures C.RereadsAt(program + more, id, k) == C.RereadsAt(program, id, k)
  {
    hide Held;
    assert (program + more)[..k] == program[..k];
  }

  lemma HeldWithin(program: seq<Action>, taken: seq<Need>, returned: seq<Need>, a: nat)
    requires a < |Sanitized(taken)|
    ensures
      var whole := program + Served(taken, returned);
      && |program| + a < |whole| && whole[|program| + a] == Take(Sanitized(taken)[a])
      && Held(whole[..|program| + a]) == Held(program) + multiset(Sanitized(taken)[..a])
  {
    var r := Sanitized(taken);
    HeldAfterTakes(program, r[..a]);
    hide Held, Sanitized, Served;
    ServedWithin(program, taken, returned, a);
  }

  lemma ServedWithin(program: seq<Action>, taken: seq<Need>, returned: seq<Need>, a: nat)
    requires a < |Sanitized(taken)|
    ensures
      var whole := program + Served(taken, returned);
      && |program| + a < |whole| && whole[|program| + a] == Take(Sanitized(taken)[a])
      && whole[..|program| + a] == program + TakeAll(Sanitized(taken)[..a])
  {
    hide Sanitized, Reversed;
    var x, y := (program + Served(taken, returned))[..|program| + a], program + TakeAll(Sanitized(taken)[..a]);
    assert |x| == |y| && forall k :: 0 <= k < |x| ==> x[k] == y[k];
  }

  lemma TakesAgain(program: seq<Action>, taken: seq<Need>, returned: seq<Need>, id: string, a: nat)
    requires a < |Sanitized(taken)| && Sanitized(taken)[a] == Need(Read, id) && Need(Read, id) in Held(program)
    ensures C.Rereads(program + Served(taken, returned), id)
  {
    HeldWithin(program, taken, returned, a);
    hide Held, Sanitized, Served;
    assert C.RereadsAt(program + Served(taken, returned), id, |program| + a);
  }

  lemma RereadsWithin(program: seq<Action>, taken: seq<Need>, returned: seq<Need>, id: string, a: nat)
    requires a < |Served(taken, returned)| && C.RereadsAt(program + Served(taken, returned), id, |program| + a)
    ensures Need(Read, id) in Held(program) && Need(Read, id) in Sanitized(taken)
  {
    var r := Sanitized(taken);
    assert a < |r|;
    HeldWithin(program, taken, returned, a);
    CanonicalIsDistinct(r);
    hide Held, Sanitized, Served;
    assert r[a] == Need(Read, id) && Need(Read, id) !in r[..a];
  }

  lemma NoRereads(id: string)
    ensures Held([]) == multiset{} && !C.Rereads([], id)
  {
  }

  /** A single request takes nothing twice. */
  lemma SingleTakesOnce(m: Made, id: string)
    requires IsMade(m)
    ensures !C.Rereads(TaskProgram([m]), id) && !C.Rereads(ClaimOf([m]).before, id)
  {
    OneProgram(m);
    NoRereads(id);
    RereadsServed([], TakenNeeds(m.rq), GivenBack(m), id);
    if OneUpdate([m]) {
      UpdateProgram([m]);
      BeforeIsPrefix(ClaimOf([m]), TaskProgram([m]), id);
    }
  }

  lemma BeforeIsPrefix(u: C.Claim, program: seq<Action>, id: string)
    requires C.Program(u) == program
    ensures C.Rereads(u.before, id) ==> C.Rereads(program, id)
  {
    hide Held;
    if k: nat :| k < |u.before| && C.RereadsAt(u.before, id, k) {
      assert program[..k] == u.before[..k];
      assert C.RereadsAt(program, id, k);
    }
  }

  /** An update reads its signers, but for the user it changes. */
  lemma UpdateHolds(m: Made, id: string)
    requires IsMade(m) && m.rq.kind.UpdateRequest?
    ensures ClaimOf([m]).written == Some(m.rq.change.id)
    ensures Need(Read, id) in Held(ClaimOf([m]).before) <==> id in SignerIds(m.rq) && id != m.rq.change.id
  {
    var u := U.Arranged(WishOf(m.rq));
    U.WishHolds(u, |u.read|, id);
    assert u.read[..|u.read|] == u.read && U.ClaimOf(u).before[..|u.read|] == U.ClaimOf(u).before;
    assert id in U.Readers(WishOf(m.rq)) <==> id in SignersToRead(m.rq) && id != m.rq.change.id;
    hide Held, U.Arranged, U.ClaimOf, U.Readers;
  }

  /** A granted lock-only read that keeps the user another request changes. */
  predicate KeepsFor(m: Made, other: Made)
    requires IsMade(m)
  {
    && other.rq.kind.UpdateRequest? && m.granted && m.rq.kind.ReadRequest? && m.rq.readLock && !m.rq.readUnlock
    && other.rq.change.id in m.rq.subjects && other.rq.change.id !in SignerIds(m.rq)
  }

  lemma SingleClash(a: Made, b: Made, writersFirst: bool)
    requires IsMade(a) && IsMade(b)
    ensures C.Clash(ClaimOf([a]), ClaimOf([b]), writersFirst) <==> KeepsFor(b, a)
  {
    if a.rq.kind.UpdateRequest? {
      var id := a.rq.change.id;
      UpdateHolds(a, id);
      SingleTakesOnce(b, id);
      if b.rq.kind.UpdateRequest? {
        UpdateHolds(b, id);
      } else {
        SingleKeeps(b, id);
      }
    }
    hide Held, TaskProgram, U.ClaimOf, U.Arranged, C.Rereads;
  }

  lemma SinglesCross(a: Made, b: Made)
    requires IsMade(a) && IsMade(b)
    ensures C.Crossed(ClaimOf([a]), ClaimOf([b]))
            <==> a.rq.kind.UpdateRequest? && b.rq.kind.UpdateRequest? && a.rq.change.id != b.rq.change.id
                 && a.rq.change.id in SignerIds(b.rq) && b.rq.change.id in SignerIds(a.rq)
  {
    if a.rq.kind.UpdateRequest? && b.rq.kind.UpdateRequest? {
      UpdateHolds(a, b.rq.change.id);
      UpdateHolds(b, a.rq.change.id);
    }
    hide Held, TaskProgram, U.ClaimOf, U.Arranged;
  }

  lemma TwoTasks(s: Task, t: Task, writersFirst: bool)
    requires IsTask(s) && IsTask(t)
    ensures AllTasks([s, t])
    ensures
      (exists schedule :: Deadlocked(Exec(Begin(AllPrograms([s, t])), schedule, writersFirst), writersFirst))
      <==> C.Clash(ClaimOf(s), ClaimOf(t), writersFirst) || C.Clash(ClaimOf(t), ClaimOf(s), writersFirst)
           || C.Crossed(ClaimOf(s), ClaimOf(t))
  {
    TwoStart(s, t);
    TaskIsClaim(s);
    TaskIsClaim(t);
    hide Exec, Deadlocked, Begin, AllPrograms, C.Programs, C.Clash, C.Crossed, C.Fit, ClaimOf;
    C.TwoClaimsDeadlockExactly(ClaimOf(s), ClaimOf(t), writersFirst);
  }

  lemma TwoStart(s: Task, t: Task)
    requires IsTask(s) && IsTask(t)
    ensures AllTasks([s, t]) && AllPrograms([s, t]) == C.Programs([ClaimOf(s), ClaimOf(t)])
  {
    TaskIsClaim(s);
    TaskIsClaim(t);
    hide ClaimOf, TaskProgram, IsTask, C.Fit, C.Program;
    var ts, cs := [s, t], [ClaimOf(s), ClaimOf(t)];
    assert ts[0] == s && ts[1] == t && cs[0] == ClaimOf(s) && cs[1] == ClaimOf(t);
    var x, y := AllPrograms(ts), C.Programs(cs);
    assert |x| == |y| == 2 && x[0] == y[0] && x[1] == y[1];
  }

  /** Two handlers with one request each can block each other for good, exactly when they update different users
      and each is signed by the user the other changes, or one is a granted lock-only read that keeps the user
      the other changes. */
  lemma TwoRequestsDeadlockExactly(a: Made, b: Made, writersFirst: bool)
    requires IsTask([a]) && IsTask([b])
    ensures AllTasks([[a], [b]])
    ensures
      (exists schedule :: Deadlocked(Exec(Begin(AllPrograms([[a], [b]])), schedule, writersFirst), writersFirst))
      <==> KeepsFor(a, b) || KeepsFor(b, a)
           || (a.rq.kind.UpdateRequest? && b.rq.kind.UpdateRequest? && a.rq.change.id != b.rq.change.id
               && a.rq.change.id in SignerIds(b.rq) && b.rq.change.id in SignerIds(a.rq))
  {
    TwoTasks([a], [b], writersFirst);
    assert IsMade([a][0]) && IsMade([b][0]);
    hide Exec, Deadlocked, Begin, AllPrograms, C.Clash, C.Crossed, KeepsFor, IsTask, ClaimOf;
    SingleClash(a, b, writersFirst);
    SingleClash(b, a, writersFirst);
    SinglesCross(a, b);
  }
}
