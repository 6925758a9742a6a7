/** Parties that read and drop locks in any order and may then write once: when they block each other for good. */
module ClaimsDeadlock {
  import opened Common
  import opened LockNeeds
  import opened Deadlock

  /** Records are read and dropped in any order; then, if there is one, a record is written, and after that locks
      are only dropped. */
  datatype Claim = Claim(before: seq<Action>, written: Option<string>, after: seq<Action>)

  function Program(u: Claim): seq<Action> {
    u.before + (if u.written.Some? then [Take(Need(Write, u.written.value))] else []) + u.after
  }

  /** A writer drops all it took and does not write what it still reads; a reader may keep locks when it ends. */
  predicate Fit(u: Claim) {
    && (forall k :: 0 <= k < |u.before| ==> u.before[k].need.mode.Read?)
    && (forall k :: 0 <= k < |u.after| ==> u.after[k].Drop?)
    && (u.written.None? ==> u.after == [])
    && (u.written.Some? ==> Held(Program(u)) == multiset{} && Need(Read, u.written.value) !in Held(u.before))
  }

  predicate AllFit(us: seq<Claim>) {
    forall i :: 0 <= i < |us| ==> Fit(us[i])
  }

  function Programs(us: seq<Claim>): (r: seq<seq<Action>>)
    ensures |r| == |us| && forall i :: 0 <= i < |us| ==> r[i] == Program(us[i])
  {
    seq(|us|, i requires 0 <= i < |us| => Program(us[i]))
  }

  lemma {:induction false} ReadersHoldReads(program: seq<Action>)
    requires forall k :: 0 <= k < |program| ==> program[k].need.mode.Read?
    ensures forall m :: m in Held(program) ==> m.mode.Read?
  {
    if program != [] {
      ReadersHoldReads(program[..|program| - 1]);
    }
  }

  /** Up to its write a claim holds reads only. */
  lemma BeforeTheWrite(u: Claim, k: nat)
    requires Fit(u) && k <= |u.before|
    ensures Program(u)[..k] == u.before[..k] && forall m :: m in Held(u.before[..k]) ==> m.mode.Read?
  {
    ReadersHoldReads(u.before[..k]);
    hide Held;
    Prefix(u.before, Program(u), k);
  }

  lemma Prefix(a: seq<Action>, b: seq<Action>, k: nat)
    requires a <= b && k <= |a|
    ensures b[..k] == a[..k]
  {
  }

  lemma AfterTheWrite(u: Claim)
    requires Fit(u)
    ensures forall k :: |u.before| < k < |Program(u)| ==> Program(u)[k].Drop?
    ensures |u.before| < |Program(u)| ==> u.written.Some? && Program(u)[|u.before|] == Take(Need(Write, u.written.value))
  {
    hide Held;
    forall k | |u.before| < k < |Program(u)| ensures Program(u)[k].Drop? {
      assert Program(u)[k] == u.after[k - |u.before| - 1];
    }
  }

  // ---------------------------------------------------------------- who waits for whom

  /** A place for each party, up to its write. */
  predicate Placed(us: seq<Claim>, stops: seq<nat>) {
    |stops| == |us| && forall i :: 0 <= i < |us| ==> stops[i] <= |us[i].before|
  }

  predicate AtWrite(us: seq<Claim>, stops: seq<nat>, i: nat)
    requires Placed(us, stops)
  {
    i < |us| && us[i].written.Some? && stops[i] == |us[i].before|
  }

  predicate AtRead(us: seq<Claim>, stops: seq<nat>, i: nat, id: string)
    requires Placed(us, stops)
  {
    i < |us| && stops[i] < |us[i].before| && us[i].before[stops[i]] == Take(Need(Read, id))
  }

  predicate Ended(us: seq<Claim>, stops: seq<nat>, i: nat)
    requires Placed(us, stops)
  {
    i < |us| && us[i].written.None? && stops[i] == |us[i].before|
  }

  predicate HoldsAt(us: seq<Claim>, stops: seq<nat>, j: nat, id: string)
    requires Placed(us, stops) && j < |us|
  {
    Need(Read, id) in Held(us[j].before[..stops[j]])
  }

  /** At these places one party waits for another: to write what the other one holds or, if announced writers go
      first, to read what the other one is about to write. */
  predicate Waits(us: seq<Claim>, stops: seq<nat>, i: nat, j: nat, writersFirst: bool)
    requires Placed(us, stops)
  {
    && i < |us| && j < |us| && i != j
    && ((AtWrite(us, stops, i) && HoldsAt(us, stops, j, us[i].written.value))
        || (writersFirst && AtWrite(us, stops, j) && AtRead(us, stops, i, us[j].written.value)))
  }

  predicate WaitsWithin(us: seq<Claim>, stops: seq<nat>, c: set<nat>, i: nat, writersFirst: bool)
    requires Placed(us, stops)
  {
    exists j: nat :: j < |us| && (j in c || Ended(us, stops, j)) && Waits(us, stops, i, j, writersFirst)
  }

  /** Some parties each of which waits for another of them, or for one that has ended. */
  predicate Closed(us: seq<Claim>, stops: seq<nat>, c: set<nat>, writersFirst: bool) {
    Placed(us, stops) && c != {} && forall i :: i in c ==> WaitsWithin(us, stops, c, i, writersFirst)
  }

  // ---------------------------------------------------------------- a deadlock is closed

  /** The parties of a run keep their programs. */
  predicate Parties(us: seq<Claim>, s: State) {
    AllSound(s) && |s| == |us| && forall i :: 0 <= i < |us| ==> s[i].program == Program(us[i])
  }

  lemma StartsAsParties(us: seq<Claim>, schedule: seq<nat>, writersFirst: bool)
    ensures Parties(us, Exec(Begin(Programs(us)), schedule, writersFirst))
  {
    hide Exec, Program;
    ExecKeepsPrograms(Begin(Programs(us)), schedule, writersFirst);
  }

  /** Where the parties of a run stand; those past their write hold nothing that matters. */
  function Places(us: seq<Claim>, s: State): (stops: seq<nat>)
    requires Parties(us, s)
    ensures Placed(us, stops) && forall i :: 0 <= i < |us| ==> stops[i] == if s[i].at <= |us[i].before| then s[i].at else 0
  {
    seq(|us|, i requires 0 <= i < |us| => if s[i].at <= |us[i].before| then s[i].at else 0)
  }

  lemma StuckPlace(us: seq<Claim>, s: State, i: nat, writersFirst: bool)
    requires AllFit(us) && Parties(us, s) && Stuck(s, i, writersFirst)
    ensures
      var n := s[i].program[s[i].at].need;
      && s[i].at == Places(us, s)[i] && Holding(s[i]) == Held(us[i].before[..s[i].at])
      && (if n.mode.Write? then AtWrite(us, Places(us, s), i) && s[i].announced && n.id == us[i].written.value
          else AtRead(us, Places(us, s), i, n.id))
  {
    var u, k := us[i], s[i].at;
    assert Fit(u);
    hide Held, Obstructs;
    if k < |u.before| {
      assert Program(u)[k] == u.before[k];
    }
    AfterTheWrite(u);
    BeforeTheWrite(u, k);
  }

  lemma EndedPlace(us: seq<Claim>, s: State, k: nat)
    requires AllFit(us) && Parties(us, s) && k < |us| && Done(s[k])
    ensures us[k].written.Some? ==> Holding(s[k]) == multiset{}
    ensures us[k].written.None? ==> Ended(us, Places(us, s), k) && Holding(s[k]) == Held(us[k].before[..Places(us, s)[k]])
  {
    var u := us[k];
    assert Fit(u);
    hide Held;
    assert s[k].program[..s[k].at] == Program(u);
    if u.written.None? {
      assert Program(u) == u.before == u.before[..|u.before|];
    }
  }

  /** Whoever holds something in a deadlock holds reads only, at its place. */
  lemma HolderPlace(us: seq<Claim>, s: State, k: nat, m: Need, writersFirst: bool)
    requires AllFit(us) && Parties(us, s) && Deadlocked(s, writersFirst) && k < |us| && m in Holding(s[k])
    ensures Stuck(s, k, writersFirst) || Ended(us, Places(us, s), k)
    ensures m.mode.Read? && HoldsAt(us, Places(us, s), k, m.id)
  {
    assert !CanStep(s, k, writersFirst);
    var stops := Places(us, s);
    if Done(s[k]) {
      EndedPlace(us, s, k);
    } else {
      assert Stuck(s, k, writersFirst);
      StuckPlace(us, s, k, writersFirst);
    }
    BeforeTheWrite(us[k], stops[k]);
    hide Held, CanStep, Holding;
    assert m == Need(m.mode, m.id);
  }

  lemma StuckWaits(us: seq<Claim>, s: State, i: nat, writersFirst: bool) returns (k: nat)
    requires AllFit(us) && Parties(us, s) && Deadlocked(s, writersFirst) && Stuck(s, i, writersFirst)
    ensures k < |us| && (Stuck(s, k, writersFirst) || Ended(us, Places(us, s), k))
    ensures Waits(us, Places(us, s), i, k, writersFirst)
  {
    StuckPlace(us, s, i, writersFirst);
    var n := s[i].program[s[i].at].need;
    k :| k < |s| && k != i && (Obstructs(s[k], n) || (writersFirst && Announced(s[k], n)));
    if Obstructs(s[k], n) {
      var m :| m in Holding(s[k]) && Conflict(m, n);
      HolderPlace(us, s, k, m, writersFirst);
    } else {
      assert !CanStep(s, k, writersFirst);
      assert Stuck(s, k, writersFirst);
      StuckPlace(us, s, k, writersFirst);
    }
  }

  lemma SomeoneIsStuck(us: seq<Claim>, s: State, writersFirst: bool) returns (one: nat)
    requires Parties(us, s) && Deadlocked(s, writersFirst)
    ensures one < |us| && Stuck(s, one, writersFirst)
  {
    one :| one < |s| && !Done(s[one]);
    assert !CanStep(s, one, writersFirst);
  }

  lemma StuckOnes(us: seq<Claim>, s: State, writersFirst: bool) returns (c: set<nat>)
    requires AllSound(s)
    ensures forall i: nat :: i in c <==> i < |us| && Stuck(s, i, writersFirst)
  {
    hide Stuck;
    c := set i: nat | i < |us| && Stuck(s, i, writersFirst);
  }

  lemma DeadlockIsClosed(us: seq<Claim>, s: State, writersFirst: bool) returns (stops: seq<nat>, c: set<nat>)
    requires AllFit(us) && Parties(us, s) && Deadlocked(s, writersFirst)
    ensures Closed(us, stops, c, writersFirst)
  {
    stops := Places(us, s);
    var one := SomeoneIsStuck(us, s, writersFirst);
    hide Deadlocked, Stuck, Waits, Places, Ended;
    c := StuckOnes(us, s, writersFirst);
    forall i | i in c ensures WaitsWithin(us, stops, c, i, writersFirst) {
      var k := StuckWaits(us, s, i, writersFirst);
    }
  }

  // ---------------------------------------------------------------- what is closed can deadlock

  function Repeat(i: nat, k: nat): seq<nat> {
    if k == 0 then [] else Repeat(i, k - 1) + [i]
  }

  predicate HoldsOnlyReads(p: Party)
    requires Sound(p)
  {
    !p.announced && forall m :: m in Holding(p) ==> m.mode.Read?
  }

  /** Nobody but `i` holds or announces a write. */
  predicate OthersRead(s: State, i: nat)
    requires AllSound(s)
  {
    forall j :: 0 <= j < |s| && j != i ==> HoldsOnlyReads(s[j])
  }

  lemma ReadsOn(s: State, i: nat, writersFirst: bool)
    requires AllSound(s) && OthersRead(s, i)
    requires i < |s| && !s[i].announced && !Done(s[i]) && s[i].program[s[i].at].need.mode.Read?
    ensures Next(s, i, writersFirst) == s[i := s[i].(at := s[i].at + 1)]
  {
    hide Holding;
    forall j | 0 <= j < |s| && j != i
      ensures !Obstructs(s[j], s[i].program[s[i].at].need) && !Announced(s[j], s[i].program[s[i].at].need)
    {
      assert HoldsOnlyReads(s[j]);
    }
    assert CanStep(s, i, writersFirst);
  }

  /** While nobody holds or announces a write, a party reads on unhindered. */
  lemma {:induction false} ReadsUpTo(s: State, i: nat, k: nat, writersFirst: bool)
    requires AllSound(s) && OthersRead(s, i) && i < |s| && !s[i].announced && s[i].at == 0 && k <= |s[i].program|
    requires forall a :: 0 <= a < k ==> s[i].program[a].need.mode.Read?
    ensures Exec(s, Repeat(i, k), writersFirst) == s[i := s[i].(at := k)]
  {
    if k > 0 {
      ReadsUpTo(s, i, k - 1, writersFirst);
      ExecOne(s, Repeat(i, k - 1), i, writersFirst);
      OthersStill(s, i, s[i].(at := k - 1));
      hide HoldsOnlyReads, Next, Exec, OthersRead, AllSound;
      ReadsOn(s[i := s[i].(at := k - 1)], i, writersFirst);
    } else {
      assert s[i := s[i].(at := 0)] == s;
    }
  }

  lemma OthersStill(s: State, i: nat, p: Party)
    requires AllSound(s) && i < |s| && OthersRead(s, i) && Sound(p)
    ensures AllSound(s[i := p]) && OthersRead(s[i := p], i)
  {
  }

  /** Whether a party is one of those that are to wait for their writes. */
  predicate IsToWrite(us: seq<Claim>, stops: seq<nat>, c: set<nat>, i: nat)
    requires Placed(us, stops)
  {
    i in c && AtWrite(us, stops, i)
  }

  /** The first `a` parties have come to their places, and those of the first `b` that are to write have
      announced it. */
  function Midway(us: seq<Claim>, stops: seq<nat>, c: set<nat>, a: nat, b: nat): (s: State)
    requires Placed(us, stops)
    ensures |s| == |us| && forall i :: 0 <= i < |us| ==> s[i] == Let(us, stops, c, i, a, b)
  {
    seq(|us|, i requires 0 <= i < |us| => Let(us, stops, c, i, a, b))
  }

  function Let(us: seq<Claim>, stops: seq<nat>, c: set<nat>, i: nat, a: nat, b: nat): Party
    requires Placed(us, stops) && i < |us|
  {
    Party(Program(us[i]), if i < a then stops[i] else 0, i < b && IsToWrite(us, stops, c, i))
  }

  lemma MidwayIsSound(us: seq<Claim>, stops: seq<nat>, c: set<nat>, a: nat, b: nat)
    requires Placed(us, stops) && b <= a
    ensures AllSound(Midway(us, stops, c, a, b))
  {
    forall i | 0 <= i < |us| ensures Sound(Let(us, stops, c, i, a, b)) {
    }
  }

  lemma LetHolds(us: seq<Claim>, stops: seq<nat>, c: set<nat>, i: nat, a: nat, b: nat)
    requires AllFit(us) && Placed(us, stops) && i < a && b <= a && i < |us|
    ensures Sound(Let(us, stops, c, i, a, b)) && Holding(Let(us, stops, c, i, a, b)) == Held(us[i].before[..stops[i]])
  {
    BeforeTheWrite(us[i], stops[i]);
  }

  lemma LetReads(us: seq<Claim>, stops: seq<nat>, c: set<nat>, i: nat, a: nat)
    requires AllFit(us) && Placed(us, stops) && i < |us|
    ensures Sound(Let(us, stops, c, i, a, 0)) && HoldsOnlyReads(Let(us, stops, c, i, a, 0))
    ensures forall k :: 0 <= k < stops[i] ==> Program(us[i])[k].need.mode.Read?
  {
    assert Fit(us[i]);
    BeforeTheWrite(us[i], stops[i]);
    BeforeTheWrite(us[i], 0);
    hide Held;
  }

  lemma OneMoreReads(us: seq<Claim>, stops: seq<nat>, c: set<nat>, a: nat, writersFirst: bool)
    requires AllFit(us) && Placed(us, stops) && a < |us| && AllSound(Midway(us, stops, c, a, 0))
    ensures Exec(Midway(us, stops, c, a, 0), Repeat(a, stops[a]), writersFirst) == Midway(us, stops, c, a + 1, 0)
  {
    var s := Midway(us, stops, c, a, 0);
    forall j | 0 <= j < |s| ensures HoldsOnlyReads(s[j]) {
      LetReads(us, stops, c, j, a);
    }
    LetReads(us, stops, c, a, a);
    hide Program, HoldsOnlyReads, Exec, Next;
    ReadsUpTo(s, a, stops[a], writersFirst);
    assert s[a := s[a].(at := stops[a])] == Midway(us, stops, c, a + 1, 0);
  }

  lemma {:induction false} ReadersGetThere(us: seq<Claim>, stops: seq<nat>, c: set<nat>, a: nat, writersFirst: bool)
    returns (schedule: seq<nat>)
    requires AllFit(us) && Placed(us, stops) && a <= |us|
    ensures AllSound(Midway(us, stops, c, a, 0))
    ensures Exec(Begin(Programs(us)), schedule, writersFirst) == Midway(us, stops, c, a, 0)
  {
    MidwayIsSound(us, stops, c, a, 0);
    if a == 0 {
      schedule := [];
      hide Program;
      assert Begin(Programs(us)) == Midway(us, stops, c, 0, 0);
    } else {
      MidwayIsSound(us, stops, c, a - 1, 0);
      hide Exec, Midway, Begin, Programs, AllSound, Next, AllFit;
      var before := ReadersGetThere(us, stops, c, a - 1, writersFirst);
      OneMoreReads(us, stops, c, a - 1, writersFirst);
      ExecSplits(Begin(Programs(us)), before, Repeat(a - 1, stops[a - 1]), writersFirst);
      schedule := before + Repeat(a - 1, stops[a - 1]);
    }
  }

  lemma OneMoreAnnounces(us: seq<Claim>, stops: seq<nat>, c: set<nat>, b: nat, writersFirst: bool)
    requires Placed(us, stops) && b < |us| && AllSound(Midway(us, stops, c, |us|, b))
    ensures
      if IsToWrite(us, stops, c, b) then Next(Midway(us, stops, c, |us|, b), b, writersFirst) == Midway(us, stops, c, |us|, b + 1)
      else Midway(us, stops, c, |us|, b) == Midway(us, stops, c, |us|, b + 1)
  {
    var s, t := Midway(us, stops, c, |us|, b), Midway(us, stops, c, |us|, b + 1);
    if IsToWrite(us, stops, c, b) {
      Announces(s, b, writersFirst);
      hide Next, AllSound, Program;
      assert s[b := s[b].(announced := true)] == t;
    } else {
      assert s == t;
    }
  }

  lemma Announces(s: State, i: nat, writersFirst: bool)
    requires AllSound(s) && i < |s| && !s[i].announced && !Done(s[i]) && TakesWrite(s[i].program[s[i].at])
    ensures Next(s, i, writersFirst) == s[i := s[i].(announced := true)]
  {
    assert CanStep(s, i, writersFirst);
  }

  lemma {:induction false} WritersGetThere(us: seq<Claim>, stops: seq<nat>, c: set<nat>, b: nat, writersFirst: bool)
    returns (schedule: seq<nat>)
    requires AllFit(us) && Placed(us, stops) && b <= |us|
    ensures AllSound(Midway(us, stops, c, |us|, b))
    ensures Exec(Begin(Programs(us)), schedule, writersFirst) == Midway(us, stops, c, |us|, b)
  {
    MidwayIsSound(us, stops, c, |us|, b);
    if b == 0 {
      schedule := ReadersGetThere(us, stops, c, |us|, writersFirst);
    } else {
      MidwayIsSound(us, stops, c, |us|, b - 1);
      hide Exec, Midway, Begin, Programs, AllSound, Next, AllFit, IsToWrite;
      schedule := WritersGetThere(us, stops, c, b - 1, writersFirst);
      OneMoreAnnounces(us, stops, c, b - 1, writersFirst);
      if IsToWrite(us, stops, c, b - 1) {
        ExecOne(Begin(Programs(us)), schedule, b - 1, writersFirst);
        schedule := schedule + [b - 1];
      }
    }
  }

  lemma WaitingIsBlocked(us: seq<Claim>, stops: seq<nat>, c: set<nat>, i: nat, j: nat, writersFirst: bool)
    requires AllFit(us) && Placed(us, stops) && i in c && Waits(us, stops, i, j, writersFirst) && (j in c || Ended(us, stops, j))
    ensures
      var s := Midway(us, stops, c, |us|, |us|);
      AllSound(s) && j < |s| && (j in c || Done(s[j])) && Blocks(s, j, i, writersFirst)
  {
    MidwayIsSound(us, stops, c, |us|, |us|);
    LetHolds(us, stops, c, j, |us|, |us|);
    var s := Midway(us, stops, c, |us|, |us|);
    assert s[i] == Let(us, stops, c, i, |us|, |us|) && s[j] == Let(us, stops, c, j, |us|, |us|);
    hide Held, Holding, Midway, AllSound;
    if AtWrite(us, stops, i) && HoldsAt(us, stops, j, us[i].written.value) {
      var id := us[i].written.value;
      assert Conflict(Need(Read, id), Need(Write, id));
      assert Obstructs(s[j], Need(Write, id));
    }
  }

  lemma ClosedJams(us: seq<Claim>, stops: seq<nat>, c: set<nat>, writersFirst: bool)
    requires AllFit(us) && Closed(us, stops, c, writersFirst)
    ensures AllSound(Midway(us, stops, c, |us|, |us|)) && Jammed(Midway(us, stops, c, |us|, |us|), c, writersFirst)
  {
    MidwayIsSound(us, stops, c, |us|, |us|);
    hide Waits, Midway, AllSound, BlockedWithin, Ended, Blocks;
    var s := Midway(us, stops, c, |us|, |us|);
    forall i | i in c ensures BlockedWithin(s, c, i, writersFirst) {
      assert WaitsWithin(us, stops, c, i, writersFirst);
      var j: nat :| j < |us| && (j in c || Ended(us, stops, j)) && Waits(us, stops, i, j, writersFirst);
      WaitingIsBlocked(us, stops, c, i, j, writersFirst);
      Witness(s, c, i, j, writersFirst);
    }
  }

  lemma ClosedDeadlocks(us: seq<Claim>, stops: seq<nat>, c: set<nat>, writersFirst: bool) returns (schedule: seq<nat>)
    requires AllFit(us) && Closed(us, stops, c, writersFirst)
    ensures Deadlocked(Exec(Begin(Programs(us)), schedule, writersFirst), writersFirst)
  {
    ClosedJams(us, stops, c, writersFirst);
    var s := Midway(us, stops, c, |us|, |us|);
    hide WaitsWithin, Midway, Exec, Deadlocked, Jammed, Begin, Programs, AllFit;
    var there := WritersGetThere(us, stops, c, |us|, writersFirst);
    var more := JamDeadlocks(s, c, writersFirst);
    ExecSplits(Begin(Programs(us)), there, more, writersFirst);
    schedule := there + more;
  }

  lemma DeadlockExactlyWhenClosed(us: seq<Claim>, writersFirst: bool)
    requires AllFit(us)
    ensures (exists schedule :: Deadlocked(Exec(Begin(Programs(us)), schedule, writersFirst), writersFirst))
            <==> exists stops, c :: Closed(us, stops, c, writersFirst)
  {
    hide Closed, Exec, Deadlocked, Begin, Programs, Parties, AllFit;
    if stops, c :| Closed(us, stops, c, writersFirst) {
      var schedule := ClosedDeadlocks(us, stops, c, writersFirst);
    }
    if schedule :| Deadlocked(Exec(Begin(Programs(us)), schedule, writersFirst), writersFirst) {
      StartsAsParties(us, schedule, writersFirst);
      var stops, c := DeadlockIsClosed(us, Exec(Begin(Programs(us)), schedule, writersFirst), writersFirst);
    }
  }

  // ---------------------------------------------------------------- the exact condition

  /** One party ends without dropping what another one is to write. */
  predicate KeptFrom(us: seq<Claim>, i: nat, j: nat) {
    && i < |us| && j < |us| && i != j && us[i].written.Some? && us[j].written.None?
    && Need(Read, us[i].written.value) in Held(us[j].before)
  }

  predicate Path(us: seq<Claim>, stops: seq<nat>, p: seq<nat>, writersFirst: bool) {
    Placed(us, stops) && p != [] && forall k :: 0 <= k < |p| - 1 ==> Waits(us, stops, p[k], p[k + 1], writersFirst)
  }

  /** With everybody at one place, each waits for the next, and the last one for the first. */
  predicate Cycle(us: seq<Claim>, stops: seq<nat>, p: seq<nat>, writersFirst: bool) {
    Path(us, stops, p, writersFirst) && Waits(us, stops, p[|p| - 1], p[0], writersFirst)
  }

  lemma NextIn(us: seq<Claim>, stops: seq<nat>, p: seq<nat>, k: nat, writersFirst: bool) returns (l: nat)
    requires Cycle(us, stops, p, writersFirst) && k < |p|
    ensures l < |p| && Waits(us, stops, p[k], p[l], writersFirst)
  {
    l := if k < |p| - 1 then k + 1 else 0;
  }

  lemma CycleHasWriter(us: seq<Claim>, stops: seq<nat>, p: seq<nat>, writersFirst: bool) returns (i: nat)
    requires Cycle(us, stops, p, writersFirst)
    ensures i < |us| && us[i].written.Some?
  {
    var l := NextIn(us, stops, p, 0, writersFirst);
    i := if AtWrite(us, stops, p[0]) then p[0] else p[l];
  }

  lemma KeptIsClosed(us: seq<Claim>, i: nat, j: nat, writersFirst: bool) returns (stops: seq<nat>)
    requires KeptFrom(us, i, j)
    ensures Closed(us, stops, {i}, writersFirst)
  {
    stops := seq(|us|, k requires 0 <= k < |us| => |us[k].before|);
    assert us[j].before[..stops[j]] == us[j].before;
    hide Held;
    assert Ended(us, stops, j) && Waits(us, stops, i, j, writersFirst);
    assert WaitsWithin(us, stops, {i}, i, writersFirst);
  }

  lemma CycleIsClosed(us: seq<Claim>, stops: seq<nat>, p: seq<nat>, writersFirst: bool) returns (c: set<nat>)
    requires Cycle(us, stops, p, writersFirst)
    ensures Closed(us, stops, c, writersFirst)
  {
    c := set i | i in p;
    assert p[0] in c;
    forall i | i in c ensures WaitsWithin(us, stops, c, i, writersFirst) {
      var k :| 0 <= k < |p| && p[k] == i;
      var j := if k < |p| - 1 then p[k + 1] else p[0];
      assert j in c && Waits(us, stops, i, j, writersFirst) && j < |us|;
    }
  }

  predicate LeadsOn(us: seq<Claim>, stops: seq<nat>, c: set<nat>, i: nat, writersFirst: bool)
    requires Placed(us, stops)
  {
    exists j :: j in c && Waits(us, stops, i, j, writersFirst)
  }

  lemma FollowOn(us: seq<Claim>, stops: seq<nat>, c: set<nat>, i: nat, writersFirst: bool) returns (j: nat)
    requires Placed(us, stops) && LeadsOn(us, stops, c, i, writersFirst)
    ensures j in c && Waits(us, stops, i, j, writersFirst)
  {
    j :| j in c && Waits(us, stops, i, j, writersFirst);
  }

  /** Following who waits for whom within some parties, someone comes round again. */
  lemma {:induction false} WalkComesRound(us: seq<Claim>, stops: seq<nat>, c: set<nat>, p: seq<nat>, unused: set<nat>, writersFirst: bool)
    returns (cycle: seq<nat>)
    requires Path(us, stops, p, writersFirst) && forall k :: 0 <= k < |p| ==> p[k] in c
    requires forall i :: i in c ==> LeadsOn(us, stops, c, i, writersFirst)
    requires forall i :: i in c ==> i in p || i in unused
    ensures Cycle(us, stops, cycle, writersFirst)
    decreases unused
  {
    hide Waits, LeadsOn, Placed;
    var j := FollowOn(us, stops, c, p[|p| - 1], writersFirst);
    if j in p {
      var k :| 0 <= k < |p| && p[k] == j;
      cycle := p[k..];
    } else {
      cycle := WalkComesRound(us, stops, c, p + [j], unused - {j}, writersFirst);
    }
  }

  lemma EndedIsKept(us: seq<Claim>, stops: seq<nat>, i: nat, j: nat, writersFirst: bool)
    requires Placed(us, stops) && Waits(us, stops, i, j, writersFirst) && Ended(us, stops, j)
    ensures KeptFrom(us, i, j)
  {
    assert us[j].before[..stops[j]] == us[j].before;
  }

  /** Who waits within a closed set waits on within it, or for what is kept. */
  lemma ClosedLeadsOn(us: seq<Claim>, stops: seq<nat>, c: set<nat>, i: nat, writersFirst: bool)
    requires Closed(us, stops, c, writersFirst) && i in c
    ensures LeadsOn(us, stops, c, i, writersFirst) || exists j :: KeptFrom(us, i, j)
  {
    assert WaitsWithin(us, stops, c, i, writersFirst);
    hide Waits, Ended, KeptFrom;
    var j: nat :| j < |us| && (j in c || Ended(us, stops, j)) && Waits(us, stops, i, j, writersFirst);
    if j !in c {
      EndedIsKept(us, stops, i, j, writersFirst);
    }
  }

  lemma ClosedComesRound(us: seq<Claim>, stops: seq<nat>, c: set<nat>, writersFirst: bool)
    requires Closed(us, stops, c, writersFirst)
    ensures (exists i, j :: KeptFrom(us, i, j)) || exists p :: Cycle(us, stops, p, writersFirst)
  {
    hide WaitsWithin, LeadsOn, Waits, KeptFrom, Cycle;
    if forall i :: i in c ==> LeadsOn(us, stops, c, i, writersFirst) {
      var one :| one in c;
      var p := WalkComesRound(us, stops, c, [one], c - {one}, writersFirst);
    } else {
      var i :| i in c && !LeadsOn(us, stops, c, i, writersFirst);
      ClosedLeadsOn(us, stops, c, i, writersFirst);
    }
  }

  /** Any number of parties that read and drop in any order, and may then write, can block each other for good,
      exactly when one ends keeping what another one is to write, or when there are places for all of them from
      which following who waits for whom comes round. */
  lemma ClaimsDeadlockExactly(us: seq<Claim>, writersFirst: bool)
    requires AllFit(us)
    ensures (exists schedule :: Deadlocked(Exec(Begin(Programs(us)), schedule, writersFirst), writersFirst))
            <==> (exists i, j :: KeptFrom(us, i, j)) || exists stops, p :: Cycle(us, stops, p, writersFirst)
  {
    DeadlockExactlyWhenClosed(us, writersFirst);
    hide Exec, Deadlocked, Begin, Programs, Closed, Cycle, KeptFrom, AllFit;
    if stops, c :| Closed(us, stops, c, writersFirst) {
      ClosedComesRound(us, stops, c, writersFirst);
    }
    if i, j :| KeptFrom(us, i, j) {
      var stops := KeptIsClosed(us, i, j, writersFirst);
    }
    if stops, p :| Cycle(us, stops, p, writersFirst) {
      var c := CycleIsClosed(us, stops, p, writersFirst);
    }
  }

  // ---------------------------------------------------------------- two parties

  /** A reader that ends without dropping a record. */
  predicate Keeps(u: Claim, id: string) {
    u.written.None? && Need(Read, id) in Held(u.before)
  }

  /** Someone that holds a record and takes it once more. */
  predicate Rereads(program: seq<Action>, id: string) {
    exists k: nat :: k < |program| && RereadsAt(program, id, k)
  }

  predicate RereadsAt(program: seq<Action>, id: string, k: nat)
    requires k < |program|
  {
    program[k] == Take(Need(Read, id)) && Need(Read, id) in Held(program[..k])
  }

  /** A writer meets a reader that keeps the record, or takes it again once the write is announced. */
  predicate Clash(u: Claim, v: Claim, writersFirst: bool) {
    u.written.Some? && (Keeps(v, u.written.value) || (writersFirst && Rereads(v.before, u.written.value)))
  }

  /** Each holds what the other one is to write. */
  predicate Crossed(u: Claim, v: Claim) {
    && u.written.Some? && v.written.Some?
    && Need(Read, u.written.value) in Held(v.before) && Need(Read, v.written.value) in Held(u.before)
  }

  lemma CycleOfTwo(us: seq<Claim>, stops: seq<nat>, p: seq<nat>, writersFirst: bool)
    requires |us| == 2 && Cycle(us, stops, p, writersFirst)
    ensures Placed(us, stops) && Waits(us, stops, 0, 1, writersFirst) && Waits(us, stops, 1, 0, writersFirst)
  {
    hide Waits;
    var l := NextIn(us, stops, p, 0, writersFirst);
    var m := NextIn(us, stops, p, l, writersFirst);
    WaitsInRange(us, stops, p[0], p[l], writersFirst);
    WaitsInRange(us, stops, p[l], p[m], writersFirst);
    hide Cycle;
  }

  lemma WaitsInRange(us: seq<Claim>, stops: seq<nat>, i: nat, j: nat, writersFirst: bool)
    requires Placed(us, stops) && Waits(us, stops, i, j, writersFirst)
    ensures i < |us| && j < |us| && i != j
  {
  }

  /** One of two that wait for each other is at its write, and what it waits for is held. */
  lemma WaitingForEachOther(us: seq<Claim>, stops: seq<nat>, i: nat, j: nat, writersFirst: bool)
    requires Placed(us, stops) && Waits(us, stops, i, j, writersFirst) && Waits(us, stops, j, i, writersFirst)
    ensures Clash(us[i], us[j], writersFirst) || Clash(us[j], us[i], writersFirst) || Crossed(us[i], us[j])
  {
    hide Held;
    var k, l := stops[i], stops[j];
    assert k == |us[i].before| ==> us[i].before[..k] == us[i].before;
    assert l == |us[j].before| ==> us[j].before[..l] == us[j].before;
    if AtWrite(us, stops, i) && AtRead(us, stops, j, us[i].written.value) {
      assert RereadsAt(us[j].before, us[i].written.value, l);
    } else if AtWrite(us, stops, j) && AtRead(us, stops, i, us[j].written.value) {
      assert RereadsAt(us[i].before, us[j].written.value, k);
    }
  }

  lemma PairIsClosed(us: seq<Claim>, stops: seq<nat>, i: nat, j: nat, writersFirst: bool)
    requires Placed(us, stops) && i < |us| && j < |us|
    requires Waits(us, stops, i, j, writersFirst) && Waits(us, stops, j, i, writersFirst)
    ensures Closed(us, stops, {i, j}, writersFirst)
  {
    hide Waits, Ended, Placed;
    assert WaitsWithin(us, stops, {i, j}, i, writersFirst);
    assert WaitsWithin(us, stops, {i, j}, j, writersFirst);
  }

  lemma ClashIsClosed(us: seq<Claim>, i: nat, j: nat, writersFirst: bool) returns (stops: seq<nat>, c: set<nat>)
    requires i < |us| && j < |us| && i != j && Clash(us[i], us[j], writersFirst)
    ensures Closed(us, stops, c, writersFirst)
  {
    if Keeps(us[j], us[i].written.value) {
      stops := KeptIsClosed(us, i, j, writersFirst);
      c := {i};
    } else {
      var k: nat :| k < |us[j].before| && RereadsAt(us[j].before, us[i].written.value, k);
      stops := seq(|us|, l requires 0 <= l < |us| => if l == j then k else |us[l].before|);
      c := {i, j};
      hide Held, Closed;
      PairIsClosed(us, stops, i, j, writersFirst);
    }
  }

  lemma CrossedIsClosed(us: seq<Claim>, i: nat, j: nat, writersFirst: bool) returns (stops: seq<nat>)
    requires i < |us| && j < |us| && i != j && Crossed(us[i], us[j])
    ensures Closed(us, stops, {i, j}, writersFirst)
  {
    stops := seq(|us|, l requires 0 <= l < |us| => |us[l].before|);
    CrossedWaits(us, stops, i, j, writersFirst);
    CrossedWaits(us, stops, j, i, writersFirst);
    hide Waits, Crossed, Closed;
    PairIsClosed(us, stops, i, j, writersFirst);
  }

  lemma CrossedWaits(us: seq<Claim>, stops: seq<nat>, i: nat, j: nat, writersFirst: bool)
    requires Placed(us, stops) && i < |us| && j < |us| && i != j && Crossed(us[i], us[j])
    requires stops[i] == |us[i].before| && stops[j] == |us[j].before|
    ensures Waits(us, stops, i, j, writersFirst)
  {
    assert us[j].before[..stops[j]] == us[j].before;
    hide Held;
  }

  /** Two parties can block each other for good, exactly when each holds what the other one is to write, or one
      keeps what the other one is to write or, if announced writers go first, takes it a second time. */
  lemma TwoClaimsDeadlockExactly(u: Claim, v: Claim, writersFirst: bool)
    requires Fit(u) && Fit(v)
    ensures (exists schedule :: Deadlocked(Exec(Begin(Programs([u, v])), schedule, writersFirst), writersFirst))
            <==> Clash(u, v, writersFirst) || Clash(v, u, writersFirst) || Crossed(u, v)
  {
    BothFit(u, v);
    hide Exec, Deadlocked, Begin, Programs, Closed, Clash, Crossed, AllFit, Fit;
    TwoClosedExactly([u, v], writersFirst);
    DeadlockExactlyWhenClosed([u, v], writersFirst);
  }

  lemma BothFit(u: Claim, v: Claim)
    requires Fit(u) && Fit(v)
    ensures AllFit([u, v])
  {
    hide Fit;
  }

  lemma TwoClosedExactly(us: seq<Claim>, writersFirst: bool)
    requires |us| == 2
    ensures (exists stops, c :: Closed(us, stops, c, writersFirst))
            <==> Clash(us[0], us[1], writersFirst) || Clash(us[1], us[0], writersFirst) || Crossed(us[0], us[1])
  {
    hide Closed, Clash, Crossed, KeptFrom, Cycle;
    if Clash(us[0], us[1], writersFirst) {
      var stops, c := ClashIsClosed(us, 0, 1, writersFirst);
    }
    if Clash(us[1], us[0], writersFirst) {
      var stops, c := ClashIsClosed(us, 1, 0, writersFirst);
    }
    if Crossed(us[0], us[1]) {
      var stops := CrossedIsClosed(us, 0, 1, writersFirst);
    }
    if stops, c :| Closed(us, stops, c, writersFirst) {
      ClosedClashes(us, stops, c, writersFirst);
    }
  }

  lemma ClosedClashes(us: seq<Claim>, stops: seq<nat>, c: set<nat>, writersFirst: bool)
    requires |us| == 2 && Closed(us, stops, c, writersFirst)
    ensures Clash(us[0], us[1], writersFirst) || Clash(us[1], us[0], writersFirst) || Crossed(us[0], us[1])
  {
    hide Closed, Clash, Crossed, KeptFrom, Cycle, Waits;
    ClosedComesRound(us, stops, c, writersFirst);
    if i, j :| KeptFrom(us, i, j) {
      KeptOfTwo(us, i, j, writersFirst);
    } else {
      var p :| Cycle(us, stops, p, writersFirst);
      CycleOfTwo(us, stops, p, writersFirst);
      WaitingForEachOther(us, stops, 0, 1, writersFirst);
    }
  }

  lemma KeptOfTwo(us: seq<Claim>, i: nat, j: nat, writersFirst: bool)
    requires |us| == 2 && KeptFrom(us, i, j)
    ensures Clash(us[0], us[1], writersFirst) || Clash(us[1], us[0], writersFirst)
  {
    hide Held;
    assert (i == 0 && j == 1) || (i == 1 && j == 0);
  }
}
