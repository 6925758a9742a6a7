/** Many parties at once that take and drop locks one by one. */
module Deadlock {
  import opened Common
  import opened LockNeeds

  datatype Action = Take(need: Need) | Drop(need: Need)

  /** A party runs through its program. If a write comes next it announces that first, and may from then on keep
      new readers out. */
  datatype Party = Party(program: seq<Action>, at: nat, announced: bool)
  type State = seq<Party>

  predicate TakesWrite(a: Action) {
    a.Take? && a.need.mode.Write?
  }

  predicate Sound(p: Party) {
    && p.at <= |p.program|
    && (p.announced ==> p.at < |p.program| && TakesWrite(p.program[p.at]))
  }

  predicate Done(p: Party) {
    p.at >= |p.program|
  }

  function After(held: multiset<Need>, a: Action): multiset<Need> {
    if a.Take? then held + multiset{a.need} else held - multiset{a.need}
  }

  /** What a program holds when it has come to its end. */
  function Held(program: seq<Action>): multiset<Need> {
    if program == [] then multiset{}
    else After(Held(program[..|program| - 1]), program[|program| - 1])
  }

  lemma HeldMore(program: seq<Action>, k: nat)
    requires k < |program|
    ensures Held(program[..k + 1]) == After(Held(program[..k]), program[k])
  {
    assert program[..k + 1][..k] == program[..k];
  }

  lemma HeldPlus(program: seq<Action>, a: Action)
    ensures Held(program + [a]) == After(Held(program), a)
  {
    assert (program + [a])[..|program|] == program;
  }

  function Holding(p: Party): multiset<Need>
    requires Sound(p)
  {
    Held(p.program[..p.at])
  }

  predicate Conflict(a: Need, b: Need) {
    a.id == b.id && (a.mode.Write? || b.mode.Write?)
  }

  /** Whether a party holds a lock that keeps `n` from being taken. */
  predicate Obstructs(p: Party, n: Need)
    requires Sound(p)
  {
    exists m :: m in Holding(p) && Conflict(m, n)
  }

  predicate Announced(p: Party, n: Need)
    requires Sound(p)
  {
    p.announced && p.program[p.at].need.id == n.id && n.mode.Read?
  }

  predicate AllSound(s: State) {
    forall i :: 0 <= i < |s| ==> Sound(s[i])
  }

  /** `writersFirst` says whether an announced writer keeps new readers out. */
  predicate CanStep(s: State, i: nat, writersFirst: bool)
    requires AllSound(s)
  {
    && i < |s| && !Done(s[i])
    && match s[i].program[s[i].at]
       case Drop(_) => true
       case Take(n) =>
         || (n.mode.Write? && !s[i].announced)
         || (forall j :: 0 <= j < |s| && j != i ==> !Obstructs(s[j], n) && !(writersFirst && Announced(s[j], n)))
  }

  function Stepped(p: Party): (r: Party)
    requires Sound(p) && !Done(p)
    ensures Sound(r) && r.program == p.program && Work(r) < Work(p)
  {
    if TakesWrite(p.program[p.at]) && !p.announced then p.(announced := true)
    else p.(at := p.at + 1, announced := false)
  }

  /** A bound on the steps a party still has to make. */
  function Work(p: Party): nat
    requires Sound(p)
  {
    2 * (|p.program| - p.at) - (if p.announced then 1 else 0)
  }

  function Next(s: State, i: nat, writersFirst: bool): (r: State)
    requires AllSound(s)
    ensures AllSound(r) && |r| == |s|
  {
    if CanStep(s, i, writersFirst) then s[i := Stepped(s[i])] else s
  }

  /** A schedule names who moves; a party that cannot move stays where it is. */
  function Exec(s: State, schedule: seq<nat>, writersFirst: bool): (r: State)
    requires AllSound(s)
    ensures AllSound(r) && |r| == |s|
  {
    if schedule == [] then s
    else Next(Exec(s, schedule[..|schedule| - 1], writersFirst), schedule[|schedule| - 1], writersFirst)
  }

  lemma {:induction false} ExecKeepsPrograms(s: State, schedule: seq<nat>, writersFirst: bool)
    requires AllSound(s)
    ensures forall j :: 0 <= j < |s| ==> Exec(s, schedule, writersFirst)[j].program == s[j].program
  {
    if schedule != [] {
      ExecKeepsPrograms(s, schedule[..|schedule| - 1], writersFirst);
    }
  }

  /** Everybody is about to begin. */
  function Begin(programs: seq<seq<Action>>): (s: State)
    ensures AllSound(s) && |s| == |programs| && forall i :: 0 <= i < |s| ==> s[i] == Party(programs[i], 0, false)
  {
    seq(|programs|, i requires 0 <= i < |programs| => Party(programs[i], 0, false))
  }

  predicate AllDone(s: State) {
    forall i :: 0 <= i < |s| ==> Done(s[i])
  }

  predicate Deadlocked(s: State, writersFirst: bool)
    requires AllSound(s)
  {
    !AllDone(s) && forall i :: 0 <= i < |s| ==> !CanStep(s, i, writersFirst)
  }

  lemma {:induction false} ExecSplits(s: State, a: seq<nat>, b: seq<nat>, writersFirst: bool)
    requires AllSound(s)
    ensures Exec(s, a + b, writersFirst) == Exec(Exec(s, a, writersFirst), b, writersFirst)
  {
    if b == [] {
      assert a + b == a;
    } else {
      assert (a + b)[..|a + b| - 1] == a + b[..|b| - 1];
      ExecSplits(s, a, b[..|b| - 1], writersFirst);
    }
  }

  // ---------------------------------------------------------------- mutual exclusion

  /** No two parties hold locks that conflict. */
  predicate Exclusive(s: State)
    requires AllSound(s)
  {
    forall i, j, n :: 0 <= i < |s| && 0 <= j < |s| && i != j && n in Holding(s[j]) ==> !Obstructs(s[i], n)
  }

  lemma {:induction false} RunsExclude(programs: seq<seq<Action>>, schedule: seq<nat>, writersFirst: bool)
    ensures Exclusive(Exec(Begin(programs), schedule, writersFirst))
  {
    if schedule != [] {
      var k := |schedule| - 1;
      RunsExclude(programs, schedule[..k], writersFirst);
      StepExcludes(Exec(Begin(programs), schedule[..k], writersFirst), schedule[k], writersFirst);
    }
  }

  lemma OnlyReadsAreShared(s: State)
    requires AllSound(s) && Exclusive(s)
    ensures forall i, j, m, n :: 0 <= i < |s| && 0 <= j < |s| && i != j && m in Holding(s[i]) && n in Holding(s[j]) && m.id == n.id
              ==> m.mode == Read && n.mode == Read
  {
    hide Holding;
    forall i, j, m, n | 0 <= i < |s| && 0 <= j < |s| && i != j && m in Holding(s[i]) && n in Holding(s[j]) && m.id == n.id
      ensures m.mode == Read && n.mode == Read
    {
      assert !Obstructs(s[i], n);
      assert !Conflict(m, n);
    }
  }

  /** In every run, what two parties hold of one lock at a time are reads. */
  lemma LocksExclude(programs: seq<seq<Action>>, schedule: seq<nat>, writersFirst: bool)
    ensures
      var s := Exec(Begin(programs), schedule, writersFirst);
      forall i, j, m, n :: 0 <= i < |s| && 0 <= j < |s| && i != j && m in Holding(s[i]) && n in Holding(s[j]) && m.id == n.id
        ==> m.mode == Read && n.mode == Read
  {
    RunsExclude(programs, schedule, writersFirst);
    hide Holding, Exec, Begin, Exclusive;
    OnlyReadsAreShared(Exec(Begin(programs), schedule, writersFirst));
  }

  lemma StepExcludes(s: State, i: nat, writersFirst: bool)
    requires AllSound(s) && Exclusive(s)
    ensures Exclusive(Next(s, i, writersFirst))
  {
    if CanStep(s, i, writersFirst) {
      var r := Next(s, i, writersFirst);
      assert r == s[i := Stepped(s[i])];
      hide CanStep, Next, Held, Holding, Obstructs, Stepped, Exclusive;
      forall a, b, m | 0 <= a < |r| && 0 <= b < |r| && a != b && m in Holding(r[b]) ensures !Obstructs(r[a], m) {
        StaysExclusive(s, i, a, b, m, writersFirst);
      }
      ExclusiveIf(r);
    }
  }

  lemma ExclusiveIf(s: State)
    requires AllSound(s)
    requires forall i, j, n :: 0 <= i < |s| && 0 <= j < |s| && i != j && n in Holding(s[j]) ==> !Obstructs(s[i], n)
    ensures Exclusive(s)
  {
  }

  lemma GainIsTaken(p: Party, m: Need)
    requires Sound(p) && !Done(p) && m in Holding(Stepped(p)) && m !in Holding(p)
    ensures p.program[p.at] == Take(m) && (m.mode.Write? ==> p.announced)
  {
    HeldMore(p.program, p.at);
    hide Held;
  }

  /** What a step gains conflicts with nothing that others hold. */
  lemma StepGains(s: State, i: nat, m: Need, writersFirst: bool)
    requires AllSound(s) && CanStep(s, i, writersFirst) && m in Holding(Stepped(s[i])) && m !in Holding(s[i])
    ensures forall j :: 0 <= j < |s| && j != i ==> !Obstructs(s[j], m)
  {
    GainIsTaken(s[i], m);
    hide Holding, Obstructs, Stepped;
  }

  lemma StaysExclusive(s: State, i: nat, a: nat, b: nat, m: Need, writersFirst: bool)
    requires AllSound(s) && Exclusive(s) && CanStep(s, i, writersFirst)
    requires a < |s| && b < |s| && a != b && m in Holding(s[i := Stepped(s[i])][b])
    ensures !Obstructs(s[i := Stepped(s[i])][a], m)
  {
    var p, q := s[i := Stepped(s[i])][a], s[i := Stepped(s[i])][b];
    assert p == (if a == i then Stepped(s[i]) else s[a]) && q == (if b == i then Stepped(s[i]) else s[b]);
    hide Held, Holding, CanStep, Stepped, Exclusive, Conflict;
    forall x | x in Holding(p) ensures !Conflict(x, m) {
      NoConflict(s, i, a, b, p, q, x, m, writersFirst);
    }
  }

  lemma NoConflict(s: State, i: nat, a: nat, b: nat, p: Party, q: Party, x: Need, m: Need, writersFirst: bool)
    requires AllSound(s) && Exclusive(s) && CanStep(s, i, writersFirst) && a < |s| && b < |s| && a != b
    requires p == (if a == i then Stepped(s[i]) else s[a]) && q == (if b == i then Stepped(s[i]) else s[b])
    requires x in Holding(p) && m in Holding(q)
    ensures !Conflict(x, m)
  {
    hide Held, Holding, CanStep, Stepped;
    if m in Holding(s[b]) {
      if x in Holding(s[a]) {
        assert !Obstructs(s[a], m);
      } else {
        StepGains(s, i, x, writersFirst);
        assert !Obstructs(s[b], x);
      }
    } else {
      StepGains(s, i, m, writersFirst);
      assert !Obstructs(s[a], m);
    }
  }

  // ---------------------------------------------------------------- deadlock freedom

  /** Ids in `writes` come after all others, and in order among themselves. */
  predicate IdLess(writes: set<string>, a: string, b: string) {
    if (a in writes) != (b in writes) then b in writes else Precedes(a, b)
  }

  lemma IdLessIsStrict(writes: set<string>, a: string, b: string, c: string)
    ensures !IdLess(writes, a, a)
    ensures IdLess(writes, a, b) && IdLess(writes, b, c) ==> IdLess(writes, a, c)
  {
    if Precedes(a, a) { PrecedesIsAsymmetric(a, a); }
    if Precedes(a, b) && Precedes(b, c) { PrecedesIsTransitive(a, b, c); }
  }

  /** A program that takes locks only in the order of their ids after those it holds, and keeps none. */
  predicate Orderly(writes: set<string>, program: seq<Action>) {
    && Held(program) == multiset{}
    && forall k, m :: 0 <= k < |program| && program[k].Take? && m in Held(program[..k]) ==> IdLess(writes, m.id, program[k].need.id)
  }

  predicate AllOrderly(writes: set<string>, s: State) {
    forall i :: 0 <= i < |s| ==> Orderly(writes, s[i].program)
  }

  predicate Stuck(s: State, i: nat, writersFirst: bool)
    requires AllSound(s)
  {
    i < |s| && !Done(s[i]) && s[i].program[s[i].at].Take? && !CanStep(s, i, writersFirst)
  }

  function Wanted(s: State, i: nat): string
    requires i < |s| && !Done(s[i])
  {
    s[i].program[s[i].at].need.id
  }

  /** Among the first `k` parties, the stuck one that wants the highest id. */
  lemma {:induction false} HighestStuck(writes: set<string>, s: State, k: nat, one: nat, writersFirst: bool) returns (top: nat)
    requires AllSound(s) && k <= |s| && one < k && Stuck(s, one, writersFirst)
    ensures top < k && Stuck(s, top, writersFirst)
    ensures forall j :: 0 <= j < k && Stuck(s, j, writersFirst) ==> !IdLess(writes, Wanted(s, top), Wanted(s, j))
  {
    var last := k - 1;
    top := last;
    IdLessIsStrict(writes, Wanted(s, one), Wanted(s, one), Wanted(s, one));
    if other: nat :| other < last && Stuck(s, other, writersFirst) {
      top := HighestStuck(writes, s, last, other, writersFirst);
      if Stuck(s, last, writersFirst) && IdLess(writes, Wanted(s, top), Wanted(s, last)) {
        forall j | 0 <= j < k && Stuck(s, j, writersFirst) ensures !IdLess(writes, Wanted(s, last), Wanted(s, j)) {
          IdLessIsStrict(writes, Wanted(s, top), Wanted(s, last), Wanted(s, j));
          IdLessIsStrict(writes, Wanted(s, last), Wanted(s, j), Wanted(s, j));
        }
        top := last;
      }
    }
  }

  /** A stuck party waits for a lock that some stuck party holds, or one that has ended keeps, if nobody can move. */
  lemma StuckWaitsForHolder(s: State, i: nat, writersFirst: bool) returns (j: nat, m: Need)
    requires AllSound(s) && Deadlocked(s, writersFirst) && Stuck(s, i, writersFirst)
    ensures j < |s| && (Stuck(s, j, writersFirst) || Done(s[j]))
    ensures m in Holding(s[j]) && m.id == Wanted(s, i)
  {
    hide Holding;
    var n := s[i].program[s[i].at].need;
    var k: nat :| k < |s| && k != i && (Obstructs(s[k], n) || (writersFirst && Announced(s[k], n)));
    assert !CanStep(s, k, writersFirst);
    if Obstructs(s[k], n) {
      j := k;
      m :| m in Holding(s[j]) && Conflict(m, n);
    } else {
      var w := s[k].program[s[k].at].need;
      var h: nat :| h < |s| && h != k && Obstructs(s[h], w);
      assert !CanStep(s, h, writersFirst);
      j := h;
      m :| m in Holding(s[j]) && Conflict(m, w);
    }
  }

  /** Whoever holds what a stuck party waits for wants something higher itself. */
  lemma HolderWantsMore(writes: set<string>, s: State, i: nat, writersFirst: bool) returns (j: nat)
    requires AllSound(s) && AllOrderly(writes, s) && Deadlocked(s, writersFirst) && Stuck(s, i, writersFirst)
    ensures j < |s| && Stuck(s, j, writersFirst) && IdLess(writes, Wanted(s, i), Wanted(s, j))
  {
    var m;
    j, m := StuckWaitsForHolder(s, i, writersFirst);
    assert Orderly(writes, s[j].program);
    EndedHoldsNothing(writes, s[j]);
  }

  lemma EndedHoldsNothing(writes: set<string>, p: Party)
    requires Sound(p) && Orderly(writes, p.program)
    ensures Done(p) ==> Holding(p) == multiset{}
  {
    if Done(p) {
      assert p.program[..p.at] == p.program;
    }
  }

  /** Parties that all follow one order on ids are never all stuck. */
  lemma IdOrderNeverDeadlocks(writes: set<string>, s: State, writersFirst: bool)
    requires AllSound(s) && AllOrderly(writes, s)
    ensures !Deadlocked(s, writersFirst)
  {
    if Deadlocked(s, writersFirst) {
      var one: nat :| one < |s| && !Done(s[one]);
      assert !CanStep(s, one, writersFirst);
      var top := HighestStuck(writes, s, |s|, one, writersFirst);
      var j := HolderWantsMore(writes, s, top, writersFirst);
      assert false;
    }
  }

  function TotalWork(s: State): nat
    requires AllSound(s)
  {
    if s == [] then 0 else TotalWork(s[..|s| - 1]) + Work(s[|s| - 1])
  }

  lemma {:induction false} WorkDecreases(s: State, i: nat, writersFirst: bool)
    requires AllSound(s) && CanStep(s, i, writersFirst)
    ensures TotalWork(Next(s, i, writersFirst)) < TotalWork(s)
  {
    UpdatedWork(s, i, Stepped(s[i]));
  }

  lemma {:induction false} UpdatedWork(s: State, i: nat, p: Party)
    requires AllSound(s) && i < |s| && Sound(p)
    ensures TotalWork(s[i := p]) == TotalWork(s) - Work(s[i]) + Work(p)
  {
    var k := |s| - 1;
    if i == k {
      assert s[i := p][..k] == s[..k];
    } else {
      assert s[i := p][..k] == s[..k][i := p];
      UpdatedWork(s[..k], i, p);
    }
  }

  /** Every scheduled party could move when its turn came. */
  predicate Productive(s: State, schedule: seq<nat>, writersFirst: bool)
    requires AllSound(s)
  {
    schedule == [] || (
      var k := |schedule| - 1;
      Productive(s, schedule[..k], writersFirst) && CanStep(Exec(s, schedule[..k], writersFirst), schedule[k], writersFirst))
  }

  /** Runs are finite: nobody moves more often than there is work. */
  lemma {:induction false} RunsAreFinite(s: State, schedule: seq<nat>, writersFirst: bool)
    requires AllSound(s) && Productive(s, schedule, writersFirst)
    ensures |schedule| + TotalWork(Exec(s, schedule, writersFirst)) <= TotalWork(s)
  {
    if schedule != [] {
      var k := |schedule| - 1;
      RunsAreFinite(s, schedule[..k], writersFirst);
      WorkDecreases(Exec(s, schedule[..k], writersFirst), schedule[k], writersFirst);
    }
  }

  lemma {:induction false} ProductivePrepends(s: State, i: nat, rest: seq<nat>, writersFirst: bool)
    requires AllSound(s) && CanStep(s, i, writersFirst) && Productive(Next(s, i, writersFirst), rest, writersFirst)
    ensures Productive(s, [i] + rest, writersFirst)
  {
    if rest == [] {
      assert [i] + rest == [i] && [i][..0] == [];
    } else {
      var k := |rest| - 1;
      ProductivePrepends(s, i, rest[..k], writersFirst);
      assert ([i] + rest)[..k + 1] == [i] + rest[..k];
      PrependedExec(s, i, rest[..k], writersFirst);
    }
  }

  lemma PrependedExec(s: State, i: nat, rest: seq<nat>, writersFirst: bool)
    requires AllSound(s)
    ensures Exec(s, [i] + rest, writersFirst) == Exec(Next(s, i, writersFirst), rest, writersFirst)
  {
    ExecSplits(s, [i], rest, writersFirst);
    assert [i][..0] == [];
    assert Exec(s, [i], writersFirst) == Next(s, i, writersFirst);
  }

  lemma {:induction false} CompletesFrom(writes: set<string>, s: State, writersFirst: bool) returns (rest: seq<nat>)
    requires AllSound(s) && AllOrderly(writes, s)
    ensures Productive(s, rest, writersFirst) && AllDone(Exec(s, rest, writersFirst))
    decreases TotalWork(s)
  {
    rest := [];
    if !AllDone(s) {
      IdOrderNeverDeadlocks(writes, s, writersFirst);
      var i: nat :| i < |s| && CanStep(s, i, writersFirst);
      WorkDecreases(s, i, writersFirst);
      var more := CompletesFrom(writes, Next(s, i, writersFirst), writersFirst);
      ProductivePrepends(s, i, more, writersFirst);
      PrependedExec(s, i, more, writersFirst);
      rest := [i] + more;
    }
  }

  // ---------------------------------------------------------------- requests

  function TakeAll(needs: seq<Need>): (r: seq<Action>)
    ensures |r| == |needs| && forall k :: 0 <= k < |r| ==> r[k] == Take(needs[k])
  {
    seq(|needs|, i requires 0 <= i < |needs| => Take(needs[i]))
  }

  function DropAll(needs: seq<Need>): (r: seq<Action>)
    ensures |r| == |needs| && forall k :: 0 <= k < |r| ==> r[k] == Drop(needs[k])
  {
    seq(|needs|, i requires 0 <= i < |needs| => Drop(needs[i]))
  }

  /** A request takes its needs in canonical order and drops what it gives back in reverse order. */
  function Served(taken: seq<Need>, returned: seq<Need>): seq<Action> {
    TakeAll(Sanitized(taken)) + DropAll(Reversed(Sanitized(returned)))
  }

  /** Requests that give back all they took. */
  function Start(requests: seq<seq<Need>>): (r: State)
    ensures AllSound(r) && |r| == |requests|
    ensures forall i :: 0 <= i < |r| ==> r[i] == Party(Served(requests[i], requests[i]), 0, false)
  {
    Begin(seq(|requests|, i requires 0 <= i < |requests| => Served(requests[i], requests[i])))
  }

  lemma {:induction false} HeldAfterTakes(program: seq<Action>, needs: seq<Need>)
    ensures Held(program + TakeAll(needs)) == Held(program) + multiset(needs)
  {
    hide Held;
    if needs == [] {
      assert program + TakeAll(needs) == program;
    } else {
      var front, last := needs[..|needs| - 1], needs[|needs| - 1];
      HeldAfterTakes(program, front);
      HeldPlus(program + TakeAll(front), Take(last));
      assert needs == front + [last];
      TakeOneMore(program, front, last);
    }
  }

  lemma TakeOneMore(program: seq<Action>, needs: seq<Need>, n: Need)
    ensures program + TakeAll(needs + [n]) == program + TakeAll(needs) + [Take(n)]
  {
  }

  lemma {:induction false} HeldAfterDrops(program: seq<Action>, needs: seq<Need>)
    ensures Held(program + DropAll(needs)) == Held(program) - multiset(needs)
  {
    hide Held;
    if needs == [] {
      assert program + DropAll(needs) == program;
    } else {
      var front, last := needs[..|needs| - 1], needs[|needs| - 1];
      HeldAfterDrops(program, front);
      HeldPlus(program + DropAll(front), Drop(last));
      assert needs == front + [last];
      DropOneMore(program, front, last);
    }
  }

  lemma DropOneMore(program: seq<Action>, needs: seq<Need>, n: Need)
    ensures program + DropAll(needs + [n]) == program + DropAll(needs) + [Drop(n)]
  {
  }

  lemma {:induction false} ReversedHasSame(s: seq<Need>)
    ensures multiset(Reversed(s)) == multiset(s)
  {
    if s != [] {
      var n := |s| - 1;
      ReversedHasSame(s[..n]);
      assert s == s[..n] + [s[n]];
      assert Reversed(s) == [s[n]] + Reversed(s[..n]);
    }
  }

  /** What a request leaves held on top of what was held before. */
  lemma HeldAfterServed(program: seq<Action>, taken: seq<Need>, returned: seq<Need>)
    ensures Held(program + Served(taken, returned))
            == Held(program) + multiset(Sanitized(taken)) - multiset(Sanitized(returned))
  {
    var takes, drops := TakeAll(Sanitized(taken)), DropAll(Reversed(Sanitized(returned)));
    HeldAfterTakes(program, Sanitized(taken));
    HeldAfterDrops(program + takes, Reversed(Sanitized(returned)));
    ReversedHasSame(Sanitized(returned));
    hide Held, Sanitized, Reversed, TakeAll, DropAll;
    assert program + Served(taken, returned) == program + takes + drops;
  }

  /** While it takes, a request holds what it has taken so far. */
  lemma HeldWhileTaking(needs: seq<Need>, drops: seq<Action>, k: nat)
    requires k <= |needs|
    ensures Held((TakeAll(needs) + drops)[..k]) == multiset(needs[..k])
  {
    HeldAfterTakes([], needs[..k]);
    assert (TakeAll(needs) + drops)[..k] == [] + TakeAll(needs[..k]);
  }

  /** Every id is asked for in one mode only, over all requests. */
  predicate OneModePerId(requests: seq<seq<Need>>) {
    forall i, j, m, n :: 0 <= i < |requests| && 0 <= j < |requests| && m in requests[i] && n in requests[j] && m.id == n.id
      ==> m.mode == n.mode
  }

  /** Every request asks for one mode only. */
  predicate SingleMode(requests: seq<seq<Need>>) {
    forall i, m, n :: 0 <= i < |requests| && m in requests[i] && n in requests[i] ==> m.mode == n.mode
  }

  function Written(requests: seq<seq<Need>>): set<string> {
    set i, n | 0 <= i < |requests| && n in requests[i] && n.mode.Write? :: n.id
  }

  /** One order on ids that all requests follow, if they may. */
  function Order(requests: seq<seq<Need>>): set<string> {
    if OneModePerId(requests) then Written(requests) else {}
  }

  lemma SanitizedFollowsIds(requests: seq<seq<Need>>, i: nat, a: nat, b: nat)
    requires OneModePerId(requests) || SingleMode(requests)
    requires i < |requests| && a < b < |Sanitized(requests[i])|
    ensures IdLess(Order(requests), Sanitized(requests[i])[a].id, Sanitized(requests[i])[b].id)
  {
    var m, n := Sanitized(requests[i])[a], Sanitized(requests[i])[b];
    assert m in Elements(Sanitized(requests[i])) && n in Elements(Sanitized(requests[i]));
    assert m in requests[i] && n in requests[i] && NeedLess(m, n);
    if OneModePerId(requests) {
      assert m.id in Written(requests) <==> m.mode.Write?;
      assert n.id in Written(requests) <==> n.mode.Write?;
    }
  }

  lemma RequestIsOrderly(requests: seq<seq<Need>>, i: nat)
    requires OneModePerId(requests) || SingleMode(requests)
    requires i < |requests|
    ensures Orderly(Order(requests), Served(requests[i], requests[i]))
  {
    var program := Served(requests[i], requests[i]);
    HeldAfterServed([], requests[i], requests[i]);
    assert [] + program == program;
    hide Served, Held, Order;
    forall k, m | 0 <= k < |program| && program[k].Take? && m in Held(program[..k])
      ensures IdLess(Order(requests), m.id, program[k].need.id)
    {
      RequestTakesInOrder(requests, i, k, m);
    }
  }

  lemma RequestTakesInOrder(requests: seq<seq<Need>>, i: nat, k: nat, m: Need)
    requires OneModePerId(requests) || SingleMode(requests)
    requires i < |requests| && k < |Served(requests[i], requests[i])|
    requires Served(requests[i], requests[i])[k].Take? && m in Held(Served(requests[i], requests[i])[..k])
    ensures IdLess(Order(requests), m.id, Served(requests[i], requests[i])[k].need.id)
  {
    var r := Sanitized(requests[i]);
    assert k < |r|;
    HeldWhileTaking(r, DropAll(Reversed(r)), k);
    hide Order, Held, Sanitized, Reversed, OneModePerId, SingleMode;
    assert m in r[..k];
    var a :| 0 <= a < k && r[..k][a] == m;
    SanitizedFollowsIds(requests, i, a, k);
  }

  lemma RequestsAreOrderly(requests: seq<seq<Need>>, schedule: seq<nat>, writersFirst: bool)
    requires OneModePerId(requests) || SingleMode(requests)
    ensures AllOrderly(Order(requests), Exec(Start(requests), schedule, writersFirst))
  {
    ExecKeepsPrograms(Start(requests), schedule, writersFirst);
    hide Orderly, Exec, Served, Order;
    forall i | 0 <= i < |requests| ensures Orderly(Order(requests), Served(requests[i], requests[i])) {
      RequestIsOrderly(requests, i);
    }
  }

  /** Any number of requests that give back what they took, in any interleaving, never deadlock when every id is
      asked for in one mode only, or every request asks for one mode only. */
  lemma NeverDeadlocks(requests: seq<seq<Need>>, schedule: seq<nat>, writersFirst: bool)
    requires OneModePerId(requests) || SingleMode(requests)
    ensures !Deadlocked(Exec(Start(requests), schedule, writersFirst), writersFirst)
  {
    RequestsAreOrderly(requests, schedule, writersFirst);
    IdOrderNeverDeadlocks(Order(requests), Exec(Start(requests), schedule, writersFirst), writersFirst);
  }

  /** So under the side condition any run, however far it has come, can be completed by moves that are
      all possible: every request gets its locks and gives them back. */
  lemma EveryRunCompletes(requests: seq<seq<Need>>, schedule: seq<nat>, writersFirst: bool) returns (rest: seq<nat>)
    requires OneModePerId(requests) || SingleMode(requests)
    ensures
      var s := Exec(Start(requests), schedule, writersFirst);
      && Productive(s, rest, writersFirst)
      && |rest| <= TotalWork(s)
      && AllDone(Exec(Start(requests), schedule + rest, writersFirst))
  {
    var s := Exec(Start(requests), schedule, writersFirst);
    RequestsAreOrderly(requests, schedule, writersFirst);
    rest := CompletesFrom(Order(requests), s, writersFirst);
    RunsAreFinite(s, rest, writersFirst);
    ExecSplits(Start(requests), schedule, rest, writersFirst);
  }

  lemma ExecOne(s: State, schedule: seq<nat>, i: nat, writersFirst: bool)
    requires AllSound(s)
    ensures Exec(s, schedule + [i], writersFirst) == Next(Exec(s, schedule, writersFirst), i, writersFirst)
  {
    assert (schedule + [i])[..|schedule|] == schedule;
  }

  // ---------------------------------------------------------------- jams

  /** Whether one party keeps another from taking its next need. */
  predicate Blocks(s: State, j: nat, i: nat, writersFirst: bool)
    requires AllSound(s)
  {
    && i < |s| && j < |s| && i != j && !Done(s[i]) && s[i].program[s[i].at].Take?
    && var n := s[i].program[s[i].at].need;
       && (n.mode.Write? ==> s[i].announced)
       && (Obstructs(s[j], n) || (writersFirst && Announced(s[j], n)))
  }

  predicate BlockedWithin(s: State, jam: set<nat>, i: nat, writersFirst: bool)
    requires AllSound(s)
  {
    exists j: nat :: j < |s| && (j in jam || Done(s[j])) && Blocks(s, j, i, writersFirst)
  }

  /** Some parties each of which is kept from moving by another of them, or by one that has ended. */
  predicate Jammed(s: State, jam: set<nat>, writersFirst: bool)
    requires AllSound(s)
  {
    jam != {} && forall i :: i in jam ==> BlockedWithin(s, jam, i, writersFirst)
  }

  lemma Blocker(s: State, jam: set<nat>, i: nat, writersFirst: bool) returns (j: nat)
    requires AllSound(s) && BlockedWithin(s, jam, i, writersFirst)
    ensures j < |s| && (j in jam || Done(s[j])) && Blocks(s, j, i, writersFirst)
  {
    j :| j < |s| && (j in jam || Done(s[j])) && Blocks(s, j, i, writersFirst);
  }

  lemma BlockedCannotStep(s: State, i: nat, j: nat, writersFirst: bool)
    requires AllSound(s) && Blocks(s, j, i, writersFirst)
    ensures !CanStep(s, i, writersFirst)
  {
    hide Obstructs, Announced;
  }

  lemma StillBlocks(s: State, r: State, j: nat, i: nat, writersFirst: bool)
    requires AllSound(s) && AllSound(r) && |r| == |s| && Blocks(s, j, i, writersFirst)
    requires i < |s| && j < |s| && r[i] == s[i] && r[j] == s[j]
    ensures Blocks(r, j, i, writersFirst)
  {
    hide Obstructs, Announced;
  }

  /** A jam stays as it is, whatever the others do. */
  lemma {:induction false} JamPersists(s: State, jam: set<nat>, schedule: seq<nat>, writersFirst: bool)
    requires AllSound(s) && Jammed(s, jam, writersFirst)
    ensures Jammed(Exec(s, schedule, writersFirst), jam, writersFirst)
  {
    hide Jammed, Next, AllSound;
    if schedule != [] {
      var k := |schedule| - 1;
      JamPersists(s, jam, schedule[..k], writersFirst);
      JamSurvivesStep(Exec(s, schedule[..k], writersFirst), jam, schedule[k], writersFirst);
    }
  }

  lemma JamSurvivesStep(s: State, jam: set<nat>, k: nat, writersFirst: bool)
    requires AllSound(s) && Jammed(s, jam, writersFirst)
    ensures Jammed(Next(s, k, writersFirst), jam, writersFirst)
  {
    var r := Next(s, k, writersFirst);
    forall i | i in jam ensures BlockedWithin(r, jam, i, writersFirst) {
      JammedPartyStays(s, jam, k, i, writersFirst);
    }
  }

  lemma JammedPartyStays(s: State, jam: set<nat>, k: nat, i: nat, writersFirst: bool)
    requires AllSound(s) && Jammed(s, jam, writersFirst) && i in jam
    ensures BlockedWithin(Next(s, k, writersFirst), jam, i, writersFirst)
  {
    hide BlockedWithin, CanStep, Blocks, AllSound;
    var j := Blocker(s, jam, i, writersFirst);
    BlockedCannotStep(s, i, j, writersFirst);
    BlockedStays(s, i, j, k, writersFirst);
    if j in jam {
      var l := Blocker(s, jam, j, writersFirst);
      BlockedCannotStep(s, j, l, writersFirst);
      BlockedStays(s, j, l, k, writersFirst);
    } else {
      DoneStays(s, j, k, writersFirst);
    }
    hide Jammed, Next;
    StillBlocks(s, Next(s, k, writersFirst), j, i, writersFirst);
    Witness(Next(s, k, writersFirst), jam, i, j, writersFirst);
  }

  lemma DoneStays(s: State, j: nat, k: nat, writersFirst: bool)
    requires AllSound(s) && j < |s| && Done(s[j])
    ensures Next(s, k, writersFirst)[j] == s[j]
  {
  }

  lemma BlockedStays(s: State, i: nat, j: nat, k: nat, writersFirst: bool)
    requires AllSound(s) && Blocks(s, j, i, writersFirst) && !CanStep(s, i, writersFirst)
    ensures i < |s| && j < |s| && Next(s, k, writersFirst)[i] == s[i]
  {
    hide Obstructs, Announced, CanStep;
  }

  lemma Witness(s: State, jam: set<nat>, i: nat, j: nat, writersFirst: bool)
    requires AllSound(s) && j < |s| && (j in jam || Done(s[j])) && Blocks(s, j, i, writersFirst)
    ensures BlockedWithin(s, jam, i, writersFirst)
  {
  }

  /** Any run can be continued until nobody can move. */
  lemma {:induction false} Settles(s: State, writersFirst: bool) returns (schedule: seq<nat>)
    requires AllSound(s)
    ensures forall i :: 0 <= i < |s| ==> !CanStep(Exec(s, schedule, writersFirst), i, writersFirst)
    decreases TotalWork(s)
  {
    schedule := [];
    if i: nat :| i < |s| && CanStep(s, i, writersFirst) {
      WorkDecreases(s, i, writersFirst);
      var rest := Settles(Next(s, i, writersFirst), writersFirst);
      PrependedExec(s, i, rest, writersFirst);
      schedule := [i] + rest;
    }
  }

  /** A jam can always be run into a deadlock. */
  lemma JamDeadlocks(s: State, jam: set<nat>, writersFirst: bool) returns (schedule: seq<nat>)
    requires AllSound(s) && Jammed(s, jam, writersFirst)
    ensures Deadlocked(Exec(s, schedule, writersFirst), writersFirst)
  {
    hide CanStep, Exec, AllSound, Jammed, AllDone;
    schedule := Settles(s, writersFirst);
    JamPersists(s, jam, schedule, writersFirst);
    JammedAreNotDone(Exec(s, schedule, writersFirst), jam, writersFirst);
  }

  lemma JammedAreNotDone(s: State, jam: set<nat>, writersFirst: bool)
    requires AllSound(s) && Jammed(s, jam, writersFirst)
    ensures !AllDone(s)
  {
    var i :| i in jam;
    assert BlockedWithin(s, jam, i, writersFirst);
    var j := Blocker(s, jam, i, writersFirst);
    hide Jammed, BlockedWithin;
    assert !Done(s[i]);
  }
}
