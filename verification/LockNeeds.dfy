/** Lock needs put into one canonical order, and locks taken all or nothing. */
module LockNeeds {
  import opened Common

  datatype Mode = Read | Write
  datatype Need = Need(mode: Mode, id: string)

  /** Reads come before writes, and ids in order within a mode. */
  predicate NeedLess(a: Need, b: Need) {
    if a.mode != b.mode then a.mode.Read? else Precedes(a.id, b.id)
  }

  lemma NeedLessIsStrictTotal(a: Need, b: Need, c: Need)
    ensures a == b || NeedLess(a, b) || NeedLess(b, a)
    ensures !(NeedLess(a, b) && NeedLess(b, a)) && !NeedLess(a, a)
    ensures NeedLess(a, b) && NeedLess(b, c) ==> NeedLess(a, c)
  {
    PrecedesIsTotal(a.id, b.id);
    if Precedes(a.id, b.id) { PrecedesIsAsymmetric(a.id, b.id); }
    if Precedes(a.id, a.id) { PrecedesIsAsymmetric(a.id, a.id); }
    if Precedes(a.id, b.id) && Precedes(b.id, c.id) { PrecedesIsTransitive(a.id, b.id, c.id); }
  }

  // ---------------------------------------------------------------- specification

  predicate StrictlySorted(s: seq<Need>) {
    forall i, j :: 0 <= i < j < |s| ==> NeedLess(s[i], s[j])
  }

  function Elements<T>(s: seq<T>): set<T> {
    set n | n in s
  }

  /** One need per id, a write if any need of that id is a write. */
  function Strongest(needs: set<Need>): set<Need> {
    set n | n in needs && (n.mode.Write? || Need(Write, n.id) !in needs)
  }

  function Placed(n: Need, s: seq<Need>): (r: seq<Need>)
    ensures Elements(r) == Elements(s) + {n}
  {
    if s == [] then [n]
    else if n == s[0] then s
    else if NeedLess(n, s[0]) then [n] + s
    else
      var rest := Placed(n, s[1..]);
      assert s == [s[0]] + s[1..];
      assert Elements([s[0]] + rest) == {s[0]} + Elements(rest);
      [s[0]] + rest
  }

  /** Sorting; equal needs are merged. */
  function Sorted(s: seq<Need>): (r: seq<Need>)
    ensures Elements(r) == Elements(s)
  {
    if s == [] then []
    else
      assert s == [s[0]] + s[1..];
      Placed(s[0], Sorted(s[1..]))
  }

  lemma {:induction false} PlacedSorts(n: Need, s: seq<Need>)
    requires StrictlySorted(s)
    ensures StrictlySorted(Placed(n, s))
  {
    if s != [] && n != s[0] {
      NeedLessIsStrictTotal(n, s[0], n);
      if NeedLess(n, s[0]) {
        forall j | 0 <= j < |s| ensures NeedLess(n, s[j]) {
          NeedLessIsStrictTotal(n, s[0], s[j]);
        }
      } else {
        PlacedSorts(n, s[1..]);
        var rest := Placed(n, s[1..]);
        forall j | 0 <= j < |rest| ensures NeedLess(s[0], rest[j]) {
          assert rest[j] in Elements(rest);
          assert rest[j] == n || rest[j] in s[1..];
        }
      }
    }
  }

  lemma {:induction false} SortedSorts(s: seq<Need>)
    ensures StrictlySorted(Sorted(s))
  {
    if s != [] {
      SortedSorts(s[1..]);
      PlacedSorts(s[0], Sorted(s[1..]));
    }
  }

  /** The strongest needs as a list, in no particular order. */
  function Kept(needs: seq<Need>, all: set<Need>): (r: seq<Need>)
    ensures Elements(r) == Elements(needs) * Strongest(all)
  {
    if needs == [] then []
    else
      var rest := Kept(needs[1..], all);
      assert needs == [needs[0]] + needs[1..];
      assert Elements([needs[0]] + rest) == {needs[0]} + Elements(rest);
      if needs[0] in Strongest(all) then [needs[0]] + rest else rest
  }

  /** The canonical list of a collection of needs. */
  function Sanitized(needs: seq<Need>): (r: seq<Need>)
    ensures Elements(r) == Strongest(Elements(needs))
    ensures StrictlySorted(r)
  {
    var kept := Kept(needs, Elements(needs));
    SortedSorts(kept);
    Sorted(kept)
  }

  function Reversed(s: seq<Need>): seq<Need> {
    seq(|s|, i requires 0 <= i < |s| => s[|s| - 1 - i])
  }

  /** A strictly sorted list is determined by its elements. */
  lemma {:induction false} SortedIsUnique(a: seq<Need>, b: seq<Need>)
    requires StrictlySorted(a) && StrictlySorted(b) && Elements(a) == Elements(b)
    ensures a == b
  {
    assert b != [] ==> b[0] in Elements(b);
    if a != [] {
      assert a[0] in Elements(a);
      if a[0] != b[0] {
        HeadIsLeast(a, b[0]);
        HeadIsLeast(b, a[0]);
        NeedLessIsStrictTotal(a[0], b[0], a[0]);
      }
      TailElements(a);
      TailElements(b);
      SortedIsUnique(a[1..], b[1..]);
      assert a == [a[0]] + a[1..] && b == [b[0]] + b[1..];
    }
  }

  lemma HeadIsLeast(s: seq<Need>, n: Need)
    requires StrictlySorted(s) && s != [] && n in s && n != s[0]
    ensures NeedLess(s[0], n)
  {
    var i :| 0 <= i < |s| && s[i] == n;
  }

  lemma TailElements(s: seq<Need>)
    requires StrictlySorted(s) && s != []
    ensures Elements(s[1..]) == Elements(s) - {s[0]}
  {
    if s[0] in s[1..] {
      var i :| 0 <= i < |s[1..]| && s[1..][i] == s[0];
      assert s[i + 1] == s[0];
      NeedLessIsStrictTotal(s[0], s[0], s[0]);
    }
    assert s == [s[0]] + s[1..];
  }

  /** The result depends on nothing but which needs were asked for. */
  lemma SanitizedDependsOnSet(a: seq<Need>, b: seq<Need>)
    requires Elements(a) == Elements(b)
    ensures Sanitized(a) == Sanitized(b)
  {
    SortedIsUnique(Sanitized(a), Sanitized(b));
  }

  /** Exactly one need per id that was asked for, in the strongest mode asked for. */
  lemma SanitizedHasStrongest(needs: seq<Need>, id: string)
    ensures (exists i :: 0 <= i < |Sanitized(needs)| && Sanitized(needs)[i].id == id) <==> (exists n :: n in needs && n.id == id)
    ensures forall i, j :: 0 <= i < j < |Sanitized(needs)| ==> Sanitized(needs)[i].id != Sanitized(needs)[j].id
    ensures forall i :: 0 <= i < |Sanitized(needs)| ==>
              (Sanitized(needs)[i].mode.Write? <==> Need(Write, Sanitized(needs)[i].id) in needs)
  {
    var r := Sanitized(needs);
    forall i | 0 <= i < |r| ensures r[i] in needs && (r[i].mode.Write? <==> Need(Write, r[i].id) in needs) {
      assert r[i] in Elements(r);
      assert Need(Write, r[i].id) in Elements(needs) <==> Need(Write, r[i].id) in needs;
    }
    forall i, j | 0 <= i < j < |r| ensures r[i].id != r[j].id {
      assert r[i] in Elements(r) && r[j] in Elements(r) && NeedLess(r[i], r[j]);
      NeedLessIsStrictTotal(r[i], r[i], r[i]);
      assert Need(Write, r[i].id) in Elements(needs) <==> Need(Write, r[i].id) in needs;
    }
    if n :| n in needs && n.id == id {
      var m := if Need(Write, id) in needs then Need(Write, id) else n;
      assert m in Strongest(Elements(needs));
      assert m in r;
    }
  }

  lemma ReversedTwice(s: seq<Need>)
    ensures Reversed(Reversed(s)) == s && Elements(Reversed(s)) == Elements(s)
  {
    assert Reversed(Reversed(s)) == s;
    ReversedContains(s);
    ReversedContains(Reversed(s));
  }

  lemma ReversedContains(s: seq<Need>)
    ensures forall n :: n in s ==> n in Reversed(s)
  {
    forall n | n in s ensures n in Reversed(s) {
      var i :| 0 <= i < |s| && s[i] == n;
      assert Reversed(s)[|s| - 1 - i] == n;
    }
  }

  lemma ReversedInOrder(s: seq<Need>)
    requires forall i, j :: 0 <= i < j < |s| ==>
               (s[i].mode == Read && s[j].mode == Write) || (s[i].mode == s[j].mode && Precedes(s[i].id, s[j].id))
    ensures forall n :: n in Reversed(s) <==> n in s
    ensures
      var r := Reversed(s);
      forall i, j :: 0 <= i < j < |r| ==>
        (r[i].mode == Write && r[j].mode == Read) || (r[i].mode == r[j].mode && Precedes(r[j].id, r[i].id))
  {
    ReversedContains(s);
  }

  /** Sanitizing again changes nothing, also after reversing for unlocking. */
  lemma SanitizedIsIdempotent(needs: seq<Need>)
    ensures Sanitized(Sanitized(needs)) == Sanitized(needs)
    ensures Sanitized(Reversed(Sanitized(needs))) == Sanitized(needs)
  {
    var r := Sanitized(needs);
    assert Strongest(Elements(r)) == Elements(r);
    SortedIsUnique(Sanitized(r), r);
    ReversedTwice(r);
    SanitizedDependsOnSet(Reversed(r), r);
  }

  // ---------------------------------------------------------------- sanitizing

  const NO_LOCK := 0
  const READ_LOCK := 1
  const WRITE_LOCK := 2

  function Level(m: Mode): int {
    if m.Write? then WRITE_LOCK else READ_LOCK
  }

  /** The strongest level a list of needs asks for one id. */
  predicate LevelIs(needs: seq<Need>, id: string, level: int) {
    && (level == WRITE_LOCK <==> Need(Write, id) in needs)
    && (level == READ_LOCK <==> Need(Write, id) !in needs && Need(Read, id) in needs)
    && NO_LOCK <= level <= WRITE_LOCK
  }

  method SanitizeLockNeeds(lockNeeds: seq<Need>) returns (r: seq<Need>)
    ensures r == Sanitized(lockNeeds)
    ensures forall n :: n in r <==> n in lockNeeds && (n.mode == Write || Need(Write, n.id) !in lockNeeds)
    ensures forall i, j :: 0 <= i < j < |r| ==>
              (r[i].mode == Read && r[j].mode == Write) || (r[i].mode == r[j].mode && Precedes(r[i].id, r[j].id))
  {
    var lockMap: map<string, int> := map[];
    var i := 0;
    while i < |lockNeeds|
      invariant 0 <= i <= |lockNeeds|
      invariant forall id :: id in lockMap ==> lockMap[id] != NO_LOCK && LevelIs(lockNeeds[..i], id, lockMap[id])
      invariant forall n :: n in lockNeeds[..i] ==> n.id in lockMap
    {
      var need := lockNeeds[i];
      ghost var before := lockMap;
      var current := if need.id in lockMap then lockMap[need.id] else NO_LOCK;
      if Level(need.mode) > current {
        lockMap := lockMap[need.id := Level(need.mode)];
      }
      assert lockNeeds[..i + 1] == lockNeeds[..i] + [need];
      assert need.id !in before ==> LevelIs(lockNeeds[..i], need.id, NO_LOCK);
      i := i + 1;
    }
    assert lockNeeds[..i] == lockNeeds;

    // Ranging over a map visits the ids in any order.
    var ordered: seq<Need> := [];
    var rest := lockMap.Keys;
    while rest != {}
      invariant rest <= lockMap.Keys
      invariant forall n :: n in ordered <==> n.id in lockMap.Keys - rest && Level(n.mode) == lockMap[n.id]
      decreases rest
    {
      var id :| id in rest;
      var mode := if lockMap[id] == WRITE_LOCK then Write else Read;
      ordered := ordered + [Need(mode, id)];
      rest := rest - {id};
    }
    r := Sorted(ordered);
    SortedSorts(ordered);
    forall n ensures n in ordered <==> n in Strongest(Elements(lockNeeds)) {
      assert n.id in lockMap ==> LevelIs(lockNeeds, n.id, lockMap[n.id]);
      assert n == Need(n.mode, n.id);
    }
    assert Elements(ordered) == Strongest(Elements(lockNeeds));
    SortedIsUnique(r, Sanitized(lockNeeds));
    forall n ensures n in r <==> n in Elements(r) {}
  }

  method SanitizeUnlockNeeds(lockNeeds: seq<Need>) returns (r: seq<Need>)
    ensures r == Reversed(Sanitized(lockNeeds))
    ensures forall n :: n in r <==> n in lockNeeds && (n.mode == Write || Need(Write, n.id) !in lockNeeds)
    ensures forall i, j :: 0 <= i < j < |r| ==>
              (r[i].mode == Write && r[j].mode == Read) || (r[i].mode == r[j].mode && Precedes(r[j].id, r[i].id))
  {
    var sanitized := SanitizeLockNeeds(lockNeeds);
    hide Precedes, Sanitized;
    var needs := new Need[|sanitized|](i requires 0 <= i < |sanitized| => sanitized[i]);
    assert needs[..] == sanitized;
    Reverse(needs);
    r := needs[..];
    ReversedInOrder(sanitized);
  }

  /** Swaps from both ends towards the middle. */
  method Reverse(needs: array<Need>)
    modifies needs
    ensures needs[..] == Reversed(old(needs[..]))
    ensures forall k :: 0 <= k < needs.Length ==> needs[k] == old(needs[needs.Length - 1 - k])
  {
    ghost var before := needs[..];
    var i := 0;
    while i < needs.Length / 2
      invariant 0 <= i <= needs.Length / 2
      invariant forall k :: 0 <= k < i || needs.Length - i <= k < needs.Length ==> needs[k] == before[needs.Length - 1 - k]
      invariant forall k :: i <= k < needs.Length - i ==> needs[k] == before[k]
    {
      var opposite := needs.Length - i - 1;
      needs[i], needs[opposite] := needs[opposite], needs[i];
      i := i + 1;
    }
  }

  // ---------------------------------------------------------------- taking and releasing

  /** How often each lock is held, net of releases. */
  datatype Holds = Holds(readers: int, writers: int)
  type Table = map<string, Holds>

  function Turned(h: Holds, m: Mode, delta: int): Holds {
    if m.Write? then h.(writers := h.writers + delta) else h.(readers := h.readers + delta)
  }

  /** The table after each need of a list is taken (`delta` 1) or released (`delta` -1) once. */
  function Shifted(t: Table, needs: seq<Need>, delta: int): (r: Table)
    requires forall n :: n in needs ==> n.id in t
    ensures r.Keys == t.Keys
  {
    if needs == [] then t
    else
      var n := needs[|needs| - 1];
      var r := Shifted(t, needs[..|needs| - 1], delta);
      r[n.id := Turned(r[n.id], n.mode, delta)]
  }

  /** Whether every id that is asked for has a record. */
  predicate Known(t: Table, needs: seq<Need>) {
    forall n :: n in needs ==> n.id in t
  }

  /** What one lock gains in one mode when each need of a set counts `delta`. */
  function Gain(s: set<Need>, m: Mode, id: string, delta: int): int {
    if Need(m, id) in s then delta else 0
  }

  function Gained(h: Holds, s: set<Need>, id: string, delta: int): Holds {
    Holds(h.readers + Gain(s, Read, id, delta), h.writers + Gain(s, Write, id, delta))
  }

  predicate Distinct(s: seq<Need>) {
    forall i, j :: 0 <= i < j < |s| ==> s[i] != s[j]
  }

  lemma CanonicalIsDistinct(s: seq<Need>)
    requires StrictlySorted(s)
    ensures Distinct(s) && Distinct(Reversed(s))
  {
    forall i, j | 0 <= i < j < |s| ensures s[i] != s[j] {
      NeedLessIsStrictTotal(s[i], s[i], s[i]);
    }
  }

  /** What a shift by a list without repetition does to one lock. */
  lemma {:induction false} ShiftedPointwise(t: Table, needs: seq<Need>, delta: int, id: string)
    requires Known(t, needs) && Distinct(needs) && id in t
    ensures Shifted(t, needs, delta)[id] == Gained(t[id], Elements(needs), id, delta)
  {
    if needs != [] {
      var k := |needs| - 1;
      ShiftedPointwise(t, needs[..k], delta, id);
      var n := needs[k];
      assert needs == needs[..k] + [n];
      assert n !in needs[..k];
      assert Elements(needs) == Elements(needs[..k]) + {n};
      GainOneMore(t[id], Elements(needs[..k]), n, id, delta);
    }
  }

  lemma GainOneMore(h: Holds, s: set<Need>, n: Need, id: string, delta: int)
    requires n !in s
    ensures Gained(h, s + {n}, id, delta)
            == if n.id == id then Turned(Gained(h, s, id, delta), n.mode, delta) else Gained(h, s, id, delta)
  {
    assert n == Need(n.mode, n.id);
  }

  lemma KnownSanitized(t: Table, needs: seq<Need>)
    ensures Known(t, Sanitized(needs)) <==> Known(t, needs)
    ensures Known(t, Reversed(Sanitized(needs))) <==> Known(t, needs)
  {
    ReversedTwice(Sanitized(needs));
    forall n | n in Sanitized(needs) ensures n in needs {
      assert n in Elements(Sanitized(needs));
    }
    forall n | n in needs ensures exists m :: m in Sanitized(needs) && m.id == n.id {
      SanitizedHasStrongest(needs, n.id);
    }
    assert forall n :: n in Reversed(Sanitized(needs)) <==> n in Elements(Reversed(Sanitized(needs)));
    assert forall n :: n in Sanitized(needs) <==> n in Elements(Sanitized(needs));
  }

  /** The table after `Lock`. */
  function Locked(t: Table, needs: seq<Need>): (r: Table)
    ensures r.Keys == t.Keys
    ensures !Known(t, needs) ==> r == t
  {
    KnownSanitized(t, needs);
    if Known(t, needs) then Shifted(t, Sanitized(needs), 1) else t
  }

  /** The table after `Unlock`. */
  function Unlocked(t: Table, needs: seq<Need>): (r: Table)
    ensures r.Keys == t.Keys
    ensures !Known(t, needs) ==> r == t
  {
    KnownSanitized(t, needs);
    if Known(t, needs) then Shifted(t, Reversed(Sanitized(needs)), -1) else t
  }

  /** Locking and unlocking, seen one lock at a time. */
  lemma LockedPointwise(t: Table, needs: seq<Need>, id: string)
    requires Known(t, needs) && id in t
    ensures
      var s := Strongest(Elements(needs));
      Locked(t, needs)[id] == Gained(t[id], s, id, 1) && Unlocked(t, needs)[id] == Gained(t[id], s, id, -1)
  {
    KnownSanitized(t, needs);
    CanonicalIsDistinct(Sanitized(needs));
    ReversedTwice(Sanitized(needs));
    ShiftedPointwise(t, Sanitized(needs), 1, id);
    ShiftedPointwise(t, Reversed(Sanitized(needs)), -1, id);
  }

  /** A lock changes by one, in the mode that is asked for, or as a write if both are. */
  function Raised(h: Holds, needs: seq<Need>, id: string, delta: int): Holds {
    if Need(Write, id) in needs then h.(writers := h.writers + delta)
    else if Need(Read, id) in needs then h.(readers := h.readers + delta)
    else h
  }

  lemma LockedExactly(t: Table, needs: seq<Need>, id: string)
    requires Known(t, needs) && id in t
    ensures Locked(t, needs)[id] == Raised(t[id], needs, id, 1) && Unlocked(t, needs)[id] == Raised(t[id], needs, id, -1)
  {
    LockedPointwise(t, needs, id);
    var s := Elements(needs);
    assert Need(Write, id) in s <==> Need(Write, id) in needs;
    assert Need(Read, id) in s <==> Need(Read, id) in needs;
  }

  /** Whatever was locked is unlocked again by the same needs in any order and multiplicity. */
  lemma UnlockUndoesLock(t: Table, needs: seq<Need>, again: seq<Need>)
    requires Elements(needs) == Elements(again)
    ensures Unlocked(Locked(t, needs), again) == t
  {
    assert forall n :: n in needs <==> n in Elements(needs);
    assert forall n :: n in again <==> n in Elements(again);
    var l := Locked(t, needs);
    if Known(t, needs) {
      forall id | id in t ensures Unlocked(l, again)[id] == t[id] {
        LockedPointwise(t, needs, id);
        LockedPointwise(l, again, id);
      }
    }
  }

  /** Records with one lock each. */
  class LockStore {
    var holds: Table

    constructor (holds: Table)
      ensures this.holds == holds
    {
      this.holds := holds;
    }

    /** A new record comes with a free lock. */
    method Add(id: string)
      modifies this
      ensures holds == old(holds)[id := Holds(0, 0)]
    {
      holds := holds[id := Holds(0, 0)];
    }

    /** One call on the lock of one record. */
    method RwLock(id: string, mode: Mode, locking: bool)
      requires id in holds
      modifies this
      ensures holds == old(holds)[id := Turned(old(holds)[id], mode, if locking then 1 else -1)]
    {
      var h := holds[id];
      if mode == Write {
        h := if locking then h.(writers := h.writers + 1) else h.(writers := h.writers - 1);
      } else {
        h := if locking then h.(readers := h.readers + 1) else h.(readers := h.readers - 1);
      }
      holds := holds[id := h];
    }

    method DoLocking(lockNeeds: seq<Need>, locking: bool) returns (ok: bool)
      modifies this
      ensures ok == Known(old(holds), lockNeeds)
      ensures holds == if locking then Locked(old(holds), lockNeeds) else Unlocked(old(holds), lockNeeds)
      ensures ok <==> forall n :: n in lockNeeds ==> n.id in old(holds)
      ensures holds.Keys == old(holds).Keys
      ensures !ok ==> holds == old(holds)
      ensures ok ==> forall id :: id in holds ==>
                holds[id] == if Need(Write, id) in lockNeeds then old(holds)[id].(writers := old(holds)[id].writers + (if locking then 1 else -1))
                             else if Need(Read, id) in lockNeeds then old(holds)[id].(readers := old(holds)[id].readers + (if locking then 1 else -1))
                             else old(holds)[id]
    {
      var sanitized;
      if locking {
        sanitized := SanitizeLockNeeds(lockNeeds);
      } else {
        sanitized := SanitizeUnlockNeeds(lockNeeds);
      }
      ok := HaveRecords(sanitized);
      KnownSanitized(holds, lockNeeds);
      if ok {
        ghost var before := holds;
        forall id | id in holds
          ensures Locked(before, lockNeeds)[id] == Raised(before[id], lockNeeds, id, 1)
          ensures Unlocked(before, lockNeeds)[id] == Raised(before[id], lockNeeds, id, -1)
        {
          LockedExactly(before, lockNeeds, id);
        }
        RwLockAll(sanitized, locking);
      }
    }

    /** Whether no record that is needed is missing. */
    method HaveRecords(sanitized: seq<Need>) returns (ok: bool)
      ensures ok == Known(holds, sanitized)
    {
      var i := 0;
      while i < |sanitized|
        invariant 0 <= i <= |sanitized|
        invariant forall k :: 0 <= k < i ==> sanitized[k].id in holds
      {
        if sanitized[i].id !in holds {
          return false;
        }
        i := i + 1;
      }
      return true;
    }

    method RwLockAll(sanitized: seq<Need>, locking: bool)
      requires Known(holds, sanitized)
      modifies this
      ensures holds == Shifted(old(holds), sanitized, if locking then 1 else -1)
    {
      ghost var delta := if locking then 1 else -1;
      var i := 0;
      while i < |sanitized|
        invariant 0 <= i <= |sanitized|
        invariant holds == Shifted(old(holds), sanitized[..i], delta)
      {
        RwLock(sanitized[i].id, sanitized[i].mode, locking);
        assert sanitized[..i + 1][..i] == sanitized[..i];
        i := i + 1;
      }
      assert sanitized[..i] == sanitized;
    }

    method Lock(lockNeeds: seq<Need>) returns (ok: bool)
      modifies this
      ensures ok == Known(old(holds), lockNeeds)
      ensures holds == Locked(old(holds), lockNeeds)
      ensures ok <==> forall n :: n in lockNeeds ==> n.id in old(holds)
      ensures holds.Keys == old(holds).Keys
      ensures !ok ==> holds == old(holds)
      ensures ok ==> forall id :: id in holds ==>
                holds[id] == if Need(Write, id) in lockNeeds then old(holds)[id].(writers := old(holds)[id].writers + 1)
                             else if Need(Read, id) in lockNeeds then old(holds)[id].(readers := old(holds)[id].readers + 1)
                             else old(holds)[id]
    {
      ok := DoLocking(lockNeeds, true);
    }

    method Unlock(lockNeeds: seq<Need>) returns (ok: bool)
      modifies this
      ensures ok == Known(old(holds), lockNeeds)
      ensures holds == Unlocked(old(holds), lockNeeds)
      ensures ok <==> forall n :: n in lockNeeds ==> n.id in old(holds)
      ensures holds.Keys == old(holds).Keys
      ensures !ok ==> holds == old(holds)
      ensures ok ==> forall id :: id in holds ==>
                holds[id] == if Need(Write, id) in lockNeeds then old(holds)[id].(writers := old(holds)[id].writers - 1)
                             else if Need(Read, id) in lockNeeds then old(holds)[id].(readers := old(holds)[id].readers - 1)
                             else old(holds)[id]
    {
      ok := DoLocking(lockNeeds, false);
    }
  }
}
