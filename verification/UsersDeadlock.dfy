/** Requests to the users daemon that take their locks at the same time and give all of them back: when they block
    each other for good. */
module UsersDeadlock {
  import opened Common
  import opened LockNeeds
  import opened Deadlock
  import C = ClaimsDeadlock

  /** The records somebody reads, in the order they are taken, and the one it writes after that, if any. All are
      dropped together. */
  datatype Wish = Wish(read: seq<string>, written: Option<string>)

  /** What is written is not read as well. */
  predicate Apart(us: seq<Wish>) {
    forall i :: 0 <= i < |us| && us[i].written.Some? ==> us[i].written.value !in us[i].read
  }

  function Reading(ids: seq<string>): (r: seq<Need>)
    ensures |r| == |ids| && forall k :: 0 <= k < |r| ==> r[k] == Need(Read, ids[k])
  {
    seq(|ids|, i requires 0 <= i < |ids| => Need(Read, ids[i]))
  }

  function WishNeeds(u: Wish): (r: seq<Need>)
    ensures |r| == |u.read| + (if u.written.Some? then 1 else 0)
    ensures forall k :: 0 <= k < |u.read| ==> r[k] == Need(Read, u.read[k])
    ensures u.written.Some? ==> r[|u.read|] == Need(Write, u.written.value)
  {
    Reading(u.read) + (if u.written.Some? then [Need(Write, u.written.value)] else [])
  }

  function TakeAndDrop(needs: seq<Need>): seq<Action> {
    TakeAll(needs) + DropAll(Reversed(needs))
  }

  function ClaimOf(u: Wish): C.Claim {
    var takes, drops := TakeAll(Reading(u.read)), DropAll(Reversed(WishNeeds(u)));
    if u.written.Some? then C.Claim(takes, u.written, drops) else C.Claim(takes + drops, None, [])
  }

  function AllClaims(us: seq<Wish>): (cs: seq<C.Claim>)
    ensures |cs| == |us| && forall i :: 0 <= i < |us| ==> cs[i] == ClaimOf(us[i])
  {
    seq(|us|, i requires 0 <= i < |us| => ClaimOf(us[i]))
  }

  lemma ClaimTakesAndDrops(u: Wish)
    ensures C.Program(ClaimOf(u)) == TakeAndDrop(WishNeeds(u))
    ensures Held(C.Program(ClaimOf(u))) == multiset{}
  {
    DropsAllItTook(WishNeeds(u));
    hide Held, Reversed;
    if u.written.Some? {
      assert TakeAll(WishNeeds(u)) == TakeAll(Reading(u.read)) + [Take(Need(Write, u.written.value))];
    } else {
      assert WishNeeds(u) == Reading(u.read);
    }
  }

  lemma DropsAllItTook(needs: seq<Need>)
    ensures Held(TakeAndDrop(needs)) == multiset{}
  {
    HeldAfterTakes([], needs);
    HeldAfterDrops(TakeAll(needs), Reversed(needs));
    ReversedHasSame(needs);
    assert [] + TakeAll(needs) == TakeAll(needs);
    hide TakeAll, DropAll, Reversed;
  }

  /** While it takes, a wish holds what it has read so far. */
  lemma WishHolds(u: Wish, k: nat, id: string)
    requires k <= |u.read|
    ensures k <= |ClaimOf(u).before|
    ensures Need(Read, id) in Held(ClaimOf(u).before[..k]) <==> id in u.read[..k]
  {
    WishPrefix(u, k);
    TakesAreHeld(Reading(u.read[..k]));
    ReadingHas(u.read[..k], id);
    hide Held, ClaimOf, TakeAll, Reading;
  }

  lemma TakesAreHeld(needs: seq<Need>)
    ensures Held(TakeAll(needs)) == multiset(needs)
  {
    HeldAfterTakes([], needs);
    hide TakeAll;
    assert [] + TakeAll(needs) == TakeAll(needs);
  }

  lemma WishPrefix(u: Wish, k: nat)
    requires k <= |u.read|
    ensures k <= |ClaimOf(u).before| && ClaimOf(u).before[..k] == TakeAll(Reading(u.read[..k]))
  {
    hide Reversed, WishNeeds;
    var a, b := ClaimOf(u).before[..k], TakeAll(Reading(u.read[..k]));
    assert |a| == |b| && forall x :: 0 <= x < |a| ==> a[x] == b[x];
  }

  lemma ReadingHas(ids: seq<string>, id: string)
    ensures Need(Read, id) in multiset(Reading(ids)) <==> id in ids
  {
    var r := Reading(ids);
    if id in ids {
      var x :| 0 <= x < |ids| && ids[x] == id;
      assert r[x] == Need(Read, id);
    }
    if Need(Read, id) in r {
      var x :| 0 <= x < |r| && r[x] == Need(Read, id);
      assert ids[x] == id;
    }
  }

  lemma WishIsFit(u: Wish)
    requires u.written.Some? ==> u.written.value !in u.read
    ensures C.Fit(ClaimOf(u))
  {
    ClaimTakesAndDrops(u);
    hide Held, C.Program;
    if u.written.Some? {
      WishHolds(u, |u.read|, u.written.value);
      assert ClaimOf(u).before[..|u.read|] == ClaimOf(u).before;
      assert u.read[..|u.read|] == u.read;
    }
    if u.written.None? {
      assert forall n :: n in WishNeeds(u) ==> n.mode.Read?;
    }
  }

  lemma WishesAreFit(us: seq<Wish>)
    requires Apart(us)
    ensures C.AllFit(AllClaims(us))
  {
    hide C.Fit, ClaimOf;
    forall i | 0 <= i < |us| ensures C.Fit(AllClaims(us)[i]) {
      WishIsFit(us[i]);
    }
  }

  // ---------------------------------------------------------------- who waits for whom

  /** Whether one update can be kept waiting with its write by another one, directly or, if announced writers
      go first, through any request that has read what the one writes and must wait to read what the other does. */
  predicate Leads(us: seq<Wish>, i: nat, j: nat, writersFirst: bool) {
    && i < |us| && j < |us| && us[i].written.Some? && us[j].written.Some?
    && (us[i].written.value in us[j].read
        || (writersFirst && exists h :: 0 <= h < |us| && ReadsInTurn(us[h], us[i].written.value, us[j].written.value)))
  }

  /** Whether one record is read, and then another, or the same one again. */
  predicate ReadsInTurn(u: Wish, a: string, b: string) {
    exists x, y :: 0 <= x < y < |u.read| && u.read[x] == a && u.read[y] == b
  }

  /** Some updates each of which leads to another of them. */
  predicate Closed(us: seq<Wish>, c: set<nat>, writersFirst: bool) {
    c != {} && forall i :: i in c ==> LeadsWithin(us, c, i, writersFirst)
  }

  predicate LeadsWithin(us: seq<Wish>, c: set<nat>, i: nat, writersFirst: bool) {
    exists j :: j in c && Leads(us, i, j, writersFirst)
  }

  lemma Follow(us: seq<Wish>, c: set<nat>, i: nat, writersFirst: bool) returns (j: nat)
    requires Closed(us, c, writersFirst) && i in c
    ensures j in c && Leads(us, i, j, writersFirst)
  {
    assert LeadsWithin(us, c, i, writersFirst);
    j :| j in c && Leads(us, i, j, writersFirst);
  }

  lemma SomeMember(us: seq<Wish>, c: set<nat>, writersFirst: bool) returns (i: nat)
    requires Closed(us, c, writersFirst)
    ensures i in c
  {
    hide LeadsWithin;
    i :| i in c;
  }

  predicate Path(us: seq<Wish>, p: seq<nat>, writersFirst: bool) {
    p != [] && forall k :: 0 <= k < |p| - 1 ==> Leads(us, p[k], p[k + 1], writersFirst)
  }

  predicate Cycle(us: seq<Wish>, p: seq<nat>, writersFirst: bool) {
    Path(us, p, writersFirst) && Leads(us, p[|p| - 1], p[0], writersFirst)
  }

  /** Following where they lead, some update comes round again. */
  lemma {:induction false} WalkComesRound(us: seq<Wish>, c: set<nat>, p: seq<nat>, unused: set<nat>, writersFirst: bool)
    returns (cycle: seq<nat>)
    requires Closed(us, c, writersFirst) && Path(us, p, writersFirst)
    requires forall k :: 0 <= k < |p| ==> p[k] in c
    requires forall i :: i in c ==> i in p || i in unused
    ensures Cycle(us, cycle, writersFirst)
    decreases unused
  {
    hide Leads, Closed;
    var j := Follow(us, c, p[|p| - 1], writersFirst);
    if j in p {
      var k :| 0 <= k < |p| && p[k] == j;
      cycle := p[k..];
    } else {
      cycle := WalkComesRound(us, c, p + [j], unused - {j}, writersFirst);
    }
  }

  lemma CycleIsClosed(us: seq<Wish>, p: seq<nat>, writersFirst: bool) returns (c: set<nat>)
    requires Cycle(us, p, writersFirst)
    ensures Closed(us, c, writersFirst)
  {
    c := set i | i in p;
    hide Leads;
    assert p[0] in c;
    forall i | i in c ensures LeadsWithin(us, c, i, writersFirst) {
      var k :| 0 <= k < |p| && p[k] == i;
      if k < |p| - 1 {
        assert p[k + 1] in c;
      }
    }
  }

  // ---------------------------------------------------------------- who waits leads on

  /** A wish that ends keeps nothing. */
  lemma NothingIsKept(us: seq<Wish>, i: nat, j: nat)
    ensures !C.KeptFrom(AllClaims(us), i, j)
  {
    if j < |us| && us[j].written.None? {
      ClaimTakesAndDrops(us[j]);
      assert C.Program(ClaimOf(us[j])) == ClaimOf(us[j]).before;
    }
  }

  lemma WaitsInRange(us: seq<Wish>, stops: seq<nat>, i: nat, j: nat, writersFirst: bool)
    requires C.Placed(AllClaims(us), stops) && C.Waits(AllClaims(us), stops, i, j, writersFirst)
    ensures i < |us| && j < |us| && i != j
  {
  }

  /** Who waits is at its write or at one of its reads, and holds what it has read before. */
  lemma WaitingHolds(us: seq<Wish>, stops: seq<nat>, j: nat, k: nat, id: string, writersFirst: bool)
    requires C.Placed(AllClaims(us), stops) && C.Waits(AllClaims(us), stops, j, k, writersFirst)
    requires C.HoldsAt(AllClaims(us), stops, j, id)
    ensures stops[j] <= |us[j].read| && id in us[j].read[..stops[j]]
  {
    var u := us[j];
    hide Held;
    if stops[j] < |ClaimOf(u).before| {
      assert ClaimOf(u).before[stops[j]].Take?;
      assert stops[j] < |u.read|;
    }
    WishHolds(u, stops[j], id);
  }

  lemma ReadingHolds(us: seq<Wish>, stops: seq<nat>, j: nat, a: string, b: string)
    requires C.Placed(AllClaims(us), stops) && C.AtRead(AllClaims(us), stops, j, b)
    requires stops[j] <= |us[j].read| && a in us[j].read[..stops[j]]
    ensures ReadsInTurn(us[j], a, b)
  {
    var x :| 0 <= x < stops[j] && us[j].read[..stops[j]][x] == a;
    assert us[j].read[x] == a;
    assert stops[j] < |us[j].read| && us[j].read[stops[j]] == b;
  }

  /** From a write, two steps at most lead to the next write. */
  lemma WritersLead(us: seq<Wish>, stops: seq<nat>, i: nat, h: nat, j: nat, writersFirst: bool)
    requires C.Placed(AllClaims(us), stops) && C.AtWrite(AllClaims(us), stops, i)
    requires C.Waits(AllClaims(us), stops, i, h, writersFirst) && C.Waits(AllClaims(us), stops, h, j, writersFirst)
    ensures if C.AtWrite(AllClaims(us), stops, h) then Leads(us, i, h, writersFirst)
            else C.AtWrite(AllClaims(us), stops, j) && Leads(us, i, j, writersFirst)
  {
    var id := us[i].written.value;
    assert stops[i] == |ClaimOf(us[i]).before|;
    hide Held, ReadsInTurn;
    assert C.HoldsAt(AllClaims(us), stops, h, id);
    WaitingHolds(us, stops, h, j, id, writersFirst);
    hide C.HoldsAt;
    if C.AtWrite(AllClaims(us), stops, h) {
      assert id in us[h].read;
    } else {
      ReadingHolds(us, stops, h, id, us[j].written.value);
    }
  }

  /** The writers of a cycle lead to one another. */
  lemma WritersOfCycle(us: seq<Wish>, stops: seq<nat>, p: seq<nat>, writersFirst: bool) returns (c: set<nat>)
    requires C.Cycle(AllClaims(us), stops, p, writersFirst)
    ensures Closed(us, c, writersFirst)
  {
    hide C.Waits, C.AtWrite, Leads, AllClaims;
    c := set i | i in p && C.AtWrite(AllClaims(us), stops, i);
    var one := SomeWriter(us, stops, p, writersFirst);
    assert one in c;
    forall i | i in c ensures LeadsWithin(us, c, i, writersFirst) {
      var k :| 0 <= k < |p| && p[k] == i;
      var l := C.NextIn(AllClaims(us), stops, p, k, writersFirst);
      var m := C.NextIn(AllClaims(us), stops, p, l, writersFirst);
      WritersLead(us, stops, i, p[l], p[m], writersFirst);
      assert p[l] in p && p[m] in p;
    }
  }

  lemma SomeWriter(us: seq<Wish>, stops: seq<nat>, p: seq<nat>, writersFirst: bool) returns (i: nat)
    requires C.Cycle(AllClaims(us), stops, p, writersFirst)
    ensures C.Placed(AllClaims(us), stops) && i in p && C.AtWrite(AllClaims(us), stops, i)
  {
    var l := C.NextIn(AllClaims(us), stops, p, 0, writersFirst);
    i := if C.AtWrite(AllClaims(us), stops, p[0]) then p[0] else p[l];
  }

  // ---------------------------------------------------------------- what leads round can wait

  function Subjects(us: seq<Wish>, c: set<nat>): set<string> {
    set i | i in c && i < |us| && us[i].written.Some? :: us[i].written.value
  }

  /** The last place of one of some ids, or the length of the list. */
  function LastFor(r: seq<string>, ids: set<string>): (k: nat)
    ensures k <= |r|
    ensures k < |r| ==> r[k] in ids
    ensures forall a :: 0 <= a < |r| && r[a] in ids ==> a <= k < |r|
  {
    if r == [] then 0
    else if r[|r| - 1] in ids then |r| - 1
    else
      var k := LastFor(r[..|r| - 1], ids);
      if k < |r| - 1 then k else |r|
  }

  /** Whether a party is one of those that are to wait for their writes. */
  predicate IsToWrite(us: seq<Wish>, c: set<nat>, i: nat)
    requires i < |us|
  {
    i in c && us[i].written.Some?
  }

  /** How far somebody is let go: to its write, or to the last of its reads of a record that is about to be
      written. */
  function Stop(us: seq<Wish>, c: set<nat>, i: nat): (k: nat)
    requires i < |us|
    ensures k <= |us[i].read|
    ensures IsToWrite(us, c, i) ==> k == |us[i].read|
  {
    if IsToWrite(us, c, i) then |us[i].read| else LastFor(us[i].read, Subjects(us, c))
  }

  /** Stopped at a read of a record whose write has been announced. */
  predicate WaitsToRead(us: seq<Wish>, c: set<nat>, h: nat)
    requires h < |us|
  {
    !IsToWrite(us, c, h) && Stop(us, c, h) < |us[h].read|
  }

  /** The stop comes after a read if a write is to follow, or a later read of a record to be written. */
  predicate StopsAfter(us: seq<Wish>, c: set<nat>, h: nat, id: string)
    requires h < |us|
  {
    if IsToWrite(us, c, h) then id in us[h].read
    else exists later :: later in Subjects(us, c) && ReadsInTurn(us[h], id, later)
  }

  lemma StopIsAfter(us: seq<Wish>, c: set<nat>, h: nat, id: string) returns (x: nat)
    requires h < |us| && StopsAfter(us, c, h, id)
    ensures x < Stop(us, c, h) && us[h].read[x] == id
    ensures IsToWrite(us, c, h) || WaitsToRead(us, c, h)
  {
    hide Subjects;
    if IsToWrite(us, c, h) {
      x :| x < |us[h].read| && us[h].read[x] == id;
    } else {
      var later :| later in Subjects(us, c) && ReadsInTurn(us[h], id, later);
      var y: nat;
      x, y :| x < y < |us[h].read| && us[h].read[x] == id && us[h].read[y] == later;
    }
  }

  function Stops(us: seq<Wish>, c: set<nat>): (stops: seq<nat>)
    ensures |stops| == |us| && forall i :: 0 <= i < |us| ==> stops[i] == Stop(us, c, i)
    ensures C.Placed(AllClaims(us), stops)
  {
    seq(|us|, i requires 0 <= i < |us| => Stop(us, c, i))
  }

  lemma HoldsReadOf(us: seq<Wish>, c: set<nat>, h: nat, id: string)
    requires h < |us| && StopsAfter(us, c, h, id)
    ensures C.HoldsAt(AllClaims(us), Stops(us, c), h, id) && (IsToWrite(us, c, h) || WaitsToRead(us, c, h))
  {
    var x := StopIsAfter(us, c, h, id);
    WishHolds(us[h], Stop(us, c, h), id);
    hide Held, Stop, StopsAfter, ClaimOf;
    assert us[h].read[..Stop(us, c, h)][x] == id;
  }

  lemma WriterStops(us: seq<Wish>, c: set<nat>, i: nat)
    requires i < |us| && IsToWrite(us, c, i)
    ensures C.AtWrite(AllClaims(us), Stops(us, c), i) && AllClaims(us)[i].written == us[i].written
  {
  }

  /** Every update that is to write waits for somebody who holds the record. */
  lemma WriterWaits(us: seq<Wish>, c: set<nat>, i: nat, j: nat, writersFirst: bool) returns (h: nat)
    requires Apart(us) && i in c && j in c && Leads(us, i, j, writersFirst)
    ensures h < |us| && C.Waits(AllClaims(us), Stops(us, c), i, h, writersFirst)
    ensures h in c || (writersFirst && WaitsToRead(us, c, h))
  {
    var id := us[i].written.value;
    hide ReadsInTurn;
    if id in us[j].read {
      h := j;
    } else {
      h :| h < |us| && ReadsInTurn(us[h], id, us[j].written.value);
      assert us[j].written.value in Subjects(us, c);
      ReadsFirst(us[h], id, us[j].written.value);
    }
    assert id in us[h].read && h != i;
    HoldsReadOf(us, c, h, id);
    WriterStops(us, c, i);
    hide Held, Stops, Subjects, C.HoldsAt;
  }

  lemma ReadsFirst(u: Wish, a: string, b: string)
    requires ReadsInTurn(u, a, b)
    ensures a in u.read
  {
  }

  /** And whoever must wait to read waits for one of them. */
  lemma ReaderWaits(us: seq<Wish>, c: set<nat>, h: nat) returns (j: nat)
    requires h < |us| && WaitsToRead(us, c, h)
    ensures j in c && j < |us| && C.Waits(AllClaims(us), Stops(us, c), h, j, true)
  {
    var id := us[h].read[Stop(us, c, h)];
    assert id in Subjects(us, c);
    j :| j in c && j < |us| && us[j].written.Some? && us[j].written.value == id;
    WriterStops(us, c, j);
    assert ClaimOf(us[h]).before[Stop(us, c, h)] == Take(Need(Read, id));
    hide Held, Stop, LastFor, Subjects;
    assert C.AtRead(AllClaims(us), Stops(us, c), h, id);
  }

  /** All that are to write, and those that must wait to read. */
  lemma JamOf(us: seq<Wish>, c: set<nat>, writersFirst: bool) returns (jam: set<nat>)
    ensures forall h: nat :: h in jam <==> h < |us| && (h in c || (writersFirst && WaitsToRead(us, c, h)))
  {
    hide WaitsToRead;
    jam := set h: nat | h < |us| && (h in c || (writersFirst && WaitsToRead(us, c, h)));
  }

  lemma ClosedWaits(us: seq<Wish>, c: set<nat>, writersFirst: bool) returns (jam: set<nat>)
    requires Apart(us) && Closed(us, c, writersFirst)
    ensures C.Closed(AllClaims(us), Stops(us, c), jam, writersFirst)
  {
    hide WaitsToRead, Stops, Leads, C.WaitsWithin, Closed, AllClaims;
    jam := JamOf(us, c, writersFirst);
    var one := SomeMember(us, c, writersFirst);
    var next := Follow(us, c, one, writersFirst);
    LeadsInRange(us, one, next, writersFirst);
    assert one in jam;
    forall i | i in jam ensures C.WaitsWithin(AllClaims(us), Stops(us, c), jam, i, writersFirst) {
      InTheJam(us, c, jam, i, writersFirst);
    }
  }

  lemma InTheJam(us: seq<Wish>, c: set<nat>, jam: set<nat>, i: nat, writersFirst: bool)
    requires Apart(us) && Closed(us, c, writersFirst) && i in jam
    requires forall h: nat :: h in jam <==> h < |us| && (h in c || (writersFirst && WaitsToRead(us, c, h)))
    ensures C.WaitsWithin(AllClaims(us), Stops(us, c), jam, i, writersFirst)
  {
    hide WaitsToRead, Stops, Leads, Closed, C.Waits, C.Ended;
    var h;
    if i in c {
      var j := Follow(us, c, i, writersFirst);
      LeadsInRange(us, i, j, writersFirst);
      h := WriterWaits(us, c, i, j, writersFirst);
    } else {
      h := ReaderWaits(us, c, i);
    }
    assert h in jam;
  }

  lemma LeadsInRange(us: seq<Wish>, i: nat, j: nat, writersFirst: bool)
    requires Leads(us, i, j, writersFirst)
    ensures i < |us| && j < |us|
  {
  }

  // ---------------------------------------------------------------- the exact condition

  function Beginning(us: seq<Wish>): (s: State)
    ensures AllSound(s)
  {
    Begin(C.Programs(AllClaims(us)))
  }

  lemma DeadlockExactlyWhenClosed(us: seq<Wish>, writersFirst: bool)
    requires Apart(us)
    ensures (exists schedule :: Deadlocked(Exec(Beginning(us), schedule, writersFirst), writersFirst))
            <==> exists c :: Closed(us, c, writersFirst)
  {
    WishesAreFit(us);
    ClosedAlike(us, writersFirst);
    var cs := AllClaims(us);
    hide Exec, Deadlocked, Begin, C.Programs, C.Closed, C.AllFit, Closed, AllClaims;
    C.DeadlockExactlyWhenClosed(cs, writersFirst);
    assert Beginning(us) == Begin(C.Programs(cs));
    hide Beginning;
  }

  lemma ClosedAlike(us: seq<Wish>, writersFirst: bool)
    requires Apart(us)
    ensures (exists c :: Closed(us, c, writersFirst)) <==> exists stops, c :: C.Closed(AllClaims(us), stops, c, writersFirst)
  {
    hide C.Closed, Closed, AllClaims, Stops, Apart;
    if c :| Closed(us, c, writersFirst) {
      var jam := ClosedWaits(us, c, writersFirst);
    }
    if stops, c :| C.Closed(AllClaims(us), stops, c, writersFirst) {
      var d := WaitingLeads(us, stops, c, writersFirst);
    }
  }

  lemma WaitingLeads(us: seq<Wish>, stops: seq<nat>, c: set<nat>, writersFirst: bool) returns (d: set<nat>)
    requires C.Closed(AllClaims(us), stops, c, writersFirst)
    ensures Closed(us, d, writersFirst)
  {
    hide C.Closed, C.Cycle, C.KeptFrom, AllClaims, Closed;
    C.ClosedComesRound(AllClaims(us), stops, c, writersFirst);
    if i, j :| C.KeptFrom(AllClaims(us), i, j) {
      NothingIsKept(us, i, j);
    }
    var p :| C.Cycle(AllClaims(us), stops, p, writersFirst);
    d := WritersOfCycle(us, stops, p, writersFirst);
  }

  /** Any number of parties that read in any order, repeats included, then write, and drop all together can block
      each other for good, exactly when following which one leads to which comes round again. */
  lemma DeadlockExactlyInCycles(us: seq<Wish>, writersFirst: bool)
    requires Apart(us)
    ensures (exists schedule :: Deadlocked(Exec(Beginning(us), schedule, writersFirst), writersFirst))
            <==> exists p :: Cycle(us, p, writersFirst)
  {
    DeadlockExactlyWhenClosed(us, writersFirst);
    ClosedExactlyInCycles(us, writersFirst);
    hide Exec, Deadlocked, Beginning, Closed, Cycle;
  }

  lemma ClosedExactlyInCycles(us: seq<Wish>, writersFirst: bool)
    ensures (exists c :: Closed(us, c, writersFirst)) <==> exists p :: Cycle(us, p, writersFirst)
  {
    hide Closed, Cycle;
    if c :| Closed(us, c, writersFirst) {
      var p := ClosedComesRound(us, c, writersFirst);
    }
    if p :| Cycle(us, p, writersFirst) {
      var c := CycleIsClosed(us, p, writersFirst);
    }
  }

  lemma ClosedComesRound(us: seq<Wish>, c: set<nat>, writersFirst: bool) returns (p: seq<nat>)
    requires Closed(us, c, writersFirst)
    ensures Cycle(us, p, writersFirst)
  {
    hide Closed, Leads;
    var one := SomeMember(us, c, writersFirst);
    p := WalkComesRound(us, c, [one], c - {one}, writersFirst);
  }

  // ---------------------------------------------------------------- requests to the users daemon

  function Written(u: Wish): set<string> {
    if u.written.Some? then {u.written.value} else {}
  }

  /** The records that are only read. */
  function Readers(u: Wish): set<string> {
    (set id | id in u.read) - Written(u)
  }

  /** How many of the needs are reads. */
  function ReadCount(u: Wish, r: seq<Need>): nat {
    if u.written.Some? && |r| > 0 then |r| - 1 else |r|
  }

  /** A canonical list: reads in the order of their ids, then the write, if there is one. */
  predicate Shaped(u: Wish, r: seq<Need>) {
    && (u.written.Some? ==> |r| > 0 && r[|r| - 1] == Need(Write, u.written.value))
    && (forall i :: 0 <= i < ReadCount(u, r) ==> r[i].mode.Read? && r[i].id in Readers(u))
    && (forall id :: id in Readers(u) ==> Need(Read, id) in r[..ReadCount(u, r)])
    && (forall i, j :: 0 <= i < j < ReadCount(u, r) ==> Precedes(r[i].id, r[j].id))
  }

  lemma WishHas(u: Wish, n: Need)
    ensures n in Elements(WishNeeds(u)) <==> if n.mode.Read? then n.id in u.read else n.id in Written(u)
  {
    var needs := WishNeeds(u);
    if n.mode.Read? && n.id in u.read {
      var i :| 0 <= i < |u.read| && u.read[i] == n.id;
      assert needs[i] == n;
    }
    if n.mode.Write? && n.id in Written(u) {
      assert needs[|needs| - 1] == n;
    }
  }

  lemma WishElements(u: Wish)
    ensures forall n :: n in Elements(Sanitized(WishNeeds(u))) <==> if n.mode.Read? then n.id in Readers(u) else n.id in Written(u)
  {
    forall n ensures n in Elements(Sanitized(WishNeeds(u))) <==> if n.mode.Read? then n.id in Readers(u) else n.id in Written(u) {
      WishHas(u, n);
      WishHas(u, Need(Write, n.id));
    }
  }

  lemma WriteComesLast(u: Wish, r: seq<Need>)
    requires StrictlySorted(r)
    requires forall n :: n in Elements(r) <==> if n.mode.Read? then n.id in Readers(u) else n.id in Written(u)
    ensures u.written.Some? ==> |r| > 0 && r[|r| - 1] == Need(Write, u.written.value)
    ensures forall i :: 0 <= i < ReadCount(u, r) ==> r[i].mode.Read? && r[i].id in Readers(u)
  {
    hide Readers;
    forall i | 0 <= i < |r| ensures if r[i].mode.Read? then r[i].id in Readers(u) else r[i].id in Written(u) {
      assert r[i] in Elements(r);
    }
    if u.written.Some? {
      assert Need(Write, u.written.value) in Elements(r);
      var k :| 0 <= k < |r| && r[k] == Need(Write, u.written.value);
      forall i | 0 <= i < |r| && i != k ensures i < k && r[i].mode.Read? {
        if i < k {
          assert NeedLess(r[i], r[k]);
        } else {
          assert NeedLess(r[k], r[i]);
        }
        NeedLessIsStrictTotal(r[i], r[k], r[i]);
      }
    }
  }

  lemma WishShape(u: Wish)
    ensures Shaped(u, Sanitized(WishNeeds(u)))
  {
    WishElements(u);
    SortedShape(u, Sanitized(WishNeeds(u)));
  }

  lemma SortedShape(u: Wish, r: seq<Need>)
    requires StrictlySorted(r)
    requires forall n :: n in Elements(r) <==> if n.mode.Read? then n.id in Readers(u) else n.id in Written(u)
    ensures Shaped(u, r)
  {
    WriteComesLast(u, r);
    hide Readers, Written, Precedes, NeedLess, StrictlySorted;
    ReadsAreInOrder(r, ReadCount(u, r));
    forall id | id in Readers(u) ensures Need(Read, id) in r[..ReadCount(u, r)] {
      assert Need(Read, id) in Elements(r);
      ReadComesBefore(u, r, Need(Read, id));
    }
  }

  lemma ReadComesBefore(u: Wish, r: seq<Need>, n: Need)
    requires n in r && n.mode.Read? && (u.written.Some? ==> r[|r| - 1].mode.Write?)
    ensures n in r[..ReadCount(u, r)]
  {
    var i :| 0 <= i < |r| && r[i] == n;
    assert r[..ReadCount(u, r)][i] == n;
  }

  lemma ReadsAreInOrder(r: seq<Need>, k: nat)
    requires StrictlySorted(r) && k <= |r| && forall i :: 0 <= i < k ==> r[i].mode.Read?
    ensures forall i, j :: 0 <= i < j < k ==> Precedes(r[i].id, r[j].id)
  {
    hide Precedes;
    forall i, j | 0 <= i < j < k ensures Precedes(r[i].id, r[j].id) {
      assert NeedLess(r[i], r[j]);
    }
  }

  /** What is left of a request once its needs are in canonical order: every record once, in the order of ids,
      and the one that is written only written. */
  function Arranged(u: Wish): (v: Wish)
    ensures v.written == u.written && WishNeeds(v) == Sanitized(WishNeeds(u))
    ensures forall id :: id in v.read <==> id in Readers(u)
    ensures forall i, j :: 0 <= i < j < |v.read| ==> Precedes(v.read[i], v.read[j])
  {
    ArrangedShape(u);
    var r := Sanitized(WishNeeds(u));
    Wish(Ids(r[..ReadCount(u, r)]), u.written)
  }

  function Ids(r: seq<Need>): (ids: seq<string>)
    ensures |ids| == |r| && forall i :: 0 <= i < |r| ==> ids[i] == r[i].id
  {
    seq(|r|, i requires 0 <= i < |r| => r[i].id)
  }

  lemma ArrangedShape(u: Wish)
    ensures
      var r := Sanitized(WishNeeds(u));
      var v := Wish(Ids(r[..ReadCount(u, r)]), u.written);
      && WishNeeds(v) == r
      && (forall id :: id in v.read <==> id in Readers(u))
      && (forall i, j :: 0 <= i < j < |v.read| ==> Precedes(v.read[i], v.read[j]))
  {
    WishShape(u);
    var r := Sanitized(WishNeeds(u));
    hide Sanitized, Readers, WishNeeds;
    var v := Wish(Ids(r[..ReadCount(u, r)]), u.written);
    forall id ensures id in v.read <==> id in Readers(u) {
      if id in Readers(u) {
        var i :| 0 <= i < ReadCount(u, r) && r[..ReadCount(u, r)][i] == Need(Read, id);
        assert v.read[i] == id;
      }
    }
  }

  function AllNeeds(us: seq<Wish>): seq<seq<Need>> {
    seq(|us|, i requires 0 <= i < |us| => WishNeeds(us[i]))
  }

  function AllArranged(us: seq<Wish>): (vs: seq<Wish>)
    ensures |vs| == |us| && forall i :: 0 <= i < |us| ==> vs[i] == Arranged(us[i])
    ensures Apart(vs)
  {
    seq(|us|, i requires 0 <= i < |us| => Arranged(us[i]))
  }

  lemma RequestsStart(us: seq<Wish>)
    ensures Start(AllNeeds(us)) == Beginning(AllArranged(us))
  {
    hide Arranged, Sanitized, ClaimOf, TakeAndDrop;
    forall i | 0 <= i < |us| ensures Start(AllNeeds(us))[i] == Beginning(AllArranged(us))[i] {
      RequestStarts(us[i]);
    }
  }

  lemma RequestStarts(u: Wish)
    ensures C.Program(ClaimOf(Arranged(u))) == Served(WishNeeds(u), WishNeeds(u))
  {
    ClaimTakesAndDrops(Arranged(u));
    hide Arranged, Sanitized, ClaimOf, Held, C.Program;
  }

  /** Any number of requests that take their locks at the same time and give them all back can block each other for
      good, exactly when following which one leads to which comes round again. */
  lemma RequestsDeadlockExactlyInCycles(us: seq<Wish>, writersFirst: bool)
    ensures (exists schedule :: Deadlocked(Exec(Start(AllNeeds(us)), schedule, writersFirst), writersFirst))
            <==> exists p :: Cycle(AllArranged(us), p, writersFirst)
  {
    RequestsStart(us);
    DeadlockExactlyInCycles(AllArranged(us), writersFirst);
  }

  lemma ArrangedReadsInTurn(u: Wish, a: string, b: string)
    ensures ReadsInTurn(Arranged(u), a, b) <==> a in Readers(u) && b in Readers(u) && Precedes(a, b)
  {
    SortedReadsInTurn(Arranged(u), a, b);
    assert a in Readers(u) <==> a in Arranged(u).read;
    assert b in Readers(u) <==> b in Arranged(u).read;
    hide Arranged, Readers, Precedes, ReadsInTurn;
  }

  lemma SortedReadsInTurn(v: Wish, a: string, b: string)
    requires forall i, j :: 0 <= i < j < |v.read| ==> Precedes(v.read[i], v.read[j])
    ensures ReadsInTurn(v, a, b) <==> a in v.read && b in v.read && Precedes(a, b)
  {
    hide Precedes;
    if a in v.read && b in v.read && Precedes(a, b) {
      var x :| 0 <= x < |v.read| && v.read[x] == a;
      var y :| 0 <= y < |v.read| && v.read[y] == b;
      PrecedesIsAsymmetric(a, b);
      assert x < y;
    }
  }

  /** Which request leads to which: an update to one that reads the record it is to write and, if announced
      writers go first, to one that writes what some request reads, in the order of ids, after that record. */
  lemma RequestLeadsExactly(us: seq<Wish>, i: nat, j: nat, writersFirst: bool)
    requires i < |us| && j < |us|
    ensures
      Leads(AllArranged(us), i, j, writersFirst)
      <==> us[i].written.Some? && us[j].written.Some?
           && var a, b := us[i].written.value, us[j].written.value;
              a in Readers(us[j])
              || (writersFirst && Precedes(a, b) && exists h :: 0 <= h < |us| && a in Readers(us[h]) && b in Readers(us[h]))
  {
    var vs := AllArranged(us);
    hide Arranged, Readers, AllArranged, ReadsInTurn;
    if us[i].written.Some? && us[j].written.Some? {
      var a, b := us[i].written.value, us[j].written.value;
      forall h | 0 <= h < |us|
        ensures ReadsInTurn(vs[h], a, b) <==> a in Readers(us[h]) && b in Readers(us[h]) && Precedes(a, b)
      {
        ArrangedReadsInTurn(us[h], a, b);
      }
    }
  }

  lemma TwoComeRound(us: seq<Wish>, i: nat, j: nat, writersFirst: bool)
    requires Leads(us, i, j, writersFirst) && Leads(us, j, i, writersFirst)
    ensures Closed(us, {i, j}, writersFirst)
  {
    hide Leads;
    assert LeadsWithin(us, {i, j}, i, writersFirst) && LeadsWithin(us, {i, j}, j, writersFirst);
  }

  /** Two updates signed by b, of b itself and of a, and a read of both. */
  function InTurn(a: string, b: string): seq<Wish> {
    [Wish([b, b], Some(b)), Wish([b, b], Some(a)), Wish([a, b], None)]
  }

  /** No update leads back to itself by what is read alone, so they can deadlock exactly when an announced writer
      keeps new readers out. */
  lemma AnnouncedWritersDeadlockWithoutReadCycle(a: string, b: string, writersFirst: bool)
    requires Precedes(a, b)
    ensures (exists schedule :: Deadlocked(Exec(Start(AllNeeds(InTurn(a, b))), schedule, writersFirst), writersFirst))
            <==> writersFirst
  {
    hide Exec, Deadlocked, Start, Begin, AllNeeds, AllArranged, Closed, InTurn;
    RequestsStart(InTurn(a, b));
    DeadlockExactlyWhenClosed(AllArranged(InTurn(a, b)), writersFirst);
    if writersFirst {
      InTurnComesRound(a, b);
    } else {
      InTurnEnds(a, b);
    }
  }

  lemma InTurnIs(a: string, b: string)
    requires Precedes(a, b)
    ensures
      var us := InTurn(a, b);
      && |us| == 3 && us[0].written == Some(b) && us[1].written == Some(a) && us[2].written == None
      && a != b && !Precedes(b, a)
      && a !in Readers(us[0]) && b !in Readers(us[0]) && a !in Readers(us[1])
      && b in Readers(us[1]) && a in Readers(us[2]) && b in Readers(us[2])
  {
    var us := InTurn(a, b);
    PrecedesIsAsymmetric(a, b);
    assert us[1].read[0] == b && us[2].read[0] == a && us[2].read[1] == b;
  }

  lemma LeadsByRead(us: seq<Wish>, i: nat, j: nat)
    requires Leads(AllArranged(us), i, j, false)
    ensures i < |us| && j < |us| && us[i].written.Some? && us[j].written.Some? && us[i].written.value in Readers(us[j])
  {
    hide Arranged, Readers;
  }

  lemma InTurnLeads(a: string, b: string, i: nat, j: nat)
    requires Precedes(a, b) && Leads(AllArranged(InTurn(a, b)), i, j, false)
    ensures i == 0 && j == 1
  {
    hide InTurn, AllArranged, Readers, Leads, Precedes;
    LeadsByRead(InTurn(a, b), i, j);
    InTurnReads(a, b, i, j);
  }

  lemma InTurnReads(a: string, b: string, i: nat, j: nat)
    requires Precedes(a, b) && i < |InTurn(a, b)| && j < |InTurn(a, b)|
    requires InTurn(a, b)[i].written.Some? && InTurn(a, b)[j].written.Some?
    requires InTurn(a, b)[i].written.value in Readers(InTurn(a, b)[j])
    ensures i == 0 && j == 1
  {
    InTurnIs(a, b);
    hide InTurn, Readers, Precedes;
  }

  lemma InTurnComesRound(a: string, b: string)
    requires Precedes(a, b)
    ensures Closed(AllArranged(InTurn(a, b)), {0, 1}, true)
  {
    InTurnIs(a, b);
    hide AllArranged, Leads, InTurn, Readers, Closed;
    RequestLeadsExactly(InTurn(a, b), 0, 1, true);
    RequestLeadsExactly(InTurn(a, b), 1, 0, true);
    TwoComeRound(AllArranged(InTurn(a, b)), 0, 1, true);
  }

  lemma InTurnEnds(a: string, b: string)
    requires Precedes(a, b)
    ensures !exists c :: Closed(AllArranged(InTurn(a, b)), c, false)
  {
    hide AllArranged, Leads, InTurn, Closed;
    if c :| Closed(AllArranged(InTurn(a, b)), c, false) {
      var i := SomeMember(AllArranged(InTurn(a, b)), c, false);
      var j := Follow(AllArranged(InTurn(a, b)), c, i, false);
      var k := Follow(AllArranged(InTurn(a, b)), c, j, false);
      InTurnLeads(a, b, i, j);
      InTurnLeads(a, b, j, k);
      assert false;
    }
  }
}
