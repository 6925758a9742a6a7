/** Updates of a user record arriving in different orders. */
module UserConvergence {
  import opened Common
  import opened UserRecord

  /** A record after a list of updates, in order of arrival. */
  function Replayed(r: Record, changes: seq<Change>): Record {
    if changes == [] then r
    else Changed(Replayed(r, changes[..|changes| - 1]), changes[|changes| - 1])
  }

  /** One register of it. */
  function RegisterAfter(r: Register, changes: seq<Change>, f: Field): Register {
    if changes == [] then r
    else Merged(RegisterAfter(r, changes[..|changes| - 1], f), changes[|changes| - 1], f)
  }

  lemma {:induction false} RegistersReplayAlone(r: Record, changes: seq<Change>, f: Field)
    ensures Replayed(r, changes).registers[f] == RegisterAfter(r.registers[f], changes, f)
  {
    if changes != [] {
      RegistersReplayAlone(r, changes[..|changes| - 1], f);
    }
  }

  /** A change that would write a register as it was at the start. */
  predicate Newer(r: Register, c: Change, f: Field) {
    f in c.fields && c.timestamp > r.updatedAt
  }

  /** The newest of the changes that name a field, if any is newer than the register. */
  predicate Newest(r: Register, changes: seq<Change>, f: Field, c: Change) {
    && c in changes && Newer(r, c, f)
    && forall d :: d in changes && f in d.fields ==> d.timestamp <= c.timestamp
  }

  /** The register ends with a newest change, or as it was when nothing newer came. */
  lemma {:induction false} NewestWins(r: Register, changes: seq<Change>, f: Field)
    ensures
      var x := RegisterAfter(r, changes, f);
      && r.updatedAt <= x.updatedAt
      && (x == r || exists c :: Newest(r, changes, f, c) && x == Register(c.data[f], c.timestamp))
      && (forall d :: d in changes && f in d.fields ==> d.timestamp <= x.updatedAt)
      && (x == r ==> forall d :: d in changes ==> !Newer(r, d, f))
  {
    if changes != [] {
      var n := |changes| - 1;
      var last := changes[n];
      NewestWins(r, changes[..n], f);
      assert changes == changes[..n] + [last];
      var y, x := RegisterAfter(r, changes[..n], f), RegisterAfter(r, changes, f);
      if x != y {
        assert Newest(r, changes, f, last);
      } else if x != r {
        var c :| Newest(r, changes[..n], f, c) && y == Register(c.data[f], c.timestamp);
        assert Newest(r, changes, f, c);
      }
    }
  }

  /** All newest changes write the same value. */
  predicate Agreed(r: Register, changes: seq<Change>, f: Field) {
    forall c, d :: c in changes && d in changes && Newest(r, changes, f, c) && Newest(r, changes, f, d) ==> c.data[f] == d.data[f]
  }

  lemma SameMembers(a: seq<Change>, b: seq<Change>)
    requires multiset(a) == multiset(b)
    ensures forall c :: c in a <==> c in b
  {
    forall c ensures c in a <==> c in b {
      assert c in a <==> c in multiset(a);
      assert c in b <==> c in multiset(b);
    }
  }

  lemma AgreedConverges(r: Register, a: seq<Change>, b: seq<Change>, f: Field)
    requires multiset(a) == multiset(b) && Agreed(r, a, f)
    ensures RegisterAfter(r, a, f) == RegisterAfter(r, b, f)
  {
    SameMembers(a, b);
    NewestWins(r, a, f);
    NewestWins(r, b, f);
    var x, y := RegisterAfter(r, a, f), RegisterAfter(r, b, f);
    if x != r {
      var c :| Newest(r, a, f, c) && x == Register(c.data[f], c.timestamp);
      var d :| Newest(r, b, f, d) && y == Register(d.data[f], d.timestamp);
      assert Newest(r, a, f, d);
    }
  }

  /** The first of the newest changes keeps its value whatever follows. */
  lemma {:induction false} FirstNewestStays(r: Register, c: Change, rest: seq<Change>, f: Field)
    requires Newer(r, c, f)
    requires forall d :: d in rest && f in d.fields ==> d.timestamp <= c.timestamp
    ensures RegisterAfter(r, [c] + rest, f) == Register(c.data[f], c.timestamp)
  {
    if rest == [] {
      assert [c] + rest == [c] && [c][..0] == [];
    } else {
      FirstNewestStays(r, c, rest[..|rest| - 1], f);
      assert ([c] + rest)[..|rest|] == [c] + rest[..|rest| - 1];
    }
  }

  /** Every order of arrival leaves a register the same, exactly when its newest changes agree. */
  lemma RegisterConvergesExactlyWhenAgreed(r: Register, changes: seq<Change>, f: Field)
    ensures (forall other | multiset(other) == multiset(changes) :: RegisterAfter(r, other, f) == RegisterAfter(r, changes, f))
            <==> Agreed(r, changes, f)
  {
    if Agreed(r, changes, f) {
      forall other | multiset(other) == multiset(changes)
        ensures RegisterAfter(r, other, f) == RegisterAfter(r, changes, f)
      {
        AgreedConverges(r, changes, other, f);
      }
    } else {
      var c, d :| c in changes && d in changes && Newest(r, changes, f, c) && Newest(r, changes, f, d) && c.data[f] != d.data[f];
      var a := PutFirst(r, changes, f, c);
      var b := PutFirst(r, changes, f, d);
    }
  }

  lemma PutFirst(r: Register, changes: seq<Change>, f: Field, c: Change) returns (other: seq<Change>)
    requires Newest(r, changes, f, c)
    ensures multiset(other) == multiset(changes)
    ensures RegisterAfter(r, other, f) == Register(c.data[f], c.timestamp)
  {
    var i :| 0 <= i < |changes| && changes[i] == c;
    var rest := changes[..i] + changes[i + 1..];
    assert changes == changes[..i] + [c] + changes[i + 1..];
    other := [c] + rest;
    forall d | d in rest ensures d in changes {}
    FirstNewestStays(r, c, rest, f);
  }

  /** No two different changes that name the same field carry the same timestamp. */
  predicate DistinctTimes(changes: seq<Change>) {
    forall c, d, f: Field :: c in changes && d in changes && f in c.fields && f in d.fields && c.timestamp == d.timestamp ==> c == d
  }

  /** With distinct timestamps, and fields named in any number and order, every register converges. */
  lemma RecordsConverge(r: Record, changes: seq<Change>, other: seq<Change>)
    requires DistinctTimes(changes) && multiset(other) == multiset(changes)
    ensures Replayed(r, other).registers == Replayed(r, changes).registers
    ensures forall f: Field :: Replayed(r, changes).registers[f] == r.registers[f]
              || exists c :: Newest(r.registers[f], changes, f, c)
                             && Replayed(r, changes).registers[f] == Register(c.data[f], c.timestamp)
  {
    hide Replayed, RegisterAfter, Newest;
    forall f: Field
      ensures Replayed(r, other).registers[f] == Replayed(r, changes).registers[f]
      ensures Replayed(r, changes).registers[f] == r.registers[f]
              || exists c :: Newest(r.registers[f], changes, f, c)
                             && Replayed(r, changes).registers[f] == Register(c.data[f], c.timestamp)
    {
      RegistersReplayAlone(r, changes, f);
      RegistersReplayAlone(r, other, f);
      DistinctTimesAgree(r.registers[f], changes, f);
      AgreedConverges(r.registers[f], changes, other, f);
      NewestWins(r.registers[f], changes, f);
    }
  }

  lemma DistinctTimesAgree(r: Register, changes: seq<Change>, f: Field)
    requires DistinctTimes(changes)
    ensures Agreed(r, changes, f)
  {
  }

  // ---------------------------------------------------------------- aggregates

  function Aggregate(r: Record, group: Group): Time {
    match group
    case AnyField => r.updatedAt.record
    case AnyPermission => r.updatedAt.permissions
    case ChannelPermissions => r.updatedAt.channel
    case UserPermissions => r.updatedAt.user
  }

  lemma AggregateOfChanged(r: Record, c: Change, group: Group)
    ensures Aggregate(Changed(r, c), group) == if Touches(r.registers, c, group) then c.timestamp else Aggregate(r, group)
  {
  }

  /** A newest change of some field of a group. */
  predicate NewestIn(r: Record, changes: seq<Change>, group: Group, f: Field, c: Change) {
    Member(f, group) && Newest(r.registers[f], changes, f, c)
  }

  /** An aggregate ends with the time of a newest change of some field of its group, or as it was when
      nothing newer came for any of them. */
  lemma {:induction false} AggregateIsOfNewest(r: Record, changes: seq<Change>, group: Group)
    returns (touched: bool, f: Field, c: Change)
    ensures touched ==> NewestIn(r, changes, group, f, c) && Aggregate(Replayed(r, changes), group) == c.timestamp
    ensures !touched ==> Aggregate(Replayed(r, changes), group) == Aggregate(r, group)
    ensures !touched ==> forall g :: Member(g, group) ==> RegisterAfter(r.registers[g], changes, g) == r.registers[g]
  {
    if changes == [] {
      touched, f, c := false, Active, Change(r.id, [], map g: Field :: r.registers[g].value, ZERO_TIME);
    } else {
      var n := |changes| - 1;
      touched, f, c := AggregateIsOfNewest(r, changes[..n], group);
      AggregateOfChanged(Replayed(r, changes[..n]), changes[n], group);
      hide Changed, Replayed;
      if Touches(Replayed(r, changes[..n]).registers, changes[n], group) {
        touched, c := true, changes[n];
        f := LastIsNewest(r, changes, group);
      } else if touched {
        NewestStays(r, changes, group, f, c);
      } else {
        forall g | Member(g, group) ensures RegisterAfter(r.registers[g], changes, g) == r.registers[g] {
          RegisterStays(r, changes, group, g);
        }
      }
    }
  }

  lemma LastIsNewest(r: Record, changes: seq<Change>, group: Group) returns (f: Field)
    requires changes != [] && Touches(Replayed(r, changes[..|changes| - 1]).registers, changes[|changes| - 1], group)
    ensures NewestIn(r, changes, group, f, changes[|changes| - 1])
  {
    var front, last := changes[..|changes| - 1], changes[|changes| - 1];
    f :| f in last.fields && Member(f, group) && last.timestamp > Replayed(r, front).registers[f].updatedAt;
    RegistersReplayAlone(r, front, f);
    NewestWins(r.registers[f], front, f);
    assert changes == front + [last];
  }

  lemma NewestStays(r: Record, changes: seq<Change>, group: Group, f: Field, c: Change)
    requires changes != [] && !Touches(Replayed(r, changes[..|changes| - 1]).registers, changes[|changes| - 1], group)
    requires NewestIn(r, changes[..|changes| - 1], group, f, c)
    ensures NewestIn(r, changes, group, f, c)
  {
    var front, last := changes[..|changes| - 1], changes[|changes| - 1];
    assert changes == front + [last];
    RegistersReplayAlone(r, front, f);
    NewestWins(r.registers[f], front, f);
    hide Replayed, RegisterAfter;
  }

  lemma RegisterStays(r: Record, changes: seq<Change>, group: Group, f: Field)
    requires changes != [] && !Touches(Replayed(r, changes[..|changes| - 1]).registers, changes[|changes| - 1], group)
    requires Member(f, group)
    ensures RegisterAfter(r.registers[f], changes, f) == RegisterAfter(r.registers[f], changes[..|changes| - 1], f)
  {
    hide Replayed;
    RegistersReplayAlone(r, changes[..|changes| - 1], f);
  }

  // Changes at one time, and all others, in order.
  function Others(changes: seq<Change>, t: Time): (r: seq<Change>)
    ensures forall c :: c in r ==> c.timestamp != t
  {
    if changes == [] then []
    else Others(changes[..|changes| - 1], t) + (if changes[|changes| - 1].timestamp != t then [changes[|changes| - 1]] else [])
  }

  function StampedAt(changes: seq<Change>, t: Time): (r: seq<Change>)
    ensures forall c :: c in r ==> c.timestamp == t
  {
    if changes == [] then []
    else StampedAt(changes[..|changes| - 1], t) + (if changes[|changes| - 1].timestamp == t then [changes[|changes| - 1]] else [])
  }

  lemma {:induction false} Partitioned(changes: seq<Change>, t: Time)
    ensures multiset(Others(changes, t)) + multiset(StampedAt(changes, t)) == multiset(changes)
  {
    if changes != [] {
      Partitioned(changes[..|changes| - 1], t);
      assert changes == changes[..|changes| - 1] + [changes[|changes| - 1]];
    }
  }

  lemma PartitionedMembers(changes: seq<Change>, t: Time, c: Change)
    ensures c in Others(changes, t) <==> c in changes && c.timestamp != t
    ensures c in StampedAt(changes, t) <==> c in changes && c.timestamp == t
  {
    Partitioned(changes, t);
    hide Others, StampedAt;
    var a, b := Others(changes, t), StampedAt(changes, t);
    assert c in changes <==> c in multiset(changes);
    assert c in a <==> c in multiset(a);
    assert c in b <==> c in multiset(b);
  }

  lemma {:induction false} ReplayedSplits(r: Record, a: seq<Change>, b: seq<Change>)
    ensures Replayed(r, a + b) == Replayed(Replayed(r, a), b)
  {
    if b == [] {
      assert a + b == a;
    } else {
      assert (a + b)[..|a + b| - 1] == a + b[..|b| - 1];
      ReplayedSplits(r, a, b[..|b| - 1]);
    }
  }

  lemma OthersAreOlder(r: Register, changes: seq<Change>, f: Field, c: Change)
    requires Newest(r, changes, f, c)
    ensures Newer(RegisterAfter(r, Others(changes, c.timestamp), f), c, f)
  {
    var a := Others(changes, c.timestamp);
    NewestWins(r, a, f);
    hide RegisterAfter, Others;
    if d :| Newest(r, a, f, d) && RegisterAfter(r, a, f) == Register(d.data[f], d.timestamp) {
      PartitionedMembers(changes, c.timestamp, d);
    }
  }

  lemma OneTimeRemains(r: Record, changes: seq<Change>, group: Group, f: Field, c: Change)
    requires Member(f, group) && c in changes && Newer(r.registers[f], c, f)
    requires forall d :: d in changes ==> d.timestamp == c.timestamp
    ensures Aggregate(Replayed(r, changes), group) == c.timestamp
  {
    var touched, g, d := AggregateIsOfNewest(r, changes, group);
    NewestWins(r.registers[f], changes, f);
    hide Replayed, RegisterAfter;
  }

  /** Some order of arrival leaves an aggregate at the time of a given newest change: all of that time last. */
  lemma PutLast(r: Record, changes: seq<Change>, group: Group, f: Field, c: Change) returns (other: seq<Change>)
    requires NewestIn(r, changes, group, f, c)
    ensures multiset(other) == multiset(changes) && Aggregate(Replayed(r, other), group) == c.timestamp
  {
    hide Replayed, RegisterAfter, Others, StampedAt, Aggregate, Newer, Member;
    var a, b := Others(changes, c.timestamp), StampedAt(changes, c.timestamp);
    Partitioned(changes, c.timestamp);
    PartitionedMembers(changes, c.timestamp, c);
    other := a + b;
    ReplayedSplits(r, a, b);
    RegistersReplayAlone(r, a, f);
    OthersAreOlder(r.registers[f], changes, f, c);
    OneTimeRemains(Replayed(r, a), b, group, f, c);
  }

  /** All newest changes of fields of a group carry one time. */
  predicate OneTime(r: Record, changes: seq<Change>, group: Group) {
    forall c, d, f, g :: c in changes && d in changes && NewestIn(r, changes, group, f, c) && NewestIn(r, changes, group, g, d)
      ==> c.timestamp == d.timestamp
  }

  lemma SameNewest(r: Record, a: seq<Change>, b: seq<Change>, group: Group)
    requires multiset(a) == multiset(b)
    ensures forall f, c :: NewestIn(r, a, group, f, c) <==> NewestIn(r, b, group, f, c)
  {
    SameMembers(a, b);
  }

  /** The timestamps of the record and of its groups of permissions follow the order of arrival: each is
      the same in every order exactly when all newest changes of fields it covers carry one time. */
  lemma AggregateConvergesExactly(r: Record, changes: seq<Change>, group: Group)
    ensures
      (forall other | multiset(other) == multiset(changes) ::
         Aggregate(Replayed(r, other), group) == Aggregate(Replayed(r, changes), group))
      <==> OneTime(r, changes, group)
  {
    if OneTime(r, changes, group) {
      forall other | multiset(other) == multiset(changes)
        ensures Aggregate(Replayed(r, other), group) == Aggregate(Replayed(r, changes), group)
      {
        OneTimeConverges(r, changes, other, group);
      }
    } else {
      var c, d, f, g :| c in changes && d in changes && NewestIn(r, changes, group, f, c) && NewestIn(r, changes, group, g, d)
                        && c.timestamp != d.timestamp;
      var a := PutLast(r, changes, group, f, c);
      var b := PutLast(r, changes, group, g, d);
    }
  }

  lemma OneTimeConverges(r: Record, changes: seq<Change>, other: seq<Change>, group: Group)
    requires multiset(other) == multiset(changes) && OneTime(r, changes, group)
    ensures Aggregate(Replayed(r, other), group) == Aggregate(Replayed(r, changes), group)
  {
    SameNewest(r, changes, other, group);
    var touched, f, c := AggregateIsOfNewest(r, changes, group);
    var touched', f', c' := AggregateIsOfNewest(r, other, group);
    hide Replayed, RegisterAfter, Aggregate;
    if touched {
      NewestWins(r.registers[f], other, f);
      assert NewestIn(r, other, group, f, c);
    }
    if touched' {
      NewestWins(r.registers[f'], changes, f');
      assert NewestIn(r, changes, group, f', c');
    }
  }

  lemma ReplayedTwo(r: Record, c: Change, d: Change)
    ensures Replayed(r, [c, d]) == Changed(Changed(r, c), d)
  {
    assert [c, d][..1] == [c] && [c][..0] == [];
    assert Replayed(r, [c]) == Changed(r, c);
  }

  /** Two updates of different fields: the record's timestamp goes backwards in one of the two orders. */
  lemma AggregatesDiverge(r: Record, data: Values, t: Time)
    requires r.registers == Blank() && t > ZERO_TIME
    ensures
      var older, newer := Change(r.id, [UserAdd], data, t), Change(r.id, [Active], data, t + 1);
      && Aggregate(Replayed(r, [older, newer]), AnyField) == t + 1
      && Aggregate(Replayed(r, [newer, older]), AnyField) == t
  {
    var older, newer := Change(r.id, [UserAdd], data, t), Change(r.id, [Active], data, t + 1);
    ReplayedTwo(r, older, newer);
    ReplayedTwo(r, newer, older);
    TouchesAfter(r, older, newer, Active);
    TouchesAfter(r, newer, older, UserAdd);
    AggregateOfChanged(Changed(r, older), newer, AnyField);
    AggregateOfChanged(Changed(r, newer), older, AnyField);
  }

  lemma TouchesAfter(r: Record, first: Change, second: Change, f: Field)
    requires f in second.fields && f !in first.fields && second.timestamp > r.registers[f].updatedAt
    ensures Touches(Changed(r, first).registers, second, AnyField)
  {
    assert Member(f, AnyField) && Changed(r, first).registers[f] == r.registers[f];
  }
}
