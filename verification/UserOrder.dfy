/** Requests to the users daemon arriving in different orders. */
module UserOrder {
  import opened Common
  import opened LockNeeds
  import opened UserRecord
  import opened UserConvergence
  import opened UserServer

  predicate AllChecked(rqs: seq<Request>) {
    forall i :: 0 <= i < |rqs| ==> Checked(rqs[i])
  }

  /** The store after a list of requests, in order of arrival. */
  function StoreRun(store: Store, rqs: seq<Request>): Store
    requires AllChecked(rqs)
  {
    if rqs == [] then store
    else
      assert Checked(rqs[|rqs| - 1]) && AllChecked(rqs[..|rqs| - 1]);
      StoreAfter(StoreRun(store, rqs[..|rqs| - 1]), rqs[|rqs| - 1])
  }

  predicate IsUpdate(rq: Request) {
    Checked(rq) && rq.kind.UpdateRequest?
  }

  predicate AllUpdates(rqs: seq<Request>) {
    AllChecked(rqs) && forall i :: 0 <= i < |rqs| ==> IsUpdate(rqs[i])
  }

  /** Whether an update finds its signers and its user, and is granted. */
  predicate Accepted(store: Store, rq: Request)
    requires IsUpdate(rq)
  {
    && SignerIds(rq) <= store.Keys && rq.change.id in store
    && (rq.skipPermissions || Permitted(store[rq.signers.value.certifierId], rq))
  }

  lemma UpdateAfter(store: Store, rq: Request)
    requires IsUpdate(rq)
    ensures Answer(store, rq) == Success <==> Accepted(store, rq)
    ensures StoreAfter(store, rq)
            == if Accepted(store, rq) then store[rq.change.id := Changed(store[rq.change.id], rq.change)] else store
  {
    var needs := TakenNeeds(rq);
    assert needs == SignerNeeds(rq) + [Need(Write, rq.change.id)];
    assert needs[|needs| - 1] in needs;
    assert !rq.skipPermissions ==> SignerNeeds(rq)[0] in needs && SignerNeeds(rq)[1] in needs;
    hide Permitted, Changed;
  }

  // ---------------------------------------------------------------- updates of stored users

  /** The changes of one user that are granted when their turn comes. */
  function GrantedIn(store: Store, rqs: seq<Request>, id: string): seq<Change>
    requires AllUpdates(rqs)
  {
    if rqs == [] then []
    else
      var front, last := rqs[..|rqs| - 1], rqs[|rqs| - 1];
      GrantedIn(store, front, id)
      + (if last.change.id == id && Accepted(StoreRun(store, front), last) then [last.change] else [])
  }

  lemma {:induction false} RunReplays(store: Store, rqs: seq<Request>, id: string)
    requires AllUpdates(rqs) && id in store
    ensures StoreRun(store, rqs).Keys == store.Keys
    ensures StoreRun(store, rqs)[id] == Replayed(store[id], GrantedIn(store, rqs, id))
  {
    if rqs != [] {
      var front, last := rqs[..|rqs| - 1], rqs[|rqs| - 1];
      RunReplays(store, front, id);
      hide StoreAfter, Accepted, Changed, Replayed;
      UpdateAfter(StoreRun(store, front), last);
      ReplayedMore(store[id], GrantedIn(store, front, id), last.change);
      assert GrantedIn(store, front, id) + [] == GrantedIn(store, front, id);
    }
  }

  lemma ReplayedMore(r: Record, changes: seq<Change>, c: Change)
    ensures Replayed(r, changes + [c]) == Changed(Replayed(r, changes), c)
  {
    hide Changed;
    assert (changes + [c])[..|changes|] == changes;
  }

  /** The permissions that decide whether an update is granted. */
  predicate Decisive(f: Field) {
    f.UserRemove? || f.EncKeyUpdate? || f.SignKeyUpdate? || f.PermissionsUpdate?
  }

  predicate NamesDecisive(c: Change) {
    exists f :: f in c.fields && Decisive(f)
  }

  /** Whether an update leaves the say of another one's certifier alone. */
  predicate LeavesCertifierOf(rq: Request, update: Request)
    requires Checked(rq)
  {
    !rq.skipPermissions && update.change.id == rq.signers.value.certifierId ==> !NamesDecisive(update.change)
  }

  /** No update changes the say of a user who certifies one of them. */
  predicate LeavesCertifiers(rqs: seq<Request>)
    requires AllUpdates(rqs)
  {
    forall i, j :: 0 <= i < |rqs| && 0 <= j < |rqs| ==> LeavesCertifierOf(rqs[i], rqs[j])
  }

  /** The changes of one user that a store accepts, in the order they are listed. */
  function ChangesFor(store: Store, rqs: seq<Request>, id: string): seq<Change>
    requires AllUpdates(rqs)
  {
    if rqs == [] then []
    else
      var n := |rqs| - 1;
      ChangesFor(store, rqs[..n], id)
      + (if rqs[n].change.id == id && Accepted(store, rqs[n]) then [rqs[n].change] else [])
  }

  /** Two stores that give a user the same say. */
  predicate SameSay(store: Store, later: Store, id: string) {
    && (id in store <==> id in later)
    && (id in store ==> store[id].id == later[id].id && forall f: Field :: Decisive(f) ==> store[id].registers[f] == later[id].registers[f])
  }

  lemma {:induction false} SayStays(store: Store, rqs: seq<Request>, id: string)
    requires AllUpdates(rqs) && forall i :: 0 <= i < |rqs| && rqs[i].change.id == id ==> !NamesDecisive(rqs[i].change)
    ensures StoreRun(store, rqs).Keys == store.Keys && SameSay(store, StoreRun(store, rqs), id)
  {
    if rqs != [] {
      var n := |rqs| - 1;
      SayStays(store, rqs[..n], id);
      UpdateAfter(StoreRun(store, rqs[..n]), rqs[n]);
      hide StoreAfter, Accepted;
    }
  }

  /** Whether an update is granted depends on the say of its certifier only. */
  lemma AcceptedAlike(store: Store, later: Store, rq: Request)
    requires IsUpdate(rq) && store.Keys == later.Keys
    requires !rq.skipPermissions ==> SameSay(store, later, rq.signers.value.certifierId)
    ensures Accepted(later, rq) == Accepted(store, rq)
  {
    if !rq.skipPermissions && rq.signers.value.certifierId in store {
      var a, b := store[rq.signers.value.certifierId], later[rq.signers.value.certifierId];
      forall f | f in rq.change.fields ensures MayChange(a, rq.change, f) == MayChange(b, rq.change, f) {
      }
    }
  }

  /** Verified or not: as long as no update changes the say of a certifier, every user ends as replayed from
      the changes that were granted at the start. */
  lemma UpdatesReplay(store: Store, rqs: seq<Request>, id: string)
    requires AllUpdates(rqs) && LeavesCertifiers(rqs) && id in store
    ensures StoreRun(store, rqs).Keys == store.Keys
    ensures StoreRun(store, rqs)[id] == Replayed(store[id], ChangesFor(store, rqs, id))
  {
    RunReplays(store, rqs, id);
    GrantedAtStart(store, rqs, id);
  }

  /** Then what is granted at the start is granted when its turn comes. */
  lemma {:induction false} GrantedAtStart(store: Store, rqs: seq<Request>, id: string)
    requires AllUpdates(rqs) && LeavesCertifiers(rqs)
    ensures GrantedIn(store, rqs, id) == ChangesFor(store, rqs, id)
  {
    if rqs != [] {
      LastAcceptedAlike(store, rqs);
      GrantedAtStart(store, rqs[..|rqs| - 1], id);
      hide Accepted, StoreRun;
    }
  }

  lemma LastAcceptedAlike(store: Store, rqs: seq<Request>)
    requires AllUpdates(rqs) && LeavesCertifiers(rqs) && rqs != []
    ensures Accepted(StoreRun(store, rqs[..|rqs| - 1]), rqs[|rqs| - 1]) == Accepted(store, rqs[|rqs| - 1])
  {
    var n := |rqs| - 1;
    if !rqs[n].skipPermissions {
      SayStays(store, rqs[..n], rqs[n].signers.value.certifierId);
    } else {
      KeysStay(store, rqs[..n]);
    }
    hide StoreRun, Accepted;
    AcceptedAlike(store, StoreRun(store, rqs[..n]), rqs[n]);
  }

  lemma {:induction false} KeysStay(store: Store, rqs: seq<Request>)
    requires AllUpdates(rqs)
    ensures StoreRun(store, rqs).Keys == store.Keys
  {
    if rqs != [] {
      KeysStay(store, rqs[..|rqs| - 1]);
      UpdateAfter(StoreRun(store, rqs[..|rqs| - 1]), rqs[|rqs| - 1]);
      hide StoreAfter, Accepted;
    }
  }

  lemma {:induction false} ChangesAdd(store: Store, a: seq<Request>, b: seq<Request>, id: string)
    requires AllUpdates(a) && AllUpdates(b)
    ensures AllUpdates(a + b) && ChangesFor(store, a + b, id) == ChangesFor(store, a, id) + ChangesFor(store, b, id)
  {
    hide Accepted;
    if b == [] {
      assert a + b == a;
    } else {
      assert (a + b)[..|a + b| - 1] == a + b[..|b| - 1];
      ChangesAdd(store, a, b[..|b| - 1], id);
    }
  }

  /** A list without one occurrence of a request. */
  lemma TakeOut(store: Store, rqs: seq<Request>, rq: Request, id: string) returns (rest: seq<Request>)
    requires AllUpdates(rqs) && rq in multiset(rqs)
    ensures AllUpdates(rest) && AllUpdates([rq]) && multiset(rest) == multiset(rqs) - multiset{rq} && |rest| == |rqs| - 1
    ensures multiset(ChangesFor(store, rqs, id)) == multiset(ChangesFor(store, rest, id)) + multiset(ChangesFor(store, [rq], id))
  {
    hide ChangesFor;
    var i :| 0 <= i < |rqs| && rqs[i] == rq;
    rest := rqs[..i] + rqs[i + 1..];
    assert rqs == rqs[..i] + [rq] + rqs[i + 1..];
    ChangesWithout(store, rqs[..i], rq, rqs[i + 1..], id);
  }

  lemma ChangesWithout(store: Store, a: seq<Request>, rq: Request, b: seq<Request>, id: string)
    requires AllUpdates(a) && AllUpdates([rq]) && AllUpdates(b)
    ensures AllUpdates(a + b) && AllUpdates(a + [rq] + b)
    ensures multiset(ChangesFor(store, a + [rq] + b, id)) == multiset(ChangesFor(store, a + b, id)) + multiset(ChangesFor(store, [rq], id))
  {
    hide ChangesFor, AllUpdates;
    ChangesAdd(store, a, [rq], id);
    ChangesAdd(store, a + [rq], b, id);
    ChangesAdd(store, a, b, id);
  }

  lemma {:induction false} ChangesIgnoreOrder(store: Store, a: seq<Request>, b: seq<Request>, id: string)
    requires AllUpdates(a) && AllUpdates(b) && multiset(a) == multiset(b)
    ensures multiset(ChangesFor(store, a, id)) == multiset(ChangesFor(store, b, id))
    decreases |a|
  {
    if a == [] {
      assert |multiset(b)| == |b|;
    } else {
      assert a[0] in multiset(a);
      var rest := TakeOut(store, a, a[0], id);
      var others := TakeOut(store, b, a[0], id);
      hide ChangesFor;
      ChangesIgnoreOrder(store, rest, others, id);
    }
  }

  lemma SameUpdates(rqs: seq<Request>, other: seq<Request>)
    requires AllUpdates(rqs) && multiset(other) == multiset(rqs)
    ensures AllUpdates(other) && (LeavesCertifiers(rqs) ==> LeavesCertifiers(other))
  {
    forall rq | rq in other ensures rq in rqs {
      assert rq in multiset(other);
    }
    forall i | 0 <= i < |other| ensures IsUpdate(other[i]) {
      assert other[i] in other;
    }
    if LeavesCertifiers(rqs) {
      forall i, j | 0 <= i < |other| && 0 <= j < |other| ensures LeavesCertifierOf(other[i], other[j]) {
        assert other[i] in other && other[j] in other;
        var k :| 0 <= k < |rqs| && rqs[k] == other[i];
        var l :| 0 <= l < |rqs| && rqs[l] == other[j];
        assert LeavesCertifierOf(rqs[k], rqs[l]);
      }
    }
  }

  /** Updates of any number of stored users, verified or not, leave every register of every user the same in every
      order, if none changes the say of a user who certifies one of them, and those granted for one user that
      name the same field carry different times. */
  lemma UpdatesConverge(store: Store, rqs: seq<Request>, other: seq<Request>, id: string)
    requires AllUpdates(rqs) && LeavesCertifiers(rqs) && multiset(other) == multiset(rqs) && id in store
    requires DistinctTimes(ChangesFor(store, rqs, id))
    ensures AllUpdates(other) && StoreRun(store, other).Keys == StoreRun(store, rqs).Keys == store.Keys
    ensures StoreRun(store, other)[id].registers == StoreRun(store, rqs)[id].registers
  {
    SameUpdates(rqs, other);
    ChangesIgnoreOrder(store, rqs, other, id);
    UpdatesReplay(store, rqs, id);
    UpdatesReplay(store, other, id);
    hide StoreRun, Replayed, AllUpdates, LeavesCertifiers;
    RecordsConverge(store[id], ChangesFor(store, rqs, id), ChangesFor(store, other, id));
  }

  lemma {:induction false} ChangeComesFrom(store: Store, rqs: seq<Request>, id: string, c: Change) returns (k: nat)
    requires AllUpdates(rqs) && c in ChangesFor(store, rqs, id)
    ensures k < |rqs| && rqs[k].change == c && c.id == id && Accepted(store, rqs[k])
  {
    hide Accepted;
    var n := |rqs| - 1;
    if c in ChangesFor(store, rqs[..n], id) {
      k := ChangeComesFrom(store, rqs[..n], id, c);
    } else {
      k := n;
    }
  }

  /** Some order brings a given granted change before all others. */
  lemma BroughtFirst(store: Store, rqs: seq<Request>, id: string, c: Change) returns (other: seq<Request>, rest: seq<Change>)
    requires AllUpdates(rqs) && c in ChangesFor(store, rqs, id)
    ensures AllUpdates(other) && multiset(other) == multiset(rqs) && ChangesFor(store, other, id) == [c] + rest
    ensures multiset([c] + rest) == multiset(ChangesFor(store, rqs, id))
  {
    var k := ChangeComesFrom(store, rqs, id, c);
    var left := rqs[..k] + rqs[k + 1..];
    assert rqs == rqs[..k] + [rqs[k]] + rqs[k + 1..];
    other := [rqs[k]] + left;
    rest := ChangesFor(store, left, id);
    ChangesAdd(store, [rqs[k]], left, id);
    OneChange(store, rqs[k], id);
    hide ChangesFor, Accepted;
    ChangesIgnoreOrder(store, other, rqs, id);
  }

  lemma OneChange(store: Store, rq: Request, id: string)
    requires IsUpdate(rq) && Accepted(store, rq) && rq.change.id == id
    ensures AllUpdates([rq]) && ChangesFor(store, [rq], id) == [rq.change]
  {
    hide Accepted;
    assert [rq][..0] == [];
  }

  lemma RegisterReplays(store: Store, rqs: seq<Request>, id: string, f: Field)
    requires AllUpdates(rqs) && LeavesCertifiers(rqs) && id in store
    ensures id in StoreRun(store, rqs)
    ensures StoreRun(store, rqs)[id].registers[f] == RegisterAfter(store[id].registers[f], ChangesFor(store, rqs, id), f)
  {
    UpdatesReplay(store, rqs, id);
    RegistersReplayAlone(store[id], ChangesFor(store, rqs, id), f);
    hide StoreRun, Replayed, RegisterAfter, ChangesFor;
  }

  lemma AgreedUpdatesConverge(store: Store, rqs: seq<Request>, other: seq<Request>, id: string, f: Field)
    requires AllUpdates(rqs) && LeavesCertifiers(rqs) && AllUpdates(other) && multiset(other) == multiset(rqs) && id in store
    requires Agreed(store[id].registers[f], ChangesFor(store, rqs, id), f)
    ensures id in StoreRun(store, rqs) && id in StoreRun(store, other)
    ensures StoreRun(store, other)[id].registers[f] == StoreRun(store, rqs)[id].registers[f]
  {
    SameUpdates(rqs, other);
    ChangesIgnoreOrder(store, rqs, other, id);
    RegisterReplays(store, rqs, id, f);
    RegisterReplays(store, other, id, f);
    hide StoreRun, RegisterAfter, ChangesFor, AllUpdates, LeavesCertifiers, Agreed;
    AgreedConverges(store[id].registers[f], ChangesFor(store, rqs, id), ChangesFor(store, other, id), f);
  }

  lemma SomeOrderKeeps(store: Store, rqs: seq<Request>, id: string, f: Field, c: Change) returns (other: seq<Request>)
    requires AllUpdates(rqs) && LeavesCertifiers(rqs) && id in store
    requires Newest(store[id].registers[f], ChangesFor(store, rqs, id), f, c)
    ensures AllUpdates(other) && multiset(other) == multiset(rqs) && id in StoreRun(store, other)
    ensures StoreRun(store, other)[id].registers[f] == Register(c.data[f], c.timestamp)
  {
    var rest;
    other, rest := BroughtFirst(store, rqs, id, c);
    SameUpdates(rqs, other);
    RegisterReplays(store, other, id, f);
    SameMembers([c] + rest, ChangesFor(store, rqs, id));
    hide StoreRun, RegisterAfter, ChangesFor, AllUpdates, LeavesCertifiers;
    forall d | d in rest && f in d.fields ensures d.timestamp <= c.timestamp {
      assert d in [c] + rest;
    }
    FirstNewestStays(store[id].registers[f], c, rest, f);
  }

  /** Every order of such a list leaves a register the same, exactly when the newest of the changes that were
      granted at the start agree on it. */
  lemma UpdatesConvergeExactly(store: Store, rqs: seq<Request>, id: string, f: Field)
    requires AllUpdates(rqs) && LeavesCertifiers(rqs) && id in store
    ensures id in StoreRun(store, rqs)
    ensures (forall other | multiset(other) == multiset(rqs) && AllUpdates(other) ::
               id in StoreRun(store, other) && StoreRun(store, other)[id].registers[f] == StoreRun(store, rqs)[id].registers[f])
            <==> Agreed(store[id].registers[f], ChangesFor(store, rqs, id), f)
  {
    RegisterReplays(store, rqs, id, f);
    hide StoreRun, RegisterAfter, ChangesFor, LeavesCertifiers, Newest;
    if Agreed(store[id].registers[f], ChangesFor(store, rqs, id), f) {
      forall other | multiset(other) == multiset(rqs) && AllUpdates(other)
        ensures id in StoreRun(store, other) && StoreRun(store, other)[id].registers[f] == StoreRun(store, rqs)[id].registers[f]
      {
        AgreedUpdatesConverge(store, rqs, other, id, f);
      }
    } else {
      var changes := ChangesFor(store, rqs, id);
      var c, d :| c in changes && d in changes && Newest(store[id].registers[f], changes, f, c)
                  && Newest(store[id].registers[f], changes, f, d) && c.data[f] != d.data[f];
      var one := SomeOrderKeeps(store, rqs, id, f, c);
      var two := SomeOrderKeeps(store, rqs, id, f, d);
    }
  }

  // ---------------------------------------------------------------- any updates, in any order

  predicate IsOrder(rqs: seq<Request>, order: seq<Request>) {
    AllUpdates(order) && multiset(order) == multiset(rqs)
  }

  function RegisterIn(store: Store, order: seq<Request>, id: string, f: Field): Register
    requires AllUpdates(order) && id in store
  {
    RegisterAfter(store[id].registers[f], GrantedIn(store, order, id), f)
  }

  lemma RegisterInRun(store: Store, order: seq<Request>, id: string, f: Field)
    requires AllUpdates(order) && id in store
    ensures id in StoreRun(store, order) && StoreRun(store, order)[id].registers[f] == RegisterIn(store, order, id, f)
  {
    RunReplays(store, order, id);
    RegistersReplayAlone(store[id], GrantedIn(store, order, id), f);
    hide StoreRun, Replayed, RegisterAfter, GrantedIn;
  }

  /** For whatever is granted in one order, and is newer than the register, another order grants something at
      least as new. */
  predicate Covers(store: Store, a: seq<Request>, b: seq<Request>, id: string, f: Field)
    requires AllUpdates(a) && AllUpdates(b) && id in store
  {
    forall c :: c in GrantedIn(store, a, id) && Newer(store[id].registers[f], c, f) ==>
      exists d :: d in GrantedIn(store, b, id) && f in d.fields && d.timestamp >= c.timestamp
  }

  lemma CoversExactly(store: Store, a: seq<Request>, b: seq<Request>, id: string, f: Field)
    requires AllUpdates(a) && AllUpdates(b) && id in store
    ensures Covers(store, a, b, id, f) <==> RegisterIn(store, a, id, f).updatedAt <= RegisterIn(store, b, id, f).updatedAt
  {
    var r, x, y := store[id].registers[f], GrantedIn(store, a, id), GrantedIn(store, b, id);
    NewestWins(r, x, f);
    NewestWins(r, y, f);
    hide RegisterAfter, GrantedIn;
    if RegisterAfter(r, y, f) != r {
      var d :| Newest(r, y, f, d) && RegisterAfter(r, y, f) == Register(d.data[f], d.timestamp);
      assert d in y && f in d.fields;
    }
  }

  /** Any updates of stored users: every order leaves a register with the same time, exactly when every order
      grants something at least as new as whatever any order grants. */
  lemma AnyTimesConvergeExactly(store: Store, rqs: seq<Request>, id: string, f: Field)
    requires AllUpdates(rqs) && id in store
    ensures
      (forall a, b | IsOrder(rqs, a) && IsOrder(rqs, b) :: Covers(store, a, b, id, f))
      <==> forall a, b | IsOrder(rqs, a) && IsOrder(rqs, b) ::
             RegisterIn(store, a, id, f).updatedAt == RegisterIn(store, b, id, f).updatedAt
  {
    hide IsOrder, Covers, RegisterIn;
    forall a, b | IsOrder(rqs, a) && IsOrder(rqs, b)
      ensures AllUpdates(a) && AllUpdates(b)
      ensures Covers(store, a, b, id, f) <==> RegisterIn(store, a, id, f).updatedAt <= RegisterIn(store, b, id, f).updatedAt
    {
      OrdersAreUpdates(rqs, a);
      OrdersAreUpdates(rqs, b);
      CoversExactly(store, a, b, id, f);
    }
  }

  lemma OrdersAreUpdates(rqs: seq<Request>, order: seq<Request>)
    requires IsOrder(rqs, order)
    ensures AllUpdates(order)
  {
  }

  /** No two different changes of one field of a user carry the same time. */
  predicate DistinctRequests(rqs: seq<Request>, id: string, f: Field) {
    forall a, b :: a in rqs && b in rqs && Writes(a, id, f) && Writes(b, id, f) ==>
      a.change.timestamp == b.change.timestamp ==> a.change == b.change
  }

  predicate Writes(rq: Request, id: string, f: Field) {
    rq.change.id == id && f in rq.change.fields
  }

  lemma {:induction false} GrantedComesFrom(store: Store, rqs: seq<Request>, id: string, c: Change) returns (rq: Request)
    requires AllUpdates(rqs) && c in GrantedIn(store, rqs, id)
    ensures rq in rqs && rq.change == c && c.id == id
  {
    hide Accepted, StoreRun;
    var front, last := rqs[..|rqs| - 1], rqs[|rqs| - 1];
    if c in GrantedIn(store, front, id) {
      rq := GrantedComesFrom(store, front, id, c);
    } else {
      rq := last;
    }
  }

  /** The register is as it was, or as some request of the list wrote it, later than it was. */
  lemma WrittenBy(store: Store, rqs: seq<Request>, order: seq<Request>, id: string, f: Field) returns (stays: bool, rq: Request)
    requires IsOrder(rqs, order) && id in store
    ensures stays ==> RegisterIn(store, order, id, f) == store[id].registers[f]
    ensures !stays ==>
              && rq in rqs && rq.change.id == id && f in rq.change.fields && rq.change.timestamp > store[id].registers[f].updatedAt
              && RegisterIn(store, order, id, f) == Register(rq.change.data[f], rq.change.timestamp)
  {
    var r, changes := store[id].registers[f], GrantedIn(store, order, id);
    NewestWins(r, changes, f);
    stays := RegisterAfter(r, changes, f) == r;
    rq := Setting(id, f, 0, "");
    hide RegisterAfter, GrantedIn;
    if !stays {
      var c :| Newest(r, changes, f, c) && RegisterAfter(r, changes, f) == Register(c.data[f], c.timestamp);
      rq := GrantedComesFrom(store, order, id, c);
      assert rq in multiset(order);
    }
  }

  lemma SameTimeSameRegister(store: Store, rqs: seq<Request>, a: seq<Request>, b: seq<Request>, id: string, f: Field)
    requires IsOrder(rqs, a) && IsOrder(rqs, b) && id in store && DistinctRequests(rqs, id, f)
    ensures RegisterIn(store, a, id, f).updatedAt == RegisterIn(store, b, id, f).updatedAt
            ==> RegisterIn(store, a, id, f) == RegisterIn(store, b, id, f)
  {
    hide RegisterIn;
    var x, p := WrittenBy(store, rqs, a, id, f);
    var y, q := WrittenBy(store, rqs, b, id, f);
  }

  /** Any updates of stored users, verified or not, whatever they change: every order leaves a register the same,
      exactly when every order grants something at least as new as whatever any order grants, if changes of one
      field differ in time. */
  lemma AnyUpdatesConvergeExactly(store: Store, rqs: seq<Request>, id: string, f: Field)
    requires AllUpdates(rqs) && id in store && DistinctRequests(rqs, id, f)
    ensures
      (forall a, b | IsOrder(rqs, a) && IsOrder(rqs, b) :: RegisterIn(store, a, id, f) == RegisterIn(store, b, id, f))
      <==> forall a, b | IsOrder(rqs, a) && IsOrder(rqs, b) :: Covers(store, a, b, id, f)
  {
    AnyTimesConvergeExactly(store, rqs, id, f);
    hide IsOrder, Covers, RegisterIn, DistinctRequests;
    forall a, b | IsOrder(rqs, a) && IsOrder(rqs, b)
      ensures AllUpdates(a) && AllUpdates(b)
      ensures RegisterIn(store, a, id, f).updatedAt == RegisterIn(store, b, id, f).updatedAt
              ==> RegisterIn(store, a, id, f) == RegisterIn(store, b, id, f)
    {
      OrdersAreUpdates(rqs, a);
      OrdersAreUpdates(rqs, b);
      SameTimeSameRegister(store, rqs, a, b, id, f);
    }
  }

  // ---------------------------------------------------------------- two updates

  lemma RunTwo(store: Store, a: Request, b: Request)
    requires Checked(a) && Checked(b)
    ensures AllChecked([a, b]) && StoreRun(store, [a, b]) == StoreAfter(StoreAfter(store, a), b)
  {
    hide StoreAfter;
    assert [a, b][..1] == [a] && [a][..0] == [];
    assert StoreRun(store, [a]) == StoreAfter(store, a);
  }

  predicate SameRegisters(s: Store, t: Store) {
    s.Keys == t.Keys && forall id :: id in s ==> s[id].registers == t[id].registers
  }

  /** An update that would find nothing to write. */
  predicate WritesNothing(store: Store, rq: Request) {
    rq.change.id in store ==>
      forall f :: f in rq.change.fields ==> rq.change.timestamp <= store[rq.change.id].registers[f].updatedAt
  }

  /** Granted as before once another update has run, or with nothing left to write by then. */
  predicate Unaffected(store: Store, rq: Request, other: Request)
    requires IsUpdate(rq) && IsUpdate(other)
  {
    Accepted(StoreAfter(store, other), rq) == Accepted(store, rq) || WritesNothing(StoreAfter(store, other), rq)
  }

  /** Two changes of one field at one time write the same value, unless the field is newer. */
  predicate TiesAgree(store: Store, a: Change, b: Change) {
    a.id == b.id && a.id in store && a.timestamp == b.timestamp ==>
      forall f :: f in a.fields && f in b.fields && a.timestamp > store[a.id].registers[f].updatedAt ==> a.data[f] == b.data[f]
  }

  function MergedIf(r: Register, c: Change, f: Field, accepted: bool): Register {
    if accepted then Merged(r, c, f) else r
  }

  /** One register under two changes, each granted (`pa`, `pb`) or not if it comes first, and granted
      (`qa`, `qb`) or not if it comes second. */
  lemma RegisterAlike(r: Register, a: Change, b: Change, f: Field, pa: bool, qa: bool, pb: bool, qb: bool)
    requires (pa != qa ==> pb || !qb) && (pb != qb ==> pa || !qa)
    ensures
      MergedIf(MergedIf(r, a, f, pa), b, f, qb) == MergedIf(MergedIf(r, b, f, pb), a, f, qa)
      <==> && (pa && pb && f in a.fields && f in b.fields && a.timestamp == b.timestamp > r.updatedAt ==> a.data[f] == b.data[f])
           && (pa == qa || (f in a.fields ==> a.timestamp <= MergedIf(r, b, f, pb).updatedAt))
           && (pb == qb || (f in b.fields ==> b.timestamp <= MergedIf(r, a, f, pa).updatedAt))
  {
  }

  function RegisterOf(store: Store, id: string, f: Field): Register
    requires id in store
  {
    store[id].registers[f]
  }

  lemma RegisterAfterUpdate(store: Store, rq: Request, id: string, f: Field)
    requires IsUpdate(rq) && id in store
    ensures StoreAfter(store, rq).Keys == store.Keys
    ensures RegisterOf(StoreAfter(store, rq), id, f)
            == MergedIf(RegisterOf(store, id, f), rq.change, f, rq.change.id == id && Accepted(store, rq))
  {
    UpdateAfter(store, rq);
    hide StoreAfter, Accepted, Merged;
  }

  lemma KeysAfter(store: Store, rq: Request)
    requires IsUpdate(rq)
    ensures StoreAfter(store, rq).Keys == store.Keys
  {
    UpdateAfter(store, rq);
    hide StoreAfter, Accepted;
  }

  predicate TieAgreesAt(store: Store, a: Change, b: Change, id: string, f: Field)
    requires id in store
  {
    a.id == b.id == id && a.timestamp == b.timestamp > RegisterOf(store, id, f).updatedAt && f in a.fields && f in b.fields
    ==> a.data[f] == b.data[f]
  }

  predicate UnaffectedAt(store: Store, rq: Request, other: Request, id: string, f: Field)
    requires IsUpdate(rq) && IsUpdate(other) && id in store && id in StoreAfter(store, other)
  {
    Accepted(StoreAfter(store, other), rq) != Accepted(store, rq) && rq.change.id == id && f in rq.change.fields
    ==> rq.change.timestamp <= RegisterOf(StoreAfter(store, other), id, f).updatedAt
  }

  /** What the two orders have to agree on for one field of one user. */
  predicate AlikeAt(store: Store, a: Request, b: Request, id: string, f: Field)
    requires IsUpdate(a) && IsUpdate(b) && id in store && id in StoreAfter(store, a) && id in StoreAfter(store, b)
  {
    && (Accepted(store, a) && Accepted(store, b) ==> TieAgreesAt(store, a.change, b.change, id, f))
    && UnaffectedAt(store, a, b, id, f) && UnaffectedAt(store, b, a, id, f)
  }

  lemma OnlyGrantedMatters(store: Store, rq: Request, other: Request)
    requires IsUpdate(rq) && IsUpdate(other)
    ensures Accepted(StoreAfter(store, other), rq) != Accepted(store, rq) ==> Accepted(store, other)
  {
    UpdateAfter(store, other);
    hide StoreAfter, Accepted;
  }

  lemma RegisterAfterBoth(store: Store, a: Request, b: Request, id: string, f: Field)
    requires IsUpdate(a) && IsUpdate(b) && id in store
    ensures id in StoreAfter(store, a) && id in StoreAfter(StoreAfter(store, a), b)
    ensures RegisterOf(StoreAfter(store, a), id, f)
            == MergedIf(RegisterOf(store, id, f), a.change, f, a.change.id == id && Accepted(store, a))
    ensures RegisterOf(StoreAfter(StoreAfter(store, a), b), id, f)
            == MergedIf(RegisterOf(StoreAfter(store, a), id, f), b.change, f,
                       b.change.id == id && Accepted(StoreAfter(store, a), b))
  {
    hide StoreAfter, Accepted, RegisterOf, MergedIf;
    RegisterAfterUpdate(store, a, id, f);
    RegisterAfterUpdate(StoreAfter(store, a), b, id, f);
  }

  lemma AlikeAtExactly(store: Store, a: Request, b: Request, id: string, f: Field)
    requires IsUpdate(a) && IsUpdate(b) && id in store
    ensures
      var ab, ba := StoreAfter(StoreAfter(store, a), b), StoreAfter(StoreAfter(store, b), a);
      && id in StoreAfter(store, a) && id in StoreAfter(store, b) && id in ab && id in ba
      && (RegisterOf(ab, id, f) == RegisterOf(ba, id, f) <==> AlikeAt(store, a, b, id, f))
  {
    hide StoreAfter, Accepted, RegisterOf, MergedIf;
    OnlyGrantedMatters(store, a, b);
    OnlyGrantedMatters(store, b, a);
    RegisterAfterBoth(store, a, b, id, f);
    RegisterAfterBoth(store, b, a, id, f);
    OneIdAlike(RegisterOf(store, id, f), RegisterOf(StoreAfter(store, a), id, f), RegisterOf(StoreAfter(store, b), id, f),
               a.change, b.change, id, f,
               Accepted(store, a), Accepted(StoreAfter(store, b), a), Accepted(store, b), Accepted(StoreAfter(store, a), b));
  }

  lemma OneIdAlike(r: Register, ra: Register, rb: Register, a: Change, b: Change, id: string, f: Field,
                   pa: bool, qa: bool, pb: bool, qb: bool)
    requires (pa != qa ==> pb) && (pb != qb ==> pa)
    requires ra == MergedIf(r, a, f, a.id == id && pa) && rb == MergedIf(r, b, f, b.id == id && pb)
    ensures
      MergedIf(ra, b, f, b.id == id && qb) == MergedIf(rb, a, f, a.id == id && qa)
      <==> && (pa && pb && a.id == b.id == id && f in a.fields && f in b.fields && a.timestamp == b.timestamp > r.updatedAt
               ==> a.data[f] == b.data[f])
           && (qa != pa && a.id == id && f in a.fields ==> a.timestamp <= rb.updatedAt)
           && (qb != pb && b.id == id && f in b.fields ==> b.timestamp <= ra.updatedAt)
  {
    RegisterAlike(r, a, b, f, a.id == id && pa, a.id == id && qa, b.id == id && pb, b.id == id && qb);
    hide MergedIf;
  }

  lemma SameRegistersExactly(s: Store, t: Store)
    requires s.Keys == t.Keys
    ensures SameRegisters(s, t) <==> forall id, f: Field :: id in s ==> RegisterOf(s, id, f) == RegisterOf(t, id, f)
  {
    if forall id, f: Field :: id in s ==> RegisterOf(s, id, f) == RegisterOf(t, id, f) {
      forall id | id in s ensures s[id].registers == t[id].registers {
        forall f: Field ensures s[id].registers[f] == t[id].registers[f] {
          assert RegisterOf(s, id, f) == RegisterOf(t, id, f);
        }
      }
    }
  }

  predicate AlikeEverywhere(store: Store, a: Request, b: Request)
    requires IsUpdate(a) && IsUpdate(b) && StoreAfter(store, a).Keys == StoreAfter(store, b).Keys == store.Keys
  {
    forall id, f: Field :: id in store ==> AlikeAt(store, a, b, id, f)
  }

  lemma SameRegistersOfTwo(store: Store, a: Request, b: Request)
    requires IsUpdate(a) && IsUpdate(b)
    ensures StoreAfter(store, a).Keys == StoreAfter(store, b).Keys == store.Keys
    ensures SameRegisters(StoreAfter(StoreAfter(store, a), b), StoreAfter(StoreAfter(store, b), a)) <==> AlikeEverywhere(store, a, b)
  {
    KeysAfter(store, a);
    KeysAfter(store, b);
    KeysAfter(StoreAfter(store, a), b);
    KeysAfter(StoreAfter(store, b), a);
    var ab, ba := StoreAfter(StoreAfter(store, a), b), StoreAfter(StoreAfter(store, b), a);
    SameRegistersExactly(ab, ba);
    hide StoreAfter, SameRegisters, AlikeAt, RegisterOf;
    forall id, f: Field | id in store
      ensures RegisterOf(ab, id, f) == RegisterOf(ba, id, f) <==> AlikeAt(store, a, b, id, f)
    {
      AlikeAtExactly(store, a, b, id, f);
    }
  }

  lemma TiesAgreeEverywhere(store: Store, a: Change, b: Change)
    ensures TiesAgree(store, a, b) <==> forall id, f: Field :: id in store ==> TieAgreesAt(store, a, b, id, f)
  {
    if forall id, f: Field :: id in store ==> TieAgreesAt(store, a, b, id, f) {
      if a.id == b.id && a.id in store && a.timestamp == b.timestamp {
        forall f | f in a.fields && f in b.fields && a.timestamp > store[a.id].registers[f].updatedAt
          ensures a.data[f] == b.data[f]
        {
          assert TieAgreesAt(store, a, b, a.id, f);
        }
      }
    }
  }

  lemma UnaffectedEverywhere(store: Store, rq: Request, other: Request)
    requires IsUpdate(rq) && IsUpdate(other) && StoreAfter(store, other).Keys == store.Keys
    ensures Unaffected(store, rq, other) <==> forall id, f: Field :: id in store ==> UnaffectedAt(store, rq, other, id, f)
  {
    AcceptedIsStored(store, rq, other);
    hide StoreAfter, Accepted;
    if forall id, f: Field :: id in store ==> UnaffectedAt(store, rq, other, id, f) {
      if Accepted(StoreAfter(store, other), rq) != Accepted(store, rq) {
        forall f | f in rq.change.fields
          ensures rq.change.timestamp <= RegisterOf(StoreAfter(store, other), rq.change.id, f).updatedAt
        {
          assert UnaffectedAt(store, rq, other, rq.change.id, f);
        }
      }
    }
  }

  lemma AcceptedIsStored(store: Store, rq: Request, other: Request)
    requires IsUpdate(rq) && IsUpdate(other) && StoreAfter(store, other).Keys == store.Keys
    ensures Accepted(store, rq) || Accepted(StoreAfter(store, other), rq) ==> rq.change.id in store
  {
    hide StoreAfter;
  }

  /** Two updates, verified or not, leave the same registers in both orders, exactly when neither is affected by
      the other and, if both are granted, they agree where they tie. */
  lemma TwoUpdatesConvergeExactly(store: Store, a: Request, b: Request)
    requires IsUpdate(a) && IsUpdate(b)
    ensures AllChecked([a, b]) && AllChecked([b, a])
    ensures SameRegisters(StoreRun(store, [a, b]), StoreRun(store, [b, a]))
            <==> && (Accepted(store, a) && Accepted(store, b) ==> TiesAgree(store, a.change, b.change))
                 && Unaffected(store, a, b) && Unaffected(store, b, a)
  {
    RunTwo(store, a, b);
    RunTwo(store, b, a);
    hide StoreRun, StoreAfter, SameRegisters, Accepted, TieAgreesAt, UnaffectedAt, TiesAgree, Unaffected;
    SameRegistersOfTwo(store, a, b);
    TiesAgreeEverywhere(store, a.change, b.change);
    UnaffectedEverywhere(store, a, b);
    UnaffectedEverywhere(store, b, a);
    assert AlikeEverywhere(store, a, b)
      <==> && (Accepted(store, a) && Accepted(store, b)
               ==> forall id, f: Field :: id in store ==> TieAgreesAt(store, a.change, b.change, id, f))
           && (forall id, f: Field :: id in store ==> UnaffectedAt(store, a, b, id, f))
           && (forall id, f: Field :: id in store ==> UnaffectedAt(store, b, a, id, f)) by {
      AlikeSplits(store, a, b);
    }
  }

  lemma AlikeSplits(store: Store, a: Request, b: Request)
    requires IsUpdate(a) && IsUpdate(b) && StoreAfter(store, a).Keys == StoreAfter(store, b).Keys == store.Keys
    ensures AlikeEverywhere(store, a, b)
            <==> && (Accepted(store, a) && Accepted(store, b)
                     ==> forall id, f: Field :: id in store ==> TieAgreesAt(store, a.change, b.change, id, f))
                 && (forall id, f: Field :: id in store ==> UnaffectedAt(store, a, b, id, f))
                 && (forall id, f: Field :: id in store ==> UnaffectedAt(store, b, a, id, f))
  {
    hide StoreAfter, Accepted, TieAgreesAt, UnaffectedAt;
    if AlikeEverywhere(store, a, b) {
      forall id, f: Field | id in store
        ensures UnaffectedAt(store, a, b, id, f) && UnaffectedAt(store, b, a, id, f)
        ensures Accepted(store, a) && Accepted(store, b) ==> TieAgreesAt(store, a.change, b.change, id, f)
      {
        assert AlikeAt(store, a, b, id, f);
      }
    }
  }

  // ---------------------------------------------------------------- a refused update is lost

  const STORE: Store :=
    map["root" := Created(Change("root", [], AllFlags(true), 1)),
        "p" := Created(Change("p", [], AllFlags(false), 1)),
        "x" := Created(Change("x", [], AllFlags(false), 1))]

  /** An update that sets one flag. */
  function Setting(id: string, f: Field, t: Time, signer: string): Request {
    Request(UpdateRequest, [], Change(id, [f], AllFlags(true), t), Some(Signers(signer, signer)), true, true, false)
  }

  /** Root lets p change permissions, and p then lets x add channels. Where the second update arrives first it is
      refused, and x never gets the permission, although both updates have arrived. */
  lemma RefusedUpdateIsLost(t: Time)
    requires t > 1
    ensures
      var grant, use := Setting("p", PermissionsUpdate, t, "root"), Setting("x", ChannelAdd, t + 1, "p");
      && AllChecked([grant, use]) && AllChecked([use, grant])
      && StoreRun(STORE, [grant, use]).Keys == StoreRun(STORE, [use, grant]).Keys == STORE.Keys
      && StoreRun(STORE, [grant, use])["x"].registers[ChannelAdd] == Register(Flag(true), t + 1)
      && Answer(STORE, use) == CertifierPermissions
      && StoreRun(STORE, [use, grant])["x"] == STORE["x"]
  {
    var grant, use := Setting("p", PermissionsUpdate, t, "root"), Setting("x", ChannelAdd, t + 1, "p");
    RunTwo(STORE, grant, use);
    RunTwo(STORE, use, grant);
    UseIsRefused(t);
    GrantIsAccepted(t);
    UpdateAfter(STORE, grant);
    UpdateAfter(STORE, use);
    hide StoreRun, StoreAfter, Answer, Accepted, STORE;
    var granted := StoreAfter(STORE, grant);
    UseIsAccepted(STORE, granted, t);
    UpdateAfter(granted, use);
    KeysAfter(STORE, grant);
    KeysAfter(granted, use);
  }

  lemma UseIsRefused(t: Time)
    ensures
      var use := Setting("x", ChannelAdd, t + 1, "p");
      !Accepted(STORE, use) && Answer(STORE, use) == CertifierPermissions
  {
    var use := Setting("x", ChannelAdd, t + 1, "p");
    assert !MayChange(STORE["p"], use.change, use.change.fields[0]);
    assert TakenNeeds(use) == [Need(Read, "p"), Need(Read, "p"), Need(Write, "x")];
  }

  lemma GrantIsAccepted(t: Time)
    ensures Accepted(STORE, Setting("p", PermissionsUpdate, t, "root"))
    ensures "x" in STORE && STORE["x"].registers[ChannelAdd].updatedAt == 1
    ensures "p" in STORE && STORE["p"].registers[PermissionsUpdate].updatedAt == 1
  {
  }

  lemma UseIsAccepted(store: Store, granted: Store, t: Time)
    requires "p" in store && "x" in store && t > store["p"].registers[PermissionsUpdate].updatedAt
    requires granted == store["p" := Changed(store["p"], Setting("p", PermissionsUpdate, t, "root").change)]
    ensures Accepted(granted, Setting("x", ChannelAdd, t + 1, "p"))
  {
    assert PermissionsUpdate in Setting("p", PermissionsUpdate, t, "root").change.fields;
  }
}
