/** Updates that need users who are created around the same time. */
module NewUsers {
  import opened Common
  import opened UserRecord
  import opened UserServer
  import opened UserOrder

  /** Whether a request creates its user: it is a creation, granted, of a user who does not exist yet. */
  predicate Creates(store: Store, rq: Request)
    requires Checked(rq)
  {
    && rq.kind.CreateRequest? && rq.change.id !in store && SignerIds(rq) <= store.Keys
    && (rq.skipPermissions || Granted(store[rq.signers.value.certifierId], UserAdd))
  }

  /** Creations, each of another user. */
  predicate Founding(store: Store, cs: seq<Request>) {
    && (forall c :: c in cs ==> Checked(c) && Creates(store, c))
    && (forall c, d :: c in cs && d in cs && c.change.id == d.change.id ==> c == d)
  }

  predicate Makes(made: set<Request>, id: string) {
    exists c :: c in made && c.change.id == id
  }

  /** A store with the users some of these requests create, and otherwise as it was. */
  ghost predicate IsWith(store: Store, made: set<Request>, t: Store) {
    && (forall id :: id in t <==> id in store || Makes(made, id))
    && (forall id :: id in store ==> t[id] == store[id])
    && (forall c :: c in made ==> c.change.id in t && t[c.change.id] == Created(c.change))
  }

  lemma IsWithOne(store: Store, made: set<Request>, t: Store, u: Store)
    requires IsWith(store, made, t) && IsWith(store, made, u)
    ensures t == u
  {
    hide Created;
    forall id | id in t ensures id in u && t[id] == u[id] {
      if id !in store {
        assert Makes(made, id);
        var c :| c in made && c.change.id == id;
      }
    }
  }

  /** The store with all of them. */
  function WithAll(store: Store, cs: seq<Request>): Store {
    if cs == [] then store
    else WithAll(store, cs[..|cs| - 1])[cs[|cs| - 1].change.id := Created(cs[|cs| - 1].change)]
  }

  function Members(rqs: seq<Request>): set<Request> {
    set rq | rq in rqs
  }

  lemma {:induction false} WithAllIsWith(store: Store, cs: seq<Request>)
    requires Founding(store, cs)
    ensures IsWith(store, Members(cs), WithAll(store, cs))
  {
    hide Created, Granted;
    if cs != [] {
      var front, c := cs[..|cs| - 1], cs[|cs| - 1];
      WithAllIsWith(store, front);
      assert Members(cs) == Members(front) + {c};
      OneMoreIsWith(store, cs, Members(front), WithAll(store, front), c);
    }
  }

  lemma FoundingOne(store: Store, cs: seq<Request>, c: Request)
    requires Founding(store, cs) && c in cs
    ensures Checked(c) && Creates(store, c) && c.change.id !in store
    ensures forall d :: d in cs && d.change.id == c.change.id ==> d == c
  {
    hide Granted;
  }

  lemma OneMoreIsWith(store: Store, cs: seq<Request>, made: set<Request>, t: Store, c: Request)
    requires Founding(store, cs) && made <= Members(cs) && c in cs && IsWith(store, made, t)
    ensures IsWith(store, made + {c}, t[c.change.id := Created(c.change)])
  {
    FoundingOne(store, cs, c);
    hide Created, Creates, Founding, Checked, IsWith;
    forall d | d in made && d.change.id == c.change.id ensures d == c {
      assert d in cs;
    }
    AddedIsWith(store, made, t, c);
  }

  lemma AddedIsWith(store: Store, made: set<Request>, t: Store, c: Request)
    requires IsWith(store, made, t) && c.change.id !in store
    requires forall d :: d in made && d.change.id == c.change.id ==> d == c
    ensures IsWith(store, made + {c}, t[c.change.id := Created(c.change)])
  {
    hide Created, Makes;
    var u := t[c.change.id := Created(c.change)];
    forall id ensures id in u <==> id in store || Makes(made + {c}, id) {
      MakesOneMore(made, c, id);
    }
  }

  lemma MakesOneMore(made: set<Request>, c: Request, id: string)
    ensures Makes(made + {c}, id) <==> Makes(made, id) || c.change.id == id
  {
    if c.change.id == id {
      assert c in made + {c};
    }
    if Makes(made, id) {
      var d :| d in made && d.change.id == id;
      assert d in made + {c};
    }
  }

  /** A creation finds its signers as they were at the start. */
  lemma CreationAfter(store: Store, made: set<Request>, t: Store, rq: Request)
    requires Checked(rq) && Creates(store, rq) && IsWith(store, made, t)
    ensures StoreAfter(t, rq) == if rq.change.id in t then t else t[rq.change.id := Created(rq.change)]
  {
    SignersStay(store, made, t, rq);
    hide IsWith, Created, Creates;
    GrantedCreation(t, rq);
  }

  lemma GrantedCreation(t: Store, rq: Request)
    requires Checked(rq) && rq.kind.CreateRequest? && SignerIds(rq) <= t.Keys
    requires rq.skipPermissions || Granted(t[rq.signers.value.certifierId], UserAdd)
    ensures Answer(t, rq) == Success
    ensures StoreAfter(t, rq) == if rq.change.id in t then t else t[rq.change.id := Created(rq.change)]
  {
    assert TakenNeeds(rq) == SignerNeeds(rq);
    hide Created, Granted;
  }

  lemma SignersStay(store: Store, made: set<Request>, t: Store, rq: Request)
    requires Checked(rq) && Creates(store, rq) && IsWith(store, made, t)
    ensures rq.kind.CreateRequest? && SignerIds(rq) <= t.Keys
    ensures rq.skipPermissions || Granted(t[rq.signers.value.certifierId], UserAdd)
  {
    hide Created, Makes;
  }

  lemma CreationIsWith(store: Store, cs: seq<Request>, made: set<Request>, t: Store, c: Request)
    requires Founding(store, cs) && made <= Members(cs) && c in cs && IsWith(store, made, t)
    ensures Checked(c) && IsWith(store, made + {c}, StoreAfter(t, c))
  {
    FoundingOne(store, cs, c);
    CreationAfter(store, made, t, c);
    hide StoreAfter, Created, IsWith, Creates;
    if c.change.id in t {
      assert forall d :: d in made ==> d in cs;
      AlreadyMade(store, made, t, c);
    } else {
      OneMoreIsWith(store, cs, made, t, c);
    }
  }

  lemma AlreadyMade(store: Store, made: set<Request>, t: Store, c: Request)
    requires IsWith(store, made, t) && c.change.id in t && c.change.id !in store
    requires forall d :: d in made && d.change.id == c.change.id ==> d == c
    ensures made + {c} == made
  {
    hide Created;
    assert Makes(made, c.change.id);
    assert c in made;
  }

  // ---------------------------------------------------------------- updates that need the new users

  /** An update of one of the new users, or one that is signed by one of them. */
  predicate NeedsNew(cs: seq<Request>, rq: Request)
    requires Checked(rq)
  {
    exists i :: 0 <= i < |cs| && (cs[i].change.id == rq.change.id || cs[i].change.id in SignerIds(rq))
  }

  predicate AllNeedNew(cs: seq<Request>, rqs: seq<Request>) {
    AllUpdates(rqs) && forall i :: 0 <= i < |rqs| ==> IsUpdate(rqs[i]) && NeedsNew(cs, rqs[i])
  }

  lemma StartsWithout(store: Store, cs: seq<Request>, rq: Request)
    requires Founding(store, cs) && IsUpdate(rq) && NeedsNew(cs, rq)
    ensures !Accepted(store, rq)
  {
    hide Granted, Permitted;
    var i :| 0 <= i < |cs| && (cs[i].change.id == rq.change.id || cs[i].change.id in SignerIds(rq));
    assert Creates(store, cs[i]);
  }

  /** Before any of them exists such updates are refused. */
  lemma EarlyUpdatesAreRefused(store: Store, cs: seq<Request>, rqs: seq<Request>)
    requires Founding(store, cs) && AllNeedNew(cs, rqs)
    ensures StoreRun(store, rqs) == store
  {
    forall i | 0 <= i < |rqs| ensures IsUpdate(rqs[i]) && !Accepted(store, rqs[i]) {
      StartsWithout(store, cs, rqs[i]);
    }
    hide Accepted;
    RefusedRun(store, rqs);
  }

  lemma {:induction false} RefusedRun(store: Store, rqs: seq<Request>)
    requires AllChecked(rqs) && forall i :: 0 <= i < |rqs| ==> IsUpdate(rqs[i]) && !Accepted(store, rqs[i])
    ensures StoreRun(store, rqs) == store
  {
    hide StoreAfter, Accepted;
    if rqs != [] {
      RefusedRun(store, rqs[..|rqs| - 1]);
      UpdateAfter(store, rqs[|rqs| - 1]);
    }
  }

  lemma {:induction false} StoreRunSplits(store: Store, a: seq<Request>, b: seq<Request>)
    requires AllChecked(a) && AllChecked(b)
    ensures AllChecked(a + b) && StoreRun(store, a + b) == StoreRun(StoreRun(store, a), b)
  {
    hide StoreAfter;
    if b == [] {
      assert a + b == a;
    } else {
      assert (a + b)[..|a + b| - 1] == a + b[..|b| - 1];
      StoreRunSplits(store, a, b[..|b| - 1]);
    }
  }

  // ---------------------------------------------------------------- what is not noticed

  /** An update that is refused, or is newer than nothing it names. */
  predicate Unnoticed(store: Store, rq: Request)
    requires IsUpdate(rq)
  {
    !Accepted(store, rq) || WritesNothing(store, rq)
  }

  lemma NothingChanges(r: Record, c: Change)
    ensures Changed(r, c) == r <==> forall f :: f in c.fields ==> c.timestamp <= r.registers[f].updatedAt
  {
    if forall f :: f in c.fields ==> c.timestamp <= r.registers[f].updatedAt {
      assert Changed(r, c).registers == r.registers;
    } else {
      var f :| f in c.fields && c.timestamp > r.registers[f].updatedAt;
      assert Changed(r, c).registers[f].updatedAt == c.timestamp;
    }
  }

  lemma UnnoticedExactly(store: Store, rq: Request)
    requires IsUpdate(rq)
    ensures StoreAfter(store, rq) == store <==> Unnoticed(store, rq)
  {
    UpdateAfter(store, rq);
    if Accepted(store, rq) {
      NothingChanges(store[rq.change.id], rq.change);
      hide StoreAfter, Changed, Accepted;
      assert StoreAfter(store, rq)[rq.change.id] == Changed(store[rq.change.id], rq.change);
    }
  }

  /** A user just created notices what is newer than the creation and than the zero time. */
  lemma NewUserNotices(c: Change, d: Change)
    ensures Changed(Created(c), d) == Created(c)
            <==> d.fields == [] || d.timestamp <= c.timestamp || d.timestamp <= ZERO_TIME
  {
    NothingChanges(Created(c), d);
    if d.fields != [] {
      assert d.fields[0] in d.fields;
    }
  }

  /** What all of the new users together would not notice is not noticed by some of them either. */
  lemma UnnoticedEarlier(store: Store, made: set<Request>, all: set<Request>, t: Store, u: Store, rq: Request)
    requires IsWith(store, made, t) && IsWith(store, all, u) && made <= all && IsUpdate(rq) && Unnoticed(u, rq)
    ensures Unnoticed(t, rq)
  {
    hide Created, Permitted;
    forall id | id in t ensures id in u && t[id] == u[id] {
      if id !in store {
        assert Makes(made, id);
        var c :| c in made && c.change.id == id;
      }
    }
  }

  lemma RunOneMore(store: Store, rqs: seq<Request>, rq: Request)
    requires AllChecked(rqs) && Checked(rq)
    ensures AllChecked(rqs + [rq]) && StoreRun(store, rqs + [rq]) == StoreAfter(StoreRun(store, rqs), rq)
  {
    hide StoreAfter;
    assert (rqs + [rq])[..|rqs|] == rqs;
  }

  lemma MembersMore(front: seq<Request>, last: Request, whole: seq<Request>)
    requires whole == front + [last]
    ensures Members(whole) == Members(front) + {last}
  {
  }

  lemma UnnoticedStep(store: Store, cs: seq<Request>, made: set<Request>, t: Store, rq: Request)
    requires Founding(store, cs) && made <= Members(cs) && IsWith(store, made, t) && Checked(rq)
    requires rq in cs || (IsUpdate(rq) && Unnoticed(WithAll(store, cs), rq))
    ensures rq in cs <==> rq in Members(cs)
    ensures IsWith(store, if rq in cs then made + {rq} else made, StoreAfter(t, rq))
  {
    hide StoreAfter, IsWith, Unnoticed, WithAll, Founding;
    if rq in cs {
      CreationIsWith(store, cs, made, t, rq);
    } else {
      WithAllIsWith(store, cs);
      UnnoticedEarlier(store, made, Members(cs), t, WithAll(store, cs), rq);
      UnnoticedExactly(t, rq);
    }
  }

  /** A creation, or an update that would not be noticed. */
  predicate Harmless(store: Store, cs: seq<Request>, rq: Request) {
    Checked(rq) && (rq in cs || (IsUpdate(rq) && Unnoticed(WithAll(store, cs), rq)))
  }

  /** The creations among some requests, as a set. */
  function CreatedBy(rqs: seq<Request>, cs: seq<Request>): set<Request> {
    Members(rqs) * Members(cs)
  }

  lemma HarmlessOneMore(store: Store, cs: seq<Request>, front: seq<Request>, last: Request)
    requires Founding(store, cs) && AllChecked(front) && Harmless(store, cs, last)
    requires IsWith(store, CreatedBy(front, cs), StoreRun(store, front))
    ensures AllChecked(front + [last]) && IsWith(store, CreatedBy(front + [last], cs), StoreRun(store, front + [last]))
  {
    RunOneMore(store, front, last);
    CreatedByMore(front, last, cs);
    assert CreatedBy(front, cs) <= Members(cs);
    hide StoreRun, StoreAfter, IsWith, Unnoticed, WithAll, Founding, AllChecked, IsUpdate, Members, CreatedBy;
    UnnoticedStep(store, cs, CreatedBy(front, cs), StoreRun(store, front), last);
  }

  lemma CreatedByMore(front: seq<Request>, last: Request, cs: seq<Request>)
    ensures CreatedBy(front + [last], cs) == if last in cs then CreatedBy(front, cs) + {last} else CreatedBy(front, cs)
  {
    MembersMore(front, last, front + [last]);
  }

  lemma {:induction false} HarmlessRun(store: Store, cs: seq<Request>, rqs: seq<Request>)
    requires Founding(store, cs) && forall i :: 0 <= i < |rqs| ==> Harmless(store, cs, rqs[i])
    ensures AllChecked(rqs) && IsWith(store, CreatedBy(rqs, cs), StoreRun(store, rqs))
  {
    hide Harmless, Founding, IsWith, StoreAfter;
    if rqs == [] {
      assert CreatedBy(rqs, cs) == {};
      NothingMade(store);
    } else {
      var front, last := rqs[..|rqs| - 1], rqs[|rqs| - 1];
      HarmlessRun(store, cs, front);
      HarmlessOneMore(store, cs, front, last);
      assert rqs == front + [last];
    }
  }

  lemma NothingMade(store: Store)
    ensures IsWith(store, {}, store)
  {
  }

  lemma CreationsMake(store: Store, cs: seq<Request>)
    requires Founding(store, cs)
    ensures AllChecked(cs) && StoreRun(store, cs) == WithAll(store, cs)
  {
    forall i | 0 <= i < |cs| ensures Harmless(store, cs, cs[i]) {
      assert cs[i] in cs;
    }
    hide StoreRun, IsWith, WithAll, Founding, Harmless;
    HarmlessRun(store, cs, cs);
    WithAllIsWith(store, cs);
    assert CreatedBy(cs, cs) == Members(cs);
    IsWithOne(store, Members(cs), StoreRun(store, cs), WithAll(store, cs));
  }

  lemma LaterUpdatesChange(store: Store, cs: seq<Request>, after: seq<Request>)
    requires Founding(store, cs) && AllUpdates(after)
    ensures AllChecked(cs + after) && StoreRun(store, cs + after) == StoreRun(WithAll(store, cs), after)
  {
    CreationsMake(store, cs);
    StoreRunSplits(store, cs, after);
    hide StoreRun, WithAll, Founding;
  }

  /** Whatever such updates come first are lost, and the later ones change what was created. */
  lemma EarlyUpdatesAreLost(store: Store, before: seq<Request>, cs: seq<Request>, after: seq<Request>)
    requires Founding(store, cs) && AllNeedNew(cs, before) && AllUpdates(after)
    ensures AllChecked(before + cs + after)
    ensures StoreRun(store, before + cs + after) == StoreRun(WithAll(store, cs), after)
  {
    assert AllChecked(before);
    EarlyUpdatesAreRefused(store, cs, before);
    LaterUpdatesChange(store, cs, after);
    hide StoreRun, WithAll, Founding, AllUpdates, AllNeedNew, AllChecked;
    StoreRunSplits(store, before, cs + after);
    Regrouped(before, cs, after);
  }

  lemma Regrouped(a: seq<Request>, b: seq<Request>, c: seq<Request>)
    ensures a + b + c == a + (b + c)
  {
  }

  /** Updates only ever make registers newer. */
  lemma {:induction false} RegistersGetNewer(store: Store, rqs: seq<Request>, id: string, f: Field)
    requires AllUpdates(rqs) && id in store
    ensures id in StoreRun(store, rqs)
    ensures StoreRun(store, rqs)[id].registers[f].updatedAt >= store[id].registers[f].updatedAt
  {
    if rqs != [] {
      RegistersGetNewer(store, rqs[..|rqs| - 1], id, f);
      UpdateAfter(StoreRun(store, rqs[..|rqs| - 1]), rqs[|rqs| - 1]);
      hide StoreAfter, Accepted;
    }
  }

  /** An update that is noticed leaves its mark, whatever follows. */
  lemma NoticedStays(store: Store, rq: Request, rest: seq<Request>)
    requires IsUpdate(rq) && !Unnoticed(store, rq) && AllUpdates(rest)
    ensures AllUpdates([rq] + rest) && StoreRun(store, [rq] + rest) != store
  {
    var f := NoticedField(store, rq);
    assert AllChecked(rest);
    RunOneMore(store, [], rq);
    assert [] + [rq] == [rq] && StoreRun(store, []) == store;
    UpdatesMore(rq, rest);
    hide StoreRun, StoreAfter, Accepted, WritesNothing, AllUpdates, AllChecked;
    StoreRunSplits(store, [rq], rest);
    RegistersGetNewer(StoreAfter(store, rq), rest, rq.change.id, f);
  }

  lemma UpdatesMore(rq: Request, rest: seq<Request>)
    requires IsUpdate(rq) && AllUpdates(rest)
    ensures AllUpdates([rq] + rest)
  {
  }

  lemma NoticedField(store: Store, rq: Request) returns (f: Field)
    requires IsUpdate(rq) && !Unnoticed(store, rq)
    ensures rq.change.id in store && rq.change.id in StoreAfter(store, rq)
    ensures StoreAfter(store, rq)[rq.change.id].registers[f].updatedAt > store[rq.change.id].registers[f].updatedAt
  {
    f :| f in rq.change.fields && rq.change.timestamp > store[rq.change.id].registers[f].updatedAt;
    UpdateAfter(store, rq);
    hide StoreAfter, Permitted;
  }

  // ---------------------------------------------------------------- every order

  lemma SameMembersOf(a: seq<Request>, b: seq<Request>)
    requires multiset(a) == multiset(b)
    ensures forall rq :: rq in a <==> rq in b
  {
    forall rq ensures rq in a <==> rq in b {
      assert rq in a <==> rq in multiset(a);
      assert rq in b <==> rq in multiset(b);
    }
  }

  lemma UnnoticedOrder(store: Store, cs: seq<Request>, updates: seq<Request>, order: seq<Request>)
    requires Founding(store, cs) && AllUpdates(updates)
    requires forall i :: 0 <= i < |updates| ==> IsUpdate(updates[i]) && Unnoticed(WithAll(store, cs), updates[i])
    requires multiset(order) == multiset(cs + updates) && AllChecked(order)
    ensures StoreRun(store, order) == WithAll(store, cs)
  {
    SameMembersOf(order, cs + updates);
    forall i | 0 <= i < |order| ensures Harmless(store, cs, order[i]) {
      assert order[i] in order && order[i] in cs + updates;
    }
    assert CreatedBy(order, cs) == Members(cs);
    hide StoreRun, WithAll, Unnoticed, Creates, IsWith, Founding, Harmless;
    HarmlessRun(store, cs, order);
    WithAllIsWith(store, cs);
    IsWithOne(store, Members(cs), StoreRun(store, order), WithAll(store, cs));
  }

  lemma Without(updates: seq<Request>, i: nat) returns (rest: seq<Request>)
    requires AllUpdates(updates) && i < |updates|
    ensures AllUpdates(rest) && multiset([updates[i]] + rest) == multiset(updates)
  {
    rest := updates[..i] + updates[i + 1..];
    assert updates == updates[..i] + [updates[i]] + updates[i + 1..];
  }

  lemma NoticedFirst(store: Store, cs: seq<Request>, updates: seq<Request>, i: nat) returns (order: seq<Request>)
    requires Founding(store, cs) && AllUpdates(updates)
    requires i < |updates| && IsUpdate(updates[i]) && !Unnoticed(WithAll(store, cs), updates[i])
    ensures multiset(order) == multiset(cs + updates) && AllChecked(order)
    ensures StoreRun(store, order) != WithAll(store, cs)
  {
    var rest := Without(updates, i);
    var after := [updates[i]] + rest;
    order := cs + after;
    hide StoreRun, Unnoticed, Founding, WithAll, AllChecked;
    assert multiset(order) == multiset(cs) + multiset(after);
    NoticedStays(WithAll(store, cs), updates[i], rest);
    LaterUpdatesChange(store, cs, after);
  }

  /** Every order of arrival of some creations and any updates of the new users, or signed by them, verified or
      not, leaves the same store, exactly when none of the updates would be noticed once all users are created.
      As an update that arrives before the users it needs is refused and lost, any other one makes the result
      depend on the order. */
  lemma CreationsConvergeExactly(store: Store, cs: seq<Request>, updates: seq<Request>)
    requires Founding(store, cs) && AllNeedNew(cs, updates)
    ensures AllChecked(updates + cs) && StoreRun(store, updates + cs) == WithAll(store, cs)
    ensures (forall order | multiset(order) == multiset(cs + updates) && AllChecked(order) ::
               StoreRun(store, order) == StoreRun(store, updates + cs))
            <==> forall i :: 0 <= i < |updates| ==> IsUpdate(updates[i]) && Unnoticed(WithAll(store, cs), updates[i])
  {
    EarlyUpdatesAreLost(store, updates, cs, []);
    assert updates + cs + [] == updates + cs;
    assert StoreRun(WithAll(store, cs), []) == WithAll(store, cs);
    hide StoreRun, Unnoticed, WithAll, Founding, NeedsNew;
    if forall i :: 0 <= i < |updates| ==> Unnoticed(WithAll(store, cs), updates[i]) {
      forall order | multiset(order) == multiset(cs + updates) && AllChecked(order)
        ensures StoreRun(store, order) == WithAll(store, cs)
      {
        UnnoticedOrder(store, cs, updates, order);
      }
    } else {
      var i :| 0 <= i < |updates| && !Unnoticed(WithAll(store, cs), updates[i]);
      var order := NoticedFirst(store, cs, updates, i);
    }
  }
}
