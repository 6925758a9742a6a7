/** The users daemon: which record locks a request takes, keeps and gives back. */
module UserServer {
  import opened Common
  import opened LockNeeds
  import opened UserRecord

  datatype Kind = CreateRequest | UpdateRequest | ReadRequest

  /** `subjects` are the users a read asks for; `change` is what a create or update carries. */
  datatype Request = Request(
    kind: Kind,
    subjects: seq<string>,
    change: Change,
    signers: Option<Signers>,
    readLock: bool,
    readUnlock: bool,
    skipPermissions: bool)

  datatype Result =
    | Success | IssuerUnknown | CertifierUnknown | SubjectUnknown | CertifierPermissions | UnlockingFailed

  type Store = map<string, Record>

  /** Records are filed under their own id and have one lock each. */
  predicate Filed(store: Store, locks: Table) {
    store.Keys == locks.Keys && forall id :: id in store ==> store[id].id == id
  }

  // ---------------------------------------------------------------- specification

  /** What sanitizing a request makes sure of. */
  predicate Checked(rq: Request) {
    rq.skipPermissions || rq.signers.Some?
  }

  function Reads(ids: seq<string>): seq<Need> {
    seq(|ids|, i requires 0 <= i < |ids| => Need(Read, ids[i]))
  }

  function SignerNeeds(rq: Request): seq<Need>
    requires Checked(rq)
  {
    if rq.skipPermissions then []
    else [Need(Read, rq.signers.value.issuerId), Need(Read, rq.signers.value.certifierId)]
  }

  /** The needs taken before a request runs. */
  function TakenNeeds(rq: Request): seq<Need>
    requires Checked(rq)
  {
    SignerNeeds(rq)
    + (if rq.kind.UpdateRequest? then [Need(Write, rq.change.id)] else [])
    + (if rq.kind.ReadRequest? && rq.readLock then Reads(rq.subjects) else [])
  }

  /** The needs given back after a request ran. */
  function ReturnedNeeds(rq: Request): seq<Need>
    requires Checked(rq)
  {
    if rq.kind.ReadRequest? && !rq.readLock && rq.readUnlock then TakenNeeds(rq) + Reads(rq.subjects)
    else if rq.kind.ReadRequest? && rq.readLock && !rq.readUnlock then SignerNeeds(rq)
    else TakenNeeds(rq)
  }

  /** An unlocked read of a user that does not exist. */
  predicate ReadFails(store: Store, rq: Request) {
    rq.kind.ReadRequest? && !rq.readLock && exists id :: id in rq.subjects && id !in store
  }

  predicate NeedsKnown(store: Store, rq: Request)
    requires Checked(rq)
  {
    forall n :: n in TakenNeeds(rq) ==> n.id in store
  }

  predicate Permitted(certifier: Record, rq: Request) {
    match rq.kind
    case CreateRequest => Granted(certifier, UserAdd)
    case UpdateRequest => forall f :: f in rq.change.fields ==> MayChange(certifier, rq.change, f)
    case ReadRequest => Granted(certifier, UserRead)
  }

  /** How a request ends. */
  function Answer(store: Store, rq: Request): Result
    requires Checked(rq)
  {
    if !NeedsKnown(store, rq) || ReadFails(store, rq) then
      if !rq.skipPermissions && rq.signers.value.issuerId !in store then IssuerUnknown
      else if !rq.skipPermissions && rq.signers.value.certifierId !in store then CertifierUnknown
      else SubjectUnknown
    else if !rq.skipPermissions
      && (assert Need(Read, rq.signers.value.certifierId) in TakenNeeds(rq); !Permitted(store[rq.signers.value.certifierId], rq)) then
      CertifierPermissions
    else Success
  }

  /** The locks of the records that were there before, after a request. */
  function LocksAfter(store: Store, locks: Table, rq: Request): (r: Table)
    requires Checked(rq)
    ensures r.Keys == locks.Keys
  {
    if !NeedsKnown(store, rq) then locks
    else if ReadFails(store, rq) then Locked(locks, TakenNeeds(rq))
    else if Answer(store, rq) == CertifierPermissions then Unlocked(Locked(locks, TakenNeeds(rq)), TakenNeeds(rq))
    else Unlocked(Locked(locks, TakenNeeds(rq)), ReturnedNeeds(rq))
  }

  /** What running a request does to the stored records; adding a user whose id is taken keeps the
      stored record. */
  function Executed(store: Store, rq: Request): Store
    requires rq.kind.UpdateRequest? ==> rq.change.id in store
  {
    match rq.kind
    case CreateRequest => if rq.change.id in store then store else store[rq.change.id := Created(rq.change)]
    case UpdateRequest => store[rq.change.id := Changed(store[rq.change.id], rq.change)]
    case ReadRequest => store
  }

  /** The locks once a created user has been added. */
  function WithNewLock(store: Store, locks: Table, rq: Request): Table {
    if rq.kind.CreateRequest? && rq.change.id !in store then locks[rq.change.id := Holds(0, 0)] else locks
  }

  function StoreAfter(store: Store, rq: Request): Store
    requires Checked(rq)
  {
    if Answer(store, rq) != Success then store
    else
      assert rq.kind.UpdateRequest? ==> Need(Write, rq.change.id) in TakenNeeds(rq);
      Executed(store, rq)
  }

  /** The locks of earlier records are as specified, and those of new records are free. */
  predicate Accounted(store: Store, locks: Table, rq: Request, store': Store, locks': Table)
    requires Checked(rq) && store.Keys == locks.Keys && store'.Keys == locks'.Keys
  {
    && store.Keys <= store'.Keys
    && (forall id :: id in store ==> locks'[id] == LocksAfter(store, locks, rq)[id])
    && (forall id :: id in store' && id !in store ==> locks'[id] == Holds(0, 0))
  }

  /** What a successful request replies with: the changed or created user, or those asked for in order. */
  predicate Replies(rq: Request, store: Store, data: seq<Record>) {
    match rq.kind
    case UpdateRequest => rq.change.id in store && data == [store[rq.change.id]]
    case CreateRequest => data == [Created(rq.change)]
    case ReadRequest => |data| == |rq.subjects| && forall i :: 0 <= i < |data| ==> rq.subjects[i] in store && data[i] == store[rq.subjects[i]]
  }

  /** The ids of the signers a request locks. */
  function SignerIds(rq: Request): set<string>
    requires Checked(rq)
  {
    if rq.skipPermissions then {} else {rq.signers.value.issuerId, rq.signers.value.certifierId}
  }

  lemma SubjectsTaken(rq: Request)
    requires Checked(rq)
    ensures rq.kind.ReadRequest? && rq.readLock ==> forall id :: id in rq.subjects ==> Need(Read, id) in TakenNeeds(rq)
  {
    if rq.kind.ReadRequest? && rq.readLock {
      forall id | id in rq.subjects ensures Need(Read, id) in TakenNeeds(rq) {
        var i :| 0 <= i < |rq.subjects| && rq.subjects[i] == id;
        assert Reads(rq.subjects)[i] == Need(Read, id);
      }
    }
  }

  /** The signers are read, the user to be changed is written, and the users to be read are read: locked
      and unlocked as the flags say. */
  lemma NeedsExactly(rq: Request)
    requires Checked(rq)
    ensures forall n :: n in TakenNeeds(rq) <==>
              || (!rq.skipPermissions && n.mode.Read? && (n.id == rq.signers.value.issuerId || n.id == rq.signers.value.certifierId))
              || (rq.kind.UpdateRequest? && n.mode.Write? && n.id == rq.change.id)
              || (rq.kind.ReadRequest? && rq.readLock && n.mode.Read? && n.id in rq.subjects)
    ensures forall n :: n in ReturnedNeeds(rq) <==>
              || (!rq.skipPermissions && n.mode.Read? && (n.id == rq.signers.value.issuerId || n.id == rq.signers.value.certifierId))
              || (rq.kind.UpdateRequest? && n.mode.Write? && n.id == rq.change.id)
              || (rq.kind.ReadRequest? && rq.readUnlock && n.mode.Read? && n.id in rq.subjects)
  {
    forall n ensures n in Reads(rq.subjects) <==> n.mode.Read? && n.id in rq.subjects {
      if n.mode.Read? && n.id in rq.subjects {
        var i :| 0 <= i < |rq.subjects| && rq.subjects[i] == n.id;
        assert Reads(rq.subjects)[i] == n;
      }
    }
    forall n
      ensures n in SignerNeeds(rq) <==>
                !rq.skipPermissions && n.mode.Read? && (n.id == rq.signers.value.issuerId || n.id == rq.signers.value.certifierId)
    {
      assert n == Need(n.mode, n.id);
    }
    forall n ensures n in [Need(Write, rq.change.id)] <==> n.mode.Write? && n.id == rq.change.id {
      assert n == Need(n.mode, n.id);
    }
  }

  lemma NothingToLock(t: Table)
    ensures Locked(t, []) == t && Unlocked(t, []) == t
  {
    SortedIsUnique(Sanitized([]), []);
  }

  /** A new record does not change what unlocking does to the others, and stays free itself. */
  lemma NewRecordUnrelated(t: Table, needs: seq<Need>, added: string)
    requires Known(t, needs)
    ensures added !in t ==>
              && Unlocked(t[added := Holds(0, 0)], needs)[added] == Holds(0, 0)
              && forall id :: id in t ==> Unlocked(t[added := Holds(0, 0)], needs)[id] == Unlocked(t, needs)[id]
  {
    if added !in t {
      LockedPointwise(t[added := Holds(0, 0)], needs, added);
      forall id | id in t ensures Unlocked(t[added := Holds(0, 0)], needs)[id] == Unlocked(t, needs)[id] {
        LockedPointwise(t[added := Holds(0, 0)], needs, id);
        LockedPointwise(t, needs, id);
      }
    }
  }

  // ---------------------------------------------------------------- the daemon

  class Server {
    var store: Store
    const locks: LockStore

    ghost predicate Valid()
      reads this, locks
    {
      Filed(store, locks.holds)
    }

    constructor ()
      ensures Valid() && store == map[] && fresh(locks)
    {
      store := map[];
      locks := new LockStore(map[]);
    }

    /** Takes locks all or nothing, and returns the records that exist in canonical order. */
    method LockUsers(lockNeeds: seq<Need>) returns (records: seq<Record>, ok: bool)
      requires Valid()
      modifies locks
      ensures Valid()
      ensures ok == Known(old(locks.holds), lockNeeds) && locks.holds == Locked(old(locks.holds), lockNeeds)
      ensures forall r :: r in records ==> r.id in store && store[r.id] == r
      ensures forall n :: n in lockNeeds && n.id in store ==> store[n.id] in records
    {
      var sanitized := SanitizeLockNeeds(lockNeeds);
      records := [];
      var i := 0;
      while i < |sanitized|
        invariant 0 <= i <= |sanitized|
        invariant forall r :: r in records ==> r.id in store && store[r.id] == r
        invariant forall k :: 0 <= k < i && sanitized[k].id in store ==> store[sanitized[k].id] in records
      {
        if sanitized[i].id in store {
          records := records + [store[sanitized[i].id]];
        }
        i := i + 1;
      }
      forall n | n in lockNeeds && n.id in store ensures store[n.id] in records {
        SanitizedHasStrongest(lockNeeds, n.id);
      }
      ok := locks.Lock(lockNeeds);
    }

    method ReadUserRecordsByIds(ids: seq<string>) returns (records: seq<Record>, ok: bool)
      requires Valid()
      ensures ok <==> forall id :: id in ids ==> id in store
      ensures !ok ==> records == []
      ensures ok ==> |records| == |ids| && forall i :: 0 <= i < |ids| ==> records[i] == store[ids[i]]
    {
      records := [];
      var i := 0;
      while i < |ids|
        invariant 0 <= i <= |ids| && |records| == i
        invariant forall k :: 0 <= k < i ==> ids[k] in store && records[k] == store[ids[k]]
      {
        if ids[i] !in store {
          return [], false;
        }
        records := records + [store[ids[i]]];
        i := i + 1;
      }
      return records, true;
    }

    /** The last record of each signer, or -1. */
    method FindSigners(records: seq<Record>, signers: Option<Signers>) returns (issuer: int, certifier: int)
      ensures -1 <= issuer < |records| && -1 <= certifier < |records|
      ensures signers.Some? ==>
                && (issuer == -1 <==> forall r :: r in records ==> r.id != signers.value.issuerId)
                && (issuer >= 0 ==> records[issuer].id == signers.value.issuerId)
                && (certifier == -1 <==> forall r :: r in records ==> r.id != signers.value.certifierId)
                && (certifier >= 0 ==> records[certifier].id == signers.value.certifierId)
    {
      issuer, certifier := -1, -1;
      var i := 0;
      while i < |records|
        invariant 0 <= i <= |records|
        invariant -1 <= issuer < i && -1 <= certifier < i
        invariant signers.Some? ==>
                    && (issuer == -1 <==> forall k :: 0 <= k < i ==> records[k].id != signers.value.issuerId)
                    && (issuer >= 0 ==> records[issuer].id == signers.value.issuerId)
                    && (certifier == -1 <==> forall k :: 0 <= k < i ==> records[k].id != signers.value.certifierId)
                    && (certifier >= 0 ==> records[certifier].id == signers.value.certifierId)
      {
        if signers.Some? && records[i].id == signers.value.issuerId {
          issuer := i;
        }
        if signers.Some? && records[i].id == signers.value.certifierId {
          certifier := i;
        }
        i := i + 1;
      }
    }

    /** The requested records, in the order they were asked for. */
    method Requested(records: seq<Record>, subjects: seq<string>) returns (data: seq<Record>)
      requires Valid()
      requires forall r :: r in records ==> r.id in store && store[r.id] == r
      requires forall id :: id in subjects ==> exists r :: r in records && r.id == id
      ensures |data| == |subjects|
      ensures forall i :: 0 <= i < |subjects| ==> subjects[i] in store && data[i] == store[subjects[i]]
    {
      data := [];
      var i := 0;
      while i < |subjects|
        invariant 0 <= i <= |subjects| && |data| == i
        invariant forall k :: 0 <= k < i ==> subjects[k] in store && data[k] == store[subjects[k]]
      {
        var j := 0;
        assert subjects[i] in subjects;
        while j < |records| && records[j].id != subjects[i]
          invariant 0 <= j <= |records|
          invariant forall k :: 0 <= k < j ==> records[k].id != subjects[i]
        {
          j := j + 1;
        }
        assert j < |records| && records[j] in records;
        data := data + [records[j]];
        i := i + 1;
      }
    }

    /** The request itself, under its locks. */
    method Execute(rq: Request, userRecords: seq<Record>) returns (data: seq<Record>)
      requires Valid()
      requires rq.kind.UpdateRequest? ==> rq.change.id in store
      requires forall r :: r in userRecords ==> r.id in store && store[r.id] == r
      requires rq.kind.ReadRequest? ==> forall id :: id in rq.subjects ==> exists r :: r in userRecords && r.id == id
      modifies this, locks
      ensures Valid()
      ensures store == Executed(old(store), rq)
      ensures locks.holds == WithNewLock(old(store), old(locks.holds), rq)
      ensures Replies(rq, store, data)
    {
      hide Changed, Created;
      match rq.kind {
        case UpdateRequest =>
          var modified := UpdateData(rq.change);
          data := [modified];
        case CreateRequest =>
          var created := Created(rq.change);
          Add(created);
          data := [created];
        case ReadRequest =>
          data := Requested(userRecords, rq.subjects);
      }
    }

    method UpdateData(change: Change) returns (modified: Record)
      requires Valid() && change.id in store
      modifies this`store
      ensures Valid()
      ensures store == old(store)[change.id := Changed(old(store)[change.id], change)]
      ensures modified == store[change.id]
    {
      hide Changed;
      modified := Changed(store[change.id], change);
      store := store[change.id := modified];
    }

    method Add(created: Record)
      requires Valid()
      modifies this`store, locks
      ensures Valid()
      ensures store == if created.id in old(store) then old(store) else old(store)[created.id := created]
      ensures locks.holds == if created.id in old(store) then old(locks.holds) else old(locks.holds)[created.id := Holds(0, 0)]
    {
      if created.id !in store {
        store := store[created.id := created];
        locks.Add(created.id);
      }
    }

    /** Takes the locks a request needs, and reads the subjects it reads without locks. */
    method Gather(rq: Request, lockNeeds: seq<Need>) returns (userRecords: seq<Record>, lockingSuccess: bool, readSuccess: bool)
      requires Valid() && Checked(rq) && lockNeeds == TakenNeeds(rq)
      modifies locks
      ensures Valid()
      ensures lockingSuccess == NeedsKnown(store, rq) && readSuccess == !ReadFails(store, rq)
      ensures locks.holds == Locked(old(locks.holds), lockNeeds)
      ensures forall r :: r in userRecords ==> r.id in store && store[r.id] == r
      ensures forall n :: n in lockNeeds && n.id in store ==> store[n.id] in userRecords
      ensures rq.kind.ReadRequest? && lockingSuccess && readSuccess ==>
                forall id :: id in rq.subjects ==> id in store && store[id] in userRecords
    {
      userRecords, lockingSuccess := [], true;
      NothingToLock(locks.holds);
      if |lockNeeds| != 0 {
        userRecords, lockingSuccess := LockUsers(lockNeeds);
      }
      readSuccess := true;
      if rq.kind == ReadRequest && !rq.readLock {
        var unlocked;
        unlocked, readSuccess := ReadUserRecordsByIds(rq.subjects);
        userRecords := userRecords + unlocked;
      }
      SubjectsTaken(rq);
    }

    method Release(lockNeeds: seq<Need>)
      requires Valid() && Known(locks.holds, lockNeeds)
      modifies locks
      ensures Valid() && locks.holds == Unlocked(old(locks.holds), lockNeeds)
    {
      NothingToLock(locks.holds);
      if |lockNeeds| != 0 {
        var isUnlocked := locks.Unlock(lockNeeds);
        if !isUnlocked {
          assert false;  // records are never removed, so what was locked can be unlocked
        }
      }
    }

    method LockNeedsToTake(rq: Request) returns (lockNeeds: seq<Need>, withoutSubjectReadLocks: seq<Need>)
      requires Checked(rq)
      ensures lockNeeds == TakenNeeds(rq)
      ensures rq.kind.ReadRequest? ==> withoutSubjectReadLocks == SignerNeeds(rq)
      ensures forall n :: n in lockNeeds <==>
                || (!rq.skipPermissions && n.mode.Read? && (n.id == rq.signers.value.issuerId || n.id == rq.signers.value.certifierId))
                || (rq.kind.UpdateRequest? && n.mode.Write? && n.id == rq.change.id)
                || (rq.kind.ReadRequest? && rq.readLock && n.mode.Read? && n.id in rq.subjects)
    {
      lockNeeds := [];
      if !rq.skipPermissions {
        lockNeeds := [Need(Read, rq.signers.value.issuerId), Need(Read, rq.signers.value.certifierId)];
      }
      if rq.kind == UpdateRequest {
        lockNeeds := lockNeeds + [Need(Write, rq.change.id)];
      }
      withoutSubjectReadLocks := lockNeeds;
      if rq.kind == ReadRequest && rq.readLock {
        lockNeeds := lockNeeds + Reads(rq.subjects);
      }
      NeedsExactly(rq);
    }

    method LockNeedsToReturn(rq: Request, taken: seq<Need>, withoutSubjectReadLocks: seq<Need>) returns (lockNeeds: seq<Need>)
      requires Checked(rq) && taken == TakenNeeds(rq)
      requires rq.kind.ReadRequest? ==> withoutSubjectReadLocks == SignerNeeds(rq)
      ensures lockNeeds == ReturnedNeeds(rq)
      ensures forall n :: n in lockNeeds <==>
                || (!rq.skipPermissions && n.mode.Read? && (n.id == rq.signers.value.issuerId || n.id == rq.signers.value.certifierId))
                || (rq.kind.UpdateRequest? && n.mode.Write? && n.id == rq.change.id)
                || (rq.kind.ReadRequest? && rq.readUnlock && n.mode.Read? && n.id in rq.subjects)
    {
      lockNeeds := taken;
      if rq.kind == ReadRequest && !rq.readLock && rq.readUnlock {
        lockNeeds := lockNeeds + Reads(rq.subjects);
      }
      if rq.kind == ReadRequest && rq.readLock && !rq.readUnlock {
        lockNeeds := withoutSubjectReadLocks;
      }
      NeedsExactly(rq);
    }

    /** Runs a permitted request and gives back the locks it does not keep. */
    method Conclude(rq: Request, userRecords: seq<Record>, taken: seq<Need>, signerNeeds: seq<Need>) returns (data: seq<Record>)
      requires Valid() && Checked(rq) && taken == TakenNeeds(rq)
      requires rq.kind.ReadRequest? ==> signerNeeds == SignerNeeds(rq)
      requires NeedsKnown(store, rq) && !ReadFails(store, rq)
      requires forall r :: r in userRecords ==> r.id in store && store[r.id] == r
      requires rq.kind.ReadRequest? ==> forall id :: id in rq.subjects ==> id in store && store[id] in userRecords
      modifies this, locks
      ensures Valid()
      ensures rq.kind.UpdateRequest? ==> rq.change.id in old(store)
      ensures store == Executed(old(store), rq)
      ensures locks.holds == Unlocked(WithNewLock(old(store), old(locks.holds), rq), ReturnedNeeds(rq))
      ensures Replies(rq, store, data)
    {
      hide Changed, Created;
      TakenIsKnown(rq, store, locks.holds);
      data := Execute(rq, userRecords);
      var lockNeeds := LockNeedsToReturn(rq, taken, signerNeeds);
      Release(lockNeeds);
    }

    /** Locks, checks, runs and unlocks. */
    method Serve(rq: Request) returns (result: Result, data: seq<Record>)
      requires Valid() && Checked(rq)
      modifies this, locks
      ensures Valid()
      ensures result == Answer(old(store), rq)
      ensures store == StoreAfter(old(store), rq)
      ensures Accounted(old(store), old(locks.holds), rq, store, locks.holds)
      ensures result != Success ==> data == []
      ensures result == Success ==> Replies(rq, store, data)
    {
      hide Answer, Accounted, LocksAfter, StoreAfter, WithNewLock, Executed, Permitted, Replies, TakenNeeds, ReturnedNeeds, NeedsKnown, ReadFails, Locked, Unlocked;
      ghost var locks0 := locks.holds;
      var lockNeeds, withoutSubjectReadLocks := LockNeedsToTake(rq);
      var userRecords, lockingSuccess, readSuccess := Gather(rq, lockNeeds);
      var issuerIndex, certifierIndex := FindSigners(userRecords, rq.signers);
      SignersFound(rq, store, userRecords);
      if !lockingSuccess || !readSuccess {
        FailedOutcome(store, locks0, rq);
        if !rq.skipPermissions && issuerIndex == -1 {
          return IssuerUnknown, [];
        }
        if !rq.skipPermissions && certifierIndex == -1 {
          return CertifierUnknown, [];
        }
        return SubjectUnknown, [];
      }
      TakenIsKnown(rq, store, locks.holds);
      if !rq.skipPermissions && !Permitted(userRecords[certifierIndex], rq) {
        RefusedOutcome(store, locks0, rq);
        Release(lockNeeds);
        return CertifierPermissions, [];
      }
      PermittedOutcome(store, locks0, rq);
      data := Conclude(rq, userRecords, lockNeeds, withoutSubjectReadLocks);
      result := Success;
    }

    /** One request: how it ends, what it stores, and which locks it leaves. */
    method Work(rq: Request) returns (result: Result, data: seq<Record>)
      requires Valid() && Checked(rq)
      modifies this, locks
      ensures Valid()
      ensures result == Answer(old(store), rq)
      ensures store == StoreAfter(old(store), rq)
      ensures Accounted(old(store), old(locks.holds), rq, store, locks.holds)
      ensures result != Success ==> data == []
      ensures result == Success ==> Replies(rq, store, data)
      ensures result == IssuerUnknown <==> !rq.skipPermissions && rq.signers.value.issuerId !in old(store)
      ensures result == CertifierUnknown <==>
                !rq.skipPermissions && rq.signers.value.issuerId in old(store) && rq.signers.value.certifierId !in old(store)
      ensures result == Success || result == CertifierPermissions <==>
                && (!rq.skipPermissions ==> rq.signers.value.issuerId in old(store) && rq.signers.value.certifierId in old(store))
                && (rq.kind.UpdateRequest? ==> rq.change.id in old(store))
                && (rq.kind.ReadRequest? ==> forall id :: id in rq.subjects ==> id in old(store))
      ensures result != UnlockingFailed
      ensures result == CertifierPermissions ==> !rq.skipPermissions
      ensures !rq.skipPermissions && (result == Success || result == CertifierPermissions) ==>
                var certifier := old(store)[rq.signers.value.certifierId];
                && (rq.kind.CreateRequest? ==> (result == Success <==> certifier.registers[UserAdd].value == Flag(true)))
                && (rq.kind.ReadRequest? ==> (result == Success <==> certifier.registers[UserRead].value == Flag(true)))
                && (rq.kind.UpdateRequest? ==>
                      (result == Success <==>
                       && (Active in rq.change.fields ==> certifier.registers[UserRemove].value == Flag(true))
                       && (EncKey in rq.change.fields ==>
                             certifier.registers[EncKeyUpdate].value == Flag(true) || rq.change.id == certifier.id)
                       && (SignKey in rq.change.fields ==>
                             certifier.registers[SignKeyUpdate].value == Flag(true) || rq.change.id == certifier.id)
                       && ((exists f :: f in rq.change.fields && f != Active && f != EncKey && f != SignKey) ==>
                             certifier.registers[PermissionsUpdate].value == Flag(true))))
      ensures forall id :: id in old(store) ==>
                id in store && (store[id] == old(store)[id] || (result == Success && rq.kind.UpdateRequest? && id == rq.change.id))
      ensures forall id :: id in store && id !in old(store) ==>
                && result == Success && rq.kind.CreateRequest? && id == rq.change.id && store[id].createdAt == rq.change.timestamp
                && (rq.change.timestamp > ZERO_TIME ==>
                      forall f: Field :: store[id].registers[f] == Register(rq.change.data[f], rq.change.timestamp))
      ensures result == Success && rq.kind.CreateRequest? ==> rq.change.id in store
      ensures result == Success && rq.kind.UpdateRequest? ==>
                var before := old(store)[rq.change.id];
                forall f: Field :: store[rq.change.id].registers[f] ==
                  if f in rq.change.fields && before.registers[f].updatedAt < rq.change.timestamp
                  then Register(rq.change.data[f], rq.change.timestamp) else before.registers[f]
      ensures result == Success && rq.kind.UpdateRequest? ==> data == [store[rq.change.id]]
      ensures result == Success && rq.kind.CreateRequest? ==>
                |data| == 1 && data[0].id == rq.change.id && data[0].createdAt == rq.change.timestamp
      ensures result == Success && rq.kind.ReadRequest? ==>
                |data| == |rq.subjects| && forall i :: 0 <= i < |data| ==> data[i] == store[rq.subjects[i]]
      ensures forall id :: id in old(store) ==> locks.holds[id] == LocksAfter(old(store), old(locks.holds), rq)[id]
      ensures forall id :: id in store && id !in old(store) ==> locks.holds[id].readers == 0 && locks.holds[id].writers == 0
      ensures (result == Success && (rq.kind.ReadRequest? ==> rq.readLock == rq.readUnlock)) || result == CertifierPermissions ==>
                forall id :: id in old(store) ==> locks.holds[id] == old(locks.holds)[id]
    {
      ghost var before, locksBefore := store, locks.holds;
      AnswerExactly(before, rq);
      StoreExactly(before, rq);
      WholeRequestsBalance(before, locksBefore, rq);
      hide Answer, StoreAfter, LocksAfter;
      result, data := Serve(rq);
    }
  }

  /** Signers are found among the gathered records exactly when they are stored. */
  lemma SignersFound(rq: Request, store: Store, records: seq<Record>)
    requires Checked(rq)
    requires forall r :: r in records ==> r.id in store && store[r.id] == r
    requires forall id :: id in store ==> store[id].id == id
    requires forall n :: n in TakenNeeds(rq) && n.id in store ==> store[n.id] in records
    ensures !rq.skipPermissions ==>
              && ((forall r :: r in records ==> r.id != rq.signers.value.issuerId) <==> rq.signers.value.issuerId !in store)
              && ((forall r :: r in records ==> r.id != rq.signers.value.certifierId) <==> rq.signers.value.certifierId !in store)
  {
    if !rq.skipPermissions {
      assert SignerNeeds(rq)[0] in TakenNeeds(rq) && SignerNeeds(rq)[1] in TakenNeeds(rq);
    }
  }

  /** How a request ends, by what is stored and by the permissions of its certifier. */
  lemma AnswerExactly(store: Store, rq: Request)
    requires Checked(rq)
    ensures Answer(store, rq) == IssuerUnknown <==> !rq.skipPermissions && rq.signers.value.issuerId !in store
    ensures Answer(store, rq) == CertifierUnknown <==>
              !rq.skipPermissions && rq.signers.value.issuerId in store && rq.signers.value.certifierId !in store
    ensures Answer(store, rq) == Success || Answer(store, rq) == CertifierPermissions <==>
              && (!rq.skipPermissions ==> rq.signers.value.issuerId in store && rq.signers.value.certifierId in store)
              && (rq.kind.UpdateRequest? ==> rq.change.id in store)
              && (rq.kind.ReadRequest? ==> forall id :: id in rq.subjects ==> id in store)
    ensures Answer(store, rq) != UnlockingFailed
    ensures Answer(store, rq) == CertifierPermissions ==> !rq.skipPermissions
    ensures !rq.skipPermissions && (Answer(store, rq) == Success || Answer(store, rq) == CertifierPermissions) ==>
              var certifier := store[rq.signers.value.certifierId];
              && (rq.kind.CreateRequest? ==> (Answer(store, rq) == Success <==> certifier.registers[UserAdd].value == Flag(true)))
              && (rq.kind.ReadRequest? ==> (Answer(store, rq) == Success <==> certifier.registers[UserRead].value == Flag(true)))
              && (rq.kind.UpdateRequest? ==>
                    (Answer(store, rq) == Success <==>
                     && (Active in rq.change.fields ==> certifier.registers[UserRemove].value == Flag(true))
                     && (EncKey in rq.change.fields ==>
                           certifier.registers[EncKeyUpdate].value == Flag(true) || rq.change.id == certifier.id)
                     && (SignKey in rq.change.fields ==>
                           certifier.registers[SignKeyUpdate].value == Flag(true) || rq.change.id == certifier.id)
                     && ((exists f :: f in rq.change.fields && f != Active && f != EncKey && f != SignKey) ==>
                           certifier.registers[PermissionsUpdate].value == Flag(true))))
  {
    NeedsExactly(rq);
    hide TakenNeeds, ReturnedNeeds;
    if !rq.skipPermissions {
      assert Need(Read, rq.signers.value.issuerId) in TakenNeeds(rq) && Need(Read, rq.signers.value.certifierId) in TakenNeeds(rq);
    }
    assert rq.kind.UpdateRequest? ==> Need(Write, rq.change.id) in TakenNeeds(rq);
    assert rq.kind.ReadRequest? && rq.readLock ==> forall id :: id in rq.subjects ==> Need(Read, id) in TakenNeeds(rq);
  }

  function WithGrant(r: Record, p: Field, ok: bool, t: Time): Record {
    r.(registers := r.registers[p := Register(Flag(ok), t)])
  }

  /** Granting its certifier a permission changes the answer to an update exactly if the permission is asked
      for by a field the update names, and nothing else is missing. */
  lemma GrantDecidesItsFields(store: Store, rq: Request, p: Field, t: Time)
    requires Checked(rq) && rq.kind.UpdateRequest? && !rq.skipPermissions && rq.change.id in store
    requires rq.signers.value.issuerId in store && rq.signers.value.certifierId in store
    ensures
      var id, named := rq.signers.value.certifierId, rq.change.fields;
      var denied, granted := store[id := WithGrant(store[id], p, false, t)], store[id := WithGrant(store[id], p, true, t)];
      Answer(denied, rq) != Answer(granted, rq)
      <==> && Answer(granted, rq) == Success
           && (|| (p == UserRemove && Active in named)
               || (p == EncKeyUpdate && EncKey in named && rq.change.id != store[id].id)
               || (p == SignKeyUpdate && SignKey in named && rq.change.id != store[id].id)
               || (p == PermissionsUpdate && exists f :: f in named && f != Active && f != EncKey && f != SignKey))
  {
    var id := rq.signers.value.certifierId;
    AnswerExactly(store[id := WithGrant(store[id], p, false, t)], rq);
    AnswerExactly(store[id := WithGrant(store[id], p, true, t)], rq);
    hide Answer;
  }

  /** What a request stores: one created or changed user, and nobody else is touched. */
  lemma StoreExactly(store: Store, rq: Request)
    requires Checked(rq)
    ensures forall id :: id in store ==>
              && id in StoreAfter(store, rq)
              && (|| StoreAfter(store, rq)[id] == store[id]
                  || (Answer(store, rq) == Success && rq.kind.UpdateRequest? && id == rq.change.id))
    ensures forall id :: id in StoreAfter(store, rq) && id !in store ==>
              && Answer(store, rq) == Success && rq.kind.CreateRequest? && id == rq.change.id
              && StoreAfter(store, rq)[id].createdAt == rq.change.timestamp
              && (rq.change.timestamp > ZERO_TIME ==>
                    forall f: Field :: StoreAfter(store, rq)[id].registers[f] == Register(rq.change.data[f], rq.change.timestamp))
    ensures Answer(store, rq) == Success && rq.kind.CreateRequest? ==> rq.change.id in StoreAfter(store, rq)
    ensures Answer(store, rq) == Success && rq.kind.UpdateRequest? ==>
              var before := store[rq.change.id];
              forall f: Field :: StoreAfter(store, rq)[rq.change.id].registers[f] ==
                if f in rq.change.fields && before.registers[f].updatedAt < rq.change.timestamp
                then Register(rq.change.data[f], rq.change.timestamp) else before.registers[f]
  {
    AnswerExactly(store, rq);
    hide Answer;
  }

  /** Unlocking whatever was locked with the same needs gives every lock back. */
  lemma SameNeedsBalance(store: Store, locks: Table, rq: Request)
    requires Checked(rq) && store.Keys == locks.Keys
    requires NeedsKnown(store, rq) && !ReadFails(store, rq)
    requires Answer(store, rq) == CertifierPermissions || !rq.kind.ReadRequest? || rq.readLock == rq.readUnlock
    ensures LocksAfter(store, locks, rq) == locks
  {
    UnlockUndoesLock(locks, TakenNeeds(rq), TakenNeeds(rq));
    assert Answer(store, rq) != CertifierPermissions ==> ReturnedNeeds(rq) == TakenNeeds(rq);
  }

  lemma WholeRequestsBalance(store: Store, locks: Table, rq: Request)
    requires Checked(rq) && store.Keys == locks.Keys
    ensures
      || Answer(store, rq) == CertifierPermissions
      || (Answer(store, rq) == Success && (rq.kind.ReadRequest? ==> rq.readLock == rq.readUnlock))
      ==> LocksAfter(store, locks, rq) == locks
  {
    if Answer(store, rq) == CertifierPermissions
      || (Answer(store, rq) == Success && (rq.kind.ReadRequest? ==> rq.readLock == rq.readUnlock)) {
      SameNeedsBalance(store, locks, rq);
    }
  }

  lemma FailedOutcome(store: Store, locks: Table, rq: Request)
    requires Checked(rq) && store.Keys == locks.Keys && (!NeedsKnown(store, rq) || ReadFails(store, rq))
    ensures Answer(store, rq) ==
              if !rq.skipPermissions && rq.signers.value.issuerId !in store then IssuerUnknown
              else if !rq.skipPermissions && rq.signers.value.certifierId !in store then CertifierUnknown
              else SubjectUnknown
    ensures StoreAfter(store, rq) == store && LocksAfter(store, locks, rq) == Locked(locks, TakenNeeds(rq))
    ensures Accounted(store, locks, rq, store, LocksAfter(store, locks, rq))
  {
  }

  lemma RefusedOutcome(store: Store, locks: Table, rq: Request)
    requires Checked(rq) && store.Keys == locks.Keys && NeedsKnown(store, rq) && !ReadFails(store, rq) && !rq.skipPermissions
    requires rq.signers.value.certifierId in store && !Permitted(store[rq.signers.value.certifierId], rq)
    ensures Answer(store, rq) == CertifierPermissions && StoreAfter(store, rq) == store
    ensures LocksAfter(store, locks, rq) == Unlocked(Locked(locks, TakenNeeds(rq)), TakenNeeds(rq))
    ensures Accounted(store, locks, rq, store, LocksAfter(store, locks, rq))
  {
  }

  lemma PermittedOutcome(store: Store, locks: Table, rq: Request)
    requires Checked(rq) && store.Keys == locks.Keys && NeedsKnown(store, rq) && !ReadFails(store, rq)
    requires rq.kind.UpdateRequest? ==> rq.change.id in store
    requires !rq.skipPermissions ==>
               rq.signers.value.certifierId in store && Permitted(store[rq.signers.value.certifierId], rq)
    ensures Answer(store, rq) == Success
    ensures StoreAfter(store, rq) == Executed(store, rq)
    ensures Executed(store, rq).Keys == WithNewLock(store, Locked(locks, TakenNeeds(rq)), rq).Keys
    ensures
      var taken := WithNewLock(store, Locked(locks, TakenNeeds(rq)), rq);
      Accounted(store, locks, rq, Executed(store, rq), Unlocked(taken, ReturnedNeeds(rq)))
  {
    hide Changed, Created, Locked, Unlocked;
    TakenIsKnown(rq, store, Locked(locks, TakenNeeds(rq)));
    NewRecordUnrelated(Locked(locks, TakenNeeds(rq)), ReturnedNeeds(rq), rq.change.id);
    assert rq.kind.UpdateRequest? ==> Need(Write, rq.change.id) in TakenNeeds(rq);
  }

  /** What is taken and what is given back has records, if nothing was found missing. */
  lemma TakenIsKnown(rq: Request, store: Store, locks: Table)
    requires Checked(rq) && store.Keys == locks.Keys
    requires NeedsKnown(store, rq) && !ReadFails(store, rq)
    ensures Known(locks, TakenNeeds(rq)) && Known(locks, ReturnedNeeds(rq))
    ensures rq.kind.UpdateRequest? ==> rq.change.id in store
    ensures !rq.skipPermissions ==> rq.signers.value.issuerId in store && rq.signers.value.certifierId in store
  {
    assert !rq.skipPermissions ==> SignerNeeds(rq)[0] in TakenNeeds(rq) && SignerNeeds(rq)[1] in TakenNeeds(rq);
    assert rq.kind.UpdateRequest? ==> Need(Write, rq.change.id) in TakenNeeds(rq);
    forall n | n in SignerNeeds(rq) ensures n in TakenNeeds(rq) {}
    forall n | n in Reads(rq.subjects) ensures n.id in rq.subjects {}
  }
}
