/** Which requests to the users daemon leave locks behind, and how split reads pair up. */
module UserLocks {
  import opened Common
  import opened LockNeeds
  import opened UserRecord
  import opened UserServer

  /** Whether the certifier of a read is granted it. */
  predicate MayRead(store: Store, rq: Request)
    requires Checked(rq) && SignerIds(rq) <= store.Keys
  {
    rq.skipPermissions || Granted(store[rq.signers.value.certifierId], UserRead)
  }

  /** A read that is granted and finds everybody. */
  predicate ReadRuns(store: Store, rq: Request)
    requires Checked(rq)
  {
    && rq.kind.ReadRequest? && SignerIds(rq) <= store.Keys && MayRead(store, rq)
    && forall id :: id in rq.subjects ==> id in store
  }

  lemma ReadRunsExactly(store: Store, rq: Request)
    requires Checked(rq) && rq.kind.ReadRequest?
    ensures Answer(store, rq) == Success <==> ReadRuns(store, rq)
  {
    SubjectsTaken(rq);
    assert !rq.skipPermissions ==> SignerNeeds(rq)[0] in TakenNeeds(rq) && SignerNeeds(rq)[1] in TakenNeeds(rq);
  }

  /** A read without locks of a missing user, made in the name of known signers. */
  predicate AbandonsSigners(store: Store, rq: Request)
    requires Checked(rq)
  {
    ReadFails(store, rq) && !rq.skipPermissions && SignerIds(rq) <= store.Keys
  }

  /** The extra readers a request leaves on one lock; negative when it gives back more than it took. */
  function Left(store: Store, rq: Request, id: string): int
    requires Checked(rq)
  {
    if AbandonsSigners(store, rq) then
      if id in SignerIds(rq) then 1 else 0
    else if ReadRuns(store, rq) && id in rq.subjects && id !in SignerIds(rq) then
      (if rq.readLock then 1 else 0) - (if rq.readUnlock then 1 else 0)
    else 0
  }

  lemma ReadNeeds(rq: Request, id: string, extra: seq<string>)
    requires Checked(rq)
    ensures
      var s := Strongest(Elements(SignerNeeds(rq) + Reads(extra)));
      Need(Write, id) !in s && (Need(Read, id) in s <==> id in SignerIds(rq) || id in extra)
  {
    var needs := SignerNeeds(rq) + Reads(extra);
    assert forall n :: n in needs ==> n.mode.Read?;
    assert Need(Write, id) !in Elements(needs);
    assert !rq.skipPermissions ==> SignerNeeds(rq)[0] in needs && SignerNeeds(rq)[1] in needs;
    if id in extra {
      var i :| 0 <= i < |extra| && extra[i] == id;
      assert Reads(extra)[i] == Need(Read, id);
    }
    assert Need(Read, id) in needs <==> id in SignerIds(rq) || id in extra;
  }

  /** Every request, whatever the overlap between signers and subjects and however it ends: no write
      lock is left, and readers are left exactly as `Left` says. */
  lemma LocksLeft(store: Store, locks: Table, rq: Request, id: string)
    requires Checked(rq) && store.Keys == locks.Keys && id in store
    ensures LocksAfter(store, locks, rq)[id] == Holds(locks[id].readers + Left(store, rq, id), locks[id].writers)
  {
    UnlockedReadNeeds(store, rq);
    if NeedsKnown(store, rq) {
      if rq.kind.ReadRequest? {
        ReadRunsExactly(store, rq);
      }
      if ReadFails(store, rq) {
        assert TakenNeeds(rq) == SignerNeeds(rq) + Reads([]);
        ReadNeeds(rq, id, []);
        LockedPointwise(locks, TakenNeeds(rq), id);
      } else if Answer(store, rq) == CertifierPermissions || !rq.kind.ReadRequest? || rq.readLock == rq.readUnlock {
        SameNeedsBalance(store, locks, rq);
      } else {
        SplitReadLocks(store, locks, rq, id);
      }
    } else if rq.kind.ReadRequest? {
      ReadRunsExactly(store, rq);
    }
  }

  lemma SuccessfulRead(store: Store, locks: Table, rq: Request)
    requires Checked(rq) && store.Keys == locks.Keys && rq.kind.ReadRequest? && Answer(store, rq) == Success
    ensures Known(locks, TakenNeeds(rq)) && Known(locks, ReturnedNeeds(rq))
    ensures TakenNeeds(rq) == SignerNeeds(rq) + Reads(if rq.readLock then rq.subjects else [])
    ensures rq.readLock != rq.readUnlock ==> ReturnedNeeds(rq) == SignerNeeds(rq) + Reads(if rq.readLock then [] else rq.subjects)
    ensures LocksAfter(store, locks, rq) == Unlocked(Locked(locks, TakenNeeds(rq)), ReturnedNeeds(rq))
  {
    TakenIsKnown(rq, store, locks);
    assert SignerNeeds(rq) == SignerNeeds(rq) + Reads([]);
  }

  lemma SplitReadLocks(store: Store, locks: Table, rq: Request, id: string)
    requires Checked(rq) && store.Keys == locks.Keys && id in store && rq.kind.ReadRequest? && rq.readLock != rq.readUnlock
    requires Answer(store, rq) == Success
    ensures LocksAfter(store, locks, rq)[id]
            == Holds(locks[id].readers + (if id in rq.subjects && id !in SignerIds(rq) then (if rq.readLock then 1 else -1) else 0),
                     locks[id].writers)
  {
    SuccessfulRead(store, locks, rq);
    hide Answer, LocksAfter, Locked, Unlocked, TakenNeeds, ReturnedNeeds, NeedsKnown, ReadFails, Permitted, Strongest;
    ReadNeeds(rq, id, []);
    ReadNeeds(rq, id, rq.subjects);
    LockedPointwise(locks, TakenNeeds(rq), id);
    LockedPointwise(Locked(locks, TakenNeeds(rq)), ReturnedNeeds(rq), id);
  }

  /** A request that gives nothing away and keeps nothing. */
  predicate Balanced(store: Store, locks: Table, rq: Request)
    requires Checked(rq) && store.Keys == locks.Keys
  {
    forall id :: id in store ==> LocksAfter(store, locks, rq)[id] == locks[id]
  }

  /** Some requested user is not a signer. */
  predicate ReadsOthers(rq: Request)
    requires Checked(rq)
  {
    exists id :: id in rq.subjects && id !in SignerIds(rq)
  }

  /** A half of a split read that runs and names someone other than its signers. */
  predicate SplitRead(store: Store, rq: Request)
    requires Checked(rq)
  {
    ReadRuns(store, rq) && rq.readLock != rq.readUnlock && ReadsOthers(rq)
  }

  /** Requests change the hold on no lock, except exactly these two kinds: unlocked reads of a missing
      user by known signers, which never release the signers, and halves of split reads that run. */
  lemma BalancedExactly(store: Store, locks: Table, rq: Request)
    requires Checked(rq) && store.Keys == locks.Keys
    ensures Balanced(store, locks, rq) <==> !AbandonsSigners(store, rq) && !SplitRead(store, rq)
  {
    forall id | id in store
      ensures LocksAfter(store, locks, rq)[id] == Holds(locks[id].readers + Left(store, rq, id), locks[id].writers)
    {
      LocksLeft(store, locks, rq, id);
    }
    hide LocksAfter;
    if AbandonsSigners(store, rq) {
      assert Left(store, rq, rq.signers.value.issuerId) == 1;
      assert rq.signers.value.issuerId in SignerIds(rq);
    } else if SplitRead(store, rq) {
      var id :| id in rq.subjects && id !in SignerIds(rq);
      assert Left(store, rq, id) != 0;
    } else {
      forall id | id in store ensures Left(store, rq, id) == 0 {
      }
    }
  }

  lemma UnlockedReadNeeds(store: Store, rq: Request)
    requires Checked(rq)
    ensures ReadFails(store, rq) ==> (NeedsKnown(store, rq) <==> SignerIds(rq) <= store.Keys)
  {
    if ReadFails(store, rq) {
      assert TakenNeeds(rq) == SignerNeeds(rq);
      assert !rq.skipPermissions ==> SignerNeeds(rq)[0] in TakenNeeds(rq) && SignerNeeds(rq)[1] in TakenNeeds(rq);
    }
  }

  // ---------------------------------------------------------------- split reads

  /** The two halves of a split read: one that only locks, and one that only unlocks. */
  function Half(rq: Request, locking: bool): Request {
    rq.(readLock := locking, readUnlock := !locking)
  }

  /** A lock-only read that runs holds one reader on exactly the requested users that are not signers,
      however often they are named. Whatever came in between, the unlock-only read with the same signers and
      users takes that one reader back from each, if and only if its certifier may still read; it is refused
      otherwise, and they stay locked. */
  lemma SplitReadsPair(store: Store, locks: Table, rq: Request, later: Store, laterLocks: Table)
    requires Checked(rq) && ReadRuns(store, rq) && store.Keys == locks.Keys
    requires store.Keys <= later.Keys && later.Keys == laterLocks.Keys
    ensures Answer(store, Half(rq, true)) == Success && StoreAfter(store, Half(rq, true)) == store
    ensures forall id :: id in store ==>
              LocksAfter(store, locks, Half(rq, true))[id]
              == Holds(locks[id].readers + (if id in rq.subjects && id !in SignerIds(rq) then 1 else 0), locks[id].writers)
    ensures Answer(later, Half(rq, false)) == (if MayRead(later, rq) then Success else CertifierPermissions)
    ensures forall id :: id in later ==>
              LocksAfter(later, laterLocks, Half(rq, false))[id]
              == Holds(laterLocks[id].readers - (if MayRead(later, rq) && id in rq.subjects && id !in SignerIds(rq) then 1 else 0),
                       laterLocks[id].writers)
  {
    ReadRunsExactly(store, Half(rq, true));
    ReadsChangeNothing(store, Half(rq, true));
    UnlockHalfAnswers(later, rq);
    hide Answer, LocksAfter, StoreAfter, MayRead, SignerIds, ReadRuns;
    forall id | id in store
      ensures LocksAfter(store, locks, Half(rq, true))[id]
              == Holds(locks[id].readers + (if id in rq.subjects && id !in SignerIds(rq) then 1 else 0), locks[id].writers)
    {
      LockHalf(store, locks, rq, id);
    }
    forall id | id in later
      ensures LocksAfter(later, laterLocks, Half(rq, false))[id]
              == Holds(laterLocks[id].readers - (if MayRead(later, rq) && id in rq.subjects && id !in SignerIds(rq) then 1 else 0),
                       laterLocks[id].writers)
    {
      UnlockHalf(later, laterLocks, rq, id);
    }
  }

  lemma ReadsChangeNothing(store: Store, rq: Request)
    requires Checked(rq) && rq.kind.ReadRequest?
    ensures StoreAfter(store, rq) == store
  {
  }

  lemma LockHalf(store: Store, locks: Table, rq: Request, id: string)
    requires Checked(rq) && ReadRuns(store, rq) && store.Keys == locks.Keys && id in store
    ensures LocksAfter(store, locks, Half(rq, true))[id]
            == Holds(locks[id].readers + (if id in rq.subjects && id !in SignerIds(rq) then 1 else 0), locks[id].writers)
  {
    LocksLeft(store, locks, Half(rq, true), id);
    hide LocksAfter;
  }

  lemma UnlockHalf(store: Store, locks: Table, rq: Request, id: string)
    requires Checked(rq) && rq.kind.ReadRequest? && store.Keys == locks.Keys && id in store
    requires SignerIds(rq) <= store.Keys && forall id :: id in rq.subjects ==> id in store
    ensures LocksAfter(store, locks, Half(rq, false))[id]
            == Holds(locks[id].readers - (if MayRead(store, rq) && id in rq.subjects && id !in SignerIds(rq) then 1 else 0),
                     locks[id].writers)
  {
    LocksLeft(store, locks, Half(rq, false), id);
    hide LocksAfter;
    assert ReadRuns(store, Half(rq, false)) == MayRead(store, rq);
  }

  lemma UnlockHalfAnswers(store: Store, rq: Request)
    requires Checked(rq) && rq.kind.ReadRequest? && SignerIds(rq) <= store.Keys && forall id :: id in rq.subjects ==> id in store
    ensures Answer(store, Half(rq, false)) == if MayRead(store, rq) then Success else CertifierPermissions
  {
    assert TakenNeeds(Half(rq, false)) == SignerNeeds(rq);
  }

  /** What the second half gives back is what the first one took, on every lock. */
  predicate HalvesCancel(store: Store, locks: Table, rq: Request, later: Store, laterLocks: Table)
    requires Checked(rq) && store.Keys == locks.Keys && store.Keys <= later.Keys && later.Keys == laterLocks.Keys
  {
    forall id :: id in store ==>
      LocksAfter(store, locks, Half(rq, true))[id].readers - locks[id].readers
      == laterLocks[id].readers - LocksAfter(later, laterLocks, Half(rq, false))[id].readers
  }

  /** The two halves cancel out, if and only if the certifier may still read by then, or nobody but signers
      was asked for. */
  lemma HalvesCancelExactly(store: Store, locks: Table, rq: Request, later: Store, laterLocks: Table)
    requires Checked(rq) && ReadRuns(store, rq) && store.Keys == locks.Keys
    requires store.Keys <= later.Keys && later.Keys == laterLocks.Keys
    ensures HalvesCancel(store, locks, rq, later, laterLocks) <==> MayRead(later, rq) || !ReadsOthers(rq)
  {
    SplitReadsPair(store, locks, rq, later, laterLocks);
    hide LocksAfter, Answer, StoreAfter, MayRead;
    if ReadsOthers(rq) && !MayRead(later, rq) {
      var id :| id in rq.subjects && id !in SignerIds(rq);
      assert id in store;
    }
  }

  // ---------------------------------------------------------------- locks left behind

  function Administrator(id: string): Record {
    Created(Change(id, [], AllFlags(true), 1))
  }

  const STORE: Store := map["c" := Administrator("c"), "root" := Administrator("root"), "x" := Administrator("x")]
  const FREE: Table := map["c" := Holds(0, 0), "root" := Holds(0, 0), "x" := Holds(0, 0)]

  function ReadBy(signer: string, subject: string): Request {
    Request(ReadRequest, [subject], Change("", [], AllFlags(false), 0), Some(Signers(signer, signer)), false, false, false)
  }

  const REVOCATION: Request :=
    Request(UpdateRequest, [], Change("c", [UserRead], AllFlags(false), 2), Some(Signers("root", "root")), true, true, false)

  /** Between the halves of a read of x by c, root takes the permission to read away from c. The second half
      is refused and x stays read-locked. */
  lemma RevokedReadStaysLocked()
    ensures
      var rq := ReadBy("c", "x");
      var between := LocksAfter(STORE, FREE, Half(rq, true));
      var later, laterLocks := StoreAfter(STORE, REVOCATION), LocksAfter(STORE, between, REVOCATION);
      && Answer(STORE, Half(rq, true)) == Success && between["c"] == between["root"] == Holds(0, 0)
      && Answer(STORE, REVOCATION) == Success
      && Answer(later, Half(rq, false)) == CertifierPermissions
      && LocksAfter(later, laterLocks, Half(rq, false))["x"] == Holds(1, 0)
  {
    var rq := ReadBy("c", "x");
    ReadOfXRuns();
    RevocationRuns();
    hide LocksAfter, StoreAfter, Answer, STORE, ReadRuns, MayRead;
    var between := LocksAfter(STORE, FREE, Half(rq, true));
    var later, laterLocks := StoreAfter(STORE, REVOCATION), LocksAfter(STORE, between, REVOCATION);
    SplitReadsPair(STORE, FREE, rq, later, laterLocks);
    LocksLeft(STORE, between, REVOCATION, "x");
  }

  lemma ReadOfXRuns()
    ensures ReadRuns(STORE, ReadBy("c", "x")) && STORE.Keys == FREE.Keys == {"c", "root", "x"}
    ensures SignerIds(ReadBy("c", "x")) == {"c"}
  {
  }

  lemma RevocationRuns()
    ensures Answer(STORE, REVOCATION) == Success
    ensures
      var later := StoreAfter(STORE, REVOCATION);
      later.Keys == STORE.Keys && !MayRead(later, ReadBy("c", "x"))
    ensures forall id :: Left(STORE, REVOCATION, id) == 0
  {
    assert TakenNeeds(REVOCATION) == [Need(Read, "root"), Need(Read, "root"), Need(Write, "c")];
    assert Permitted(STORE["root"], REVOCATION);
  }

  /** An unlocked read of a user that does not exist leaves its signer read-locked. */
  lemma MissingUserLeavesSignerLocked()
    ensures Answer(STORE, ReadBy("c", "y")) == SubjectUnknown
    ensures LocksAfter(STORE, FREE, ReadBy("c", "y"))["c"] == Holds(1, 0)
  {
    var rq := ReadBy("c", "y");
    assert "y" in rq.subjects && "y" !in STORE;
    assert ReadFails(STORE, rq);
    LocksLeft(STORE, FREE, rq, "c");
  }
}
