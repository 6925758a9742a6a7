/** The decryptor's decision about an operation, and the way of an operation through buffering. */
module Decryptor {
  import opened Common
  import opened Operations
  import CS = ChannelServer
  import CR = ChannelRuns

  datatype Error = TransactionDecryptionError | PermanentDecryptionError | VerificationError | ExecutorError

  /** What is handed to the executor; a failed operation comes without plaintext. */
  datatype Handover = Handover(isVerified: bool, signers: Option<Signers>, plaintext: Option<string>, failed: Option<Operation>)
  datatype Verdict = Refused(error: Error) | Passed(handover: Handover)

  /** A request carries a transaction, which may hide an operation or not, or an operation. */
  datatype Source = Transaction(hidden: Option<Operation>) | Direct(operation: Operation)

  function Unwrapped(source: Source): Option<Operation> {
    match source
    case Transaction(hidden) => if hidden.Some? && hidden.value.payload != "" then hidden else None
    case Direct(op) => Some(op)
  }

  /** `decrypts` and `verifies` are what the keys make of the operation. */
  function Decision(op: Operation, isVerified: bool, decrypts: bool, verifies: bool): Verdict {
    if !decrypts then
      if ShouldDrop(op) then Refused(PermanentDecryptionError)
      else Passed(Handover(isVerified, None, None, Some(Marked(op))))
    else if isVerified && !verifies then
      if ShouldDrop(op) then Refused(VerificationError)
      else Passed(Handover(isVerified, None, None, Some(Marked(op))))
    else
      Passed(Handover(isVerified, if isVerified then Some(Signers(op.issuerId, op.certifierId)) else None, Some(op.payload), None))
  }

  method Work(source: Source, isVerified: bool, decrypts: bool, verifies: bool, accepts: bool) returns (verdict: Verdict)
    ensures verdict ==
              if Unwrapped(source).None? then Refused(TransactionDecryptionError)
              else
                var d := Decision(Unwrapped(source).value, isVerified, decrypts, verifies);
                if d.Passed? && !accepts then Refused(ExecutorError) else d
    ensures source.Transaction? && (source.hidden.None? || source.hidden.value.payload == "") ==>
              verdict == Refused(TransactionDecryptionError)
    ensures source.Direct? || (source.hidden.Some? && source.hidden.value.payload != "") ==>
              var o := if source.Direct? then source.operation else source.hidden.value;
              var readable, signed := decrypts, !isVerified || verifies;
              if readable && signed then
                verdict == if !accepts then Refused(ExecutorError)
                           else if isVerified then Passed(Handover(true, Some(Signers(o.issuerId, o.certifierId)), Some(o.payload), None))
                           else Passed(Handover(false, None, Some(o.payload), None))
              else if o.requestType == AddMessageType && !o.buffered then
                verdict == if !accepts then Refused(ExecutorError)
                           else Passed(Handover(isVerified, None, None, Some(o.(buffered := true))))
              else
                verdict == Refused(if readable then VerificationError else PermanentDecryptionError)
  {
    var operation: Operation;
    match source {
      case Transaction(hidden) =>
        if hidden.None? || |hidden.value.payload| == 0 {
          return Refused(TransactionDecryptionError);
        }
        operation := hidden.value;
      case Direct(op) =>
        operation := op;
    }
    var plaintext := if decrypts then Some(operation.payload) else None;
    var droppable := ShouldDrop(operation);
    if !decrypts && droppable {
      return Refused(PermanentDecryptionError);
    }
    var signers: Option<Signers>, verificationSuccess := None, true;
    if isVerified && decrypts {
      verificationSuccess := verifies;
      if !verificationSuccess && droppable {
        return Refused(VerificationError);
      }
      if verificationSuccess {
        signers := Some(Signers(operation.issuerId, operation.certifierId));
      }
    }
    var failed: Option<Operation> := None;
    if !decrypts || !verificationSuccess {
      plaintext := None;
      failed := Some(Marked(operation));
    }
    if !accepts {
      return Refused(ExecutorError);
    }
    return Passed(Handover(isVerified, signers, plaintext, failed));
  }

  /** A verified request reaches the executor with a failed operation, marked and otherwise unchanged, or with
      the plaintext and with the signers of the operation in their roles, and never with both. */
  lemma HandoverIsComplete(op: Operation, isVerified: bool, decrypts: bool, verifies: bool)
    requires Decision(op, isVerified, decrypts, verifies).Passed?
    ensures
      var h := Decision(op, isVerified, decrypts, verifies).handover;
      && (isVerified ==> (h.failed.Some? <==> h.signers.None?))
      && (h.plaintext.Some? <==> h.failed.None?)
      && (h.signers.Some? ==> h.signers.value.issuerId == op.issuerId && h.signers.value.certifierId == op.certifierId)
      && (h.plaintext.Some? ==> h.plaintext.value == op.payload)
      && (h.failed.Some? ==> op.requestType.AddMessageType? && !op.buffered && h.failed.value == op.(buffered := true))
  {
  }

  // ---------------------------------------------------------------- the way of one operation

  /** Where an operation is. */
  datatype Place =
    | AtDecryptor(op: Operation, isVerified: bool)
    | AtExecutor(op: Operation, failed: bool)
    | InBuffer(op: Operation)
    | Finished

  /** `entries` counts how often the operation entered the decryptor. */
  datatype Journey = Journey(place: Place, entries: nat)

  /** What the environment decides at a step: the keys, whether the next component takes the request,
      and whether the channel is still waiting for its opening. */
  datatype Choice = Choice(decrypts: bool, verifies: bool, accepted: bool, channelBuffered: bool)

  function Begun(op: Operation, isVerified: bool): Journey {
    Journey(AtDecryptor(op, isVerified), 1)
  }

  function Step(j: Journey, c: Choice): Journey {
    match j.place
    case AtDecryptor(op, isVerified) =>
      var d := Decision(op, isVerified, c.decrypts, c.verifies);
      if d.Refused? || !c.accepted then j.(place := Finished)
      else if d.handover.failed.Some? then j.(place := AtExecutor(d.handover.failed.value, true))
      else j.(place := AtExecutor(op, false))
    case AtExecutor(op, failed) =>
      if !c.accepted || !failed then j.(place := Finished)
      else if c.channelBuffered then j.(place := InBuffer(Marked(op)))
      else Journey(AtDecryptor(Marked(op), true), j.entries + 1)
    case InBuffer(op) =>
      if c.accepted then Journey(AtDecryptor(op, true), j.entries + 1) else j
    case Finished => j
  }

  function Travel(j: Journey, choices: seq<Choice>): Journey {
    if choices == [] then j else Step(Travel(j, choices[..|choices| - 1]), choices[|choices| - 1])
  }

  /** What an operation can still do, by where it is and whether it is marked. */
  predicate OnTrack(j: Journey) {
    match j.place
    case AtDecryptor(op, _) => j.entries == 1 || (j.entries == 2 && op.buffered)
    case AtExecutor(op, failed) => j.entries == 1 || (j.entries == 2 && !failed)
    case InBuffer(op) => j.entries == 1 && op.buffered
    case Finished => 1 <= j.entries <= 2
  }

  /** Steps left; waiting in the buffer does not use any up. */
  function Distance(j: Journey): nat
    requires OnTrack(j)
  {
    match j.place
    case AtDecryptor(_, _) => if j.entries == 1 then 5 else 2
    case AtExecutor(_, _) => if j.entries == 1 then 4 else 1
    case InBuffer(_) => 3
    case Finished => 0
  }

  lemma StepAdvances(j: Journey, c: Choice)
    requires OnTrack(j)
    ensures OnTrack(Step(j, c))
    ensures Step(j, c) != j ==> Distance(Step(j, c)) < Distance(j)
    ensures Step(j, c) == j ==> j.place.Finished? || (j.place.InBuffer? && !c.accepted)
  {
  }

  /** How many of the choices moved the operation. */
  function Moves(j: Journey, choices: seq<Choice>): nat {
    if choices == [] then 0
    else
      var m := Travel(j, choices[..|choices| - 1]);
      Moves(j, choices[..|choices| - 1]) + (if Step(m, choices[|choices| - 1]) != m then 1 else 0)
  }

  /** Whatever the keys, the components and the channel do, an operation enters the decryptor at most
      twice and comes to rest after at most five moves. */
  lemma {:induction false} OperationsDoNotCirculate(op: Operation, isVerified: bool, choices: seq<Choice>)
    ensures
      var j := Travel(Begun(op, isVerified), choices);
      OnTrack(j) && 1 <= j.entries <= 2 && Moves(Begun(op, isVerified), choices) + Distance(j) <= 5
  {
    if choices != [] {
      var n := |choices| - 1;
      OperationsDoNotCirculate(op, isVerified, choices[..n]);
      StepAdvances(Travel(Begun(op, isVerified), choices[..n]), choices[n]);
    }
  }

  // ---------------------------------------------------------------- what channels feed back

  lemma {:induction false} ArrivalsAreMarked(rqs: seq<CS.Request>)
    ensures forall op :: op in CR.Arrivals(rqs) ==> op.buffered
  {
    if rqs != [] {
      ArrivalsAreMarked(rqs[..|rqs| - 1]);
    }
  }

  /** Whatever a run of the channel daemons feeds back is handed over with its signers and plaintext if it
      decrypts and verifies, and refused otherwise: it is never buffered again. */
  lemma FedOperationsNeverReturn(id: string, rqs: seq<CS.Request>, op: Operation, decrypts: bool, verifies: bool)
    requires !CS.Run(CS.Initial(id), rqs).crashed && op in CS.Run(CS.Initial(id), rqs).fed
    ensures
      var d := Decision(op, true, decrypts, verifies);
      && (d.Passed? <==> decrypts && verifies)
      && (d.Passed? ==> d.handover == Handover(true, Some(Signers(op.issuerId, op.certifierId)), Some(op.payload), None))
  {
    if CR.NoOpening(rqs) {
      CR.WaitsBeforeOpening(id, rqs);
    } else {
      var pre, o, post := CR.HasFirstOpening(rqs);
      CR.FedExactly(id, pre, o, post);
      ArrivalsAreMarked(pre);
      ArrivalsAreMarked(post);
    }
  }
}
