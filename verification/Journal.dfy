/**
 The wallet's operation journal: one store shared by all tabs of a browser, changed by small transactions that each
 happen as a whole.
 */
module Journal {
  import opened Base
  import opened BusinessContext

  datatype Stage = Prepared | Signed | Submitted | Validated | Expired | Pending | Failed

  predicate IsTerminal(stage: Stage) {
    stage.Validated? || stage.Expired? || stage.Failed?
  }

  datatype Confirmation = PendingConfirmation | Confirmed | Refuted | Mismatch | Timeout

  datatype EventKind = Created | AcceptedKind | Deleted

  datatype Cause =
    | IssuerRevoked
    | SubjectRejected
    | SubjectRemoved
    | ExpiredCleanup
    | AccountDeleted
    | SelfDeleted

  /** A deletion cause that may be undefined, null, a cause, or an unknown text. */
  datatype CauseField = NoCause | NullCause | KnownCause(cause: Cause) | UnknownCause

  datatype Evidence = Evidence(
    transactionHash: string,
    ledgerIndex: int,
    ledgerHash: string,
    transactionIndex: int,
    schemaUid: Option<string>,
    generationId: Option<string>,
    reasonCode: Option<string>,
    eventType: Option<EventKind>,
    accepted: Option<bool>,
    deletionCause: CauseField)

  datatype Seed = Seed(
    operationId: string,
    account: string,
    profileId: string,
    networkId: int,
    transactionType: string,
    createdAt: string,
    business: Option<Context>)

  datatype Operation = Operation(
    seed: Seed,
    updatedAt: string,
    stage: Stage,
    txHash: Option<string>,
    txBlob: Option<string>,
    lastLedgerSequence: Option<int>,
    engineResult: Option<string>,
    ledgerIndex: Option<int>,
    message: Option<string>,
    confirmation: Option<Confirmation>,
    evidence: Option<Evidence>)

  datatype SignedRecord = SignedRecord(
    operationId: string,
    txBlob: string,
    txHash: string,
    lastLedgerSequence: int,
    at: string)

  datatype JournalEntry = JournalEntry(
    operationId: string,
    at: string,
    stage: Stage,
    txHash: Option<string>,
    lastLedgerSequence: Option<int>,
    engineResult: Option<string>,
    ledgerIndex: Option<int>,
    message: Option<string>)

  type Store = map<string, Operation>

  datatype JournalError =
    | ContextInvalid
    | ContextIncomplete
    | IdAlreadyExists
    | BusinessLocked
    | NotFound
    | LockOwnershipLost
    | ContextRequired
    | XrplSuccessRequired
    | LedgerIndexRequired
    | EvidenceInvalid
    | EvidenceRequired
    | EvidenceMismatch
    | AbandonNotAllowed

  // ---- Evidence ----------------------------------------------------------------------------------

  predicate IsJournalReason(s: string) {
    1 <= |s| <= 128 && forall i :: 0 <= i < |s| ==> 'A' <= s[i] <= 'Z' || '0' <= s[i] <= '9' || s[i] == '_'
  }

  predicate CauseFits(eventType: Option<EventKind>, cause: CauseField) {
    match eventType
    case None => cause.NoCause?
    case Some(Deleted) => cause.KnownCause?
    case Some(_) => cause.NullCause?
  }

  function NormalizeEvidence(e: Evidence): Option<Evidence> {
    if !IsAnyCaseHash(e.transactionHash) || e.ledgerIndex <= 0 || !IsAnyCaseHash(e.ledgerHash) || e.transactionIndex < 0
       || !OptionalDigest(e.schemaUid) || !OptionalDigest(e.generationId)
       || (e.reasonCode.Some? && !IsJournalReason(e.reasonCode.value)) || !CauseFits(e.eventType, e.deletionCause)
    then None
    else Some(e.(transactionHash := Lower(e.transactionHash), ledgerHash := Lower(e.ledgerHash),
                 schemaUid := LowerOption(e.schemaUid), generationId := LowerOption(e.generationId)))
  }

  lemma EvidenceIsIdempotent(e: Evidence)
    requires NormalizeEvidence(e).Some?
    ensures NormalizeEvidence(NormalizeEvidence(e).value) == NormalizeEvidence(e)
  {
    LowerDigest(Some(e.transactionHash));
    LowerDigest(Some(e.ledgerHash));
    LowerDigest(e.schemaUid);
    LowerDigest(e.generationId);
    var once := NormalizeEvidence(e).value;
    assert LowerOption(Some(e.transactionHash)) == Some(once.transactionHash);
    assert LowerOption(Some(e.ledgerHash)) == Some(once.ledgerHash);
    assert LowerOption(Some(once.transactionHash)) == Some(once.transactionHash);
    assert LowerOption(Some(once.ledgerHash)) == Some(once.ledgerHash);
  }

  function ExpectedCause(c: Context): CauseField {
    match c
    case GenerationBound(RejectCredential, _, _, _, _, _) => KnownCause(SubjectRejected)
    case GenerationBound(RemoveCredential, issuer, subject, _, _, _) =>
      KnownCause(if issuer == subject then IssuerRevoked else SubjectRemoved)
    case GenerationBound(RevokeCredential, _, _, _, _, _) => KnownCause(IssuerRevoked)
    case _ => NullCause
  }

  /** The evidence says what the operation was for. */
  predicate Supports(c: Context, confirmation: Confirmation, e: Evidence, hash: string) {
    && e.transactionHash == hash
    && match c
       case SchemaRegister(_, _, _) =>
         if confirmation.Confirmed? then e.schemaUid.Some? && e.reasonCode.None? else e.reasonCode.Some? && e.schemaUid.None?
       case CredentialIssue(issuer, subject, uid, _, _, _) =>
         && !confirmation.Refuted? && e.schemaUid == Some(uid)
         && e.eventType == Some(Created) && e.accepted == Some(issuer == subject)
         && e.generationId == Some(hash) && e.deletionCause == ExpectedCause(c)
       case GenerationBound(action, _, _, uid, generation, _) =>
         && !confirmation.Refuted? && e.schemaUid == Some(uid)
         && e.eventType == Some(if action.AcceptCredential? then AcceptedKind else Deleted)
         && (action.RejectCredential? ==> e.accepted == Some(false))
         && (action.AcceptCredential? || action.RemoveCredential? ==> e.accepted == Some(true))
         && e.generationId == Some(generation) && e.deletionCause == ExpectedCause(c)
       case Unreadable => false
  }

  // ---- Reading an operation -----------------------------------------------------------------------

  function ContextOf(op: Operation, rules: Rules): Option<Context> {
    if op.seed.business.None? then None else Normalize(op.seed.business.value, rules)
  }

  function KeyOf(op: Operation, rules: Rules): Option<string> {
    BusinessKey(op.seed.profileId, ContextOf(op, rules))
  }

  predicate SucceededOnLedger(op: Operation) {
    op.stage.Validated? && op.engineResult == Some("tesSUCCESS")
  }

  predicate HasLedgerIndex(op: Operation) {
    op.ledgerIndex.Some? && op.ledgerIndex.value > 0
  }

  predicate HasHash(op: Operation) {
    op.txHash.Some? && op.txHash.value != ""
  }

  /** The confirmation as shown and as used by the lock: stored claims without their evidence count as pending. */
  function ConfirmationOf(op: Operation, rules: Rules): Option<Confirmation> {
    var c := ContextOf(op, rules);
    if !IsConfirmable(c) then None
    else
      var stored := if op.confirmation.Some? then op.confirmation.value else PendingConfirmation;
      if !stored.PendingConfirmation? && !(SucceededOnLedger(op) && HasLedgerIndex(op)) then Some(PendingConfirmation)
      else if stored.Confirmed? || stored.Refuted? then
        var e := if op.evidence.Some? then NormalizeEvidence(op.evidence.value) else None;
        if e.None? || !HasHash(op) || Some(e.value.ledgerIndex) != op.ledgerIndex
           || !Supports(c.value, stored, e.value, Lower(op.txHash.value))
        then Some(PendingConfirmation) else Some(stored)
      else Some(stored)
  }

  predicate IsPreTerminal(op: Operation) {
    !IsTerminal(op.stage)
  }

  predicate HoldsLock(op: Operation, rules: Rules) {
    || IsPreTerminal(op)
    || (SucceededOnLedger(op)
        && (ConfirmationOf(op, rules) == Some(PendingConfirmation) || ConfirmationOf(op, rules) == Some(Timeout)))
  }

  predicate CanAbandon(op: Operation) {
    op.stage.Prepared? && op.txHash.None? && op.txBlob.None?
  }

  predicate IsGenerationBoundType(transactionType: string) {
    transactionType == "CredentialAccept" || transactionType == "CredentialDelete"
  }

  predicate CanRetry(op: Operation, rules: Rules) {
    && op.txBlob.Some? && op.txBlob.value != ""
    && (op.stage.Signed? || op.stage.Submitted? || op.stage.Pending?)
    && (IsGenerationBoundType(op.seed.transactionType) ==>
          ContextOf(op, rules).Some? && ContextOf(op, rules).value.GenerationBound?)
  }

  // ---- The transactions, as functions ----------------------------------------------------------------

  /** Some other operation holds the lock on this key. */
  predicate HasRival(store: Store, id: string, key: Option<string>, rules: Rules) {
    key.Some? && exists x :: x in store && x != id && HoldsLock(store[x], rules) && KeyOf(store[x], rules) == key
  }

  function NewOperation(seed: Seed, c: Option<Context>): Operation {
    Operation(seed.(business := c), seed.createdAt, Prepared, None, None, None, None, None, None,
              if c.Some? then Some(PendingConfirmation) else None, None)
  }

  function CreateIn(store: Store, seed: Seed, rules: Rules): Result<Store, JournalError> {
    var c := if seed.business.None? then None else Normalize(seed.business.value, rules);
    if seed.business.Some? && c.None? then Err(ContextInvalid)
    else if c.Some? && !IsConfirmable(c) then Err(ContextIncomplete)
    else if seed.operationId in store then Err(IdAlreadyExists)
    else if HasRival(store, seed.operationId, BusinessKey(seed.profileId, c), rules) then Err(BusinessLocked)
    else Ok(store[seed.operationId := NewOperation(seed, c)])
  }

  function SignedOperation(op: Operation, r: SignedRecord): Operation {
    op.(updatedAt := r.at, stage := Signed, txHash := Some(r.txHash), txBlob := Some(r.txBlob),
        lastLedgerSequence := Some(r.lastLedgerSequence), message := None)
  }

  function PersistSignedIn(store: Store, r: SignedRecord, rules: Rules): Result<Store, JournalError> {
    if r.operationId !in store then Err(NotFound)
    else
      var op := store[r.operationId];
      if !op.stage.Prepared? || HasRival(store, r.operationId, KeyOf(op, rules), rules) then Err(LockOwnershipLost)
      else Ok(store[r.operationId := SignedOperation(op, r)])
  }

  function Or<T>(a: Option<T>, b: Option<T>): Option<T> {
    if a.Some? then a else b
  }

  /** A terminal operation never changes again; a terminal entry drops the signed blob. */
  function AppliedEntry(op: Operation, e: JournalEntry): Operation {
    if IsTerminal(op.stage) then op
    else
      op.(updatedAt := e.at, stage := e.stage, txHash := Or(e.txHash, op.txHash),
          txBlob := if IsTerminal(e.stage) then None else op.txBlob,
          lastLedgerSequence := Or(e.lastLedgerSequence, op.lastLedgerSequence),
          engineResult := Or(e.engineResult, op.engineResult),
          ledgerIndex := Or(e.ledgerIndex, op.ledgerIndex), message := e.message)
  }

  function AppendIn(store: Store, e: JournalEntry): Result<Store, JournalError> {
    if e.operationId !in store then Err(NotFound)
    else Ok(store[e.operationId := AppliedEntry(store[e.operationId], e)])
  }

  function ConfirmIn(store: Store, id: string, confirmation: Confirmation, at: string, evidence: Option<Evidence>,
                     rules: Rules)
    : Result<Store, JournalError>
  {
    if id !in store then Err(NotFound)
    else
      var op := store[id];
      var c := ContextOf(op, rules);
      var e := if evidence.Some? then NormalizeEvidence(evidence.value) else None;
      if op.seed.business.Some? && c.None? then Err(ContextInvalid)
      else if !IsConfirmable(c) then Err(ContextRequired)
      else if !SucceededOnLedger(op) then Err(XrplSuccessRequired)
      else if !HasLedgerIndex(op) then Err(LedgerIndexRequired)
      else if evidence.Some? && e.None? then Err(EvidenceInvalid)
      else if (confirmation.Confirmed? || confirmation.Refuted?) && e.None? then Err(EvidenceRequired)
      else if e.Some? && HasHash(op) && e.value.transactionHash != Lower(op.txHash.value) then Err(EvidenceMismatch)
      else if e.Some? && Some(e.value.ledgerIndex) != op.ledgerIndex then Err(EvidenceMismatch)
      else if e.Some? && (confirmation.Confirmed? || confirmation.Refuted?) && HasHash(op)
              && !Supports(c.value, confirmation, e.value, Lower(op.txHash.value)) then Err(EvidenceMismatch)
      else Ok(store[id := op.(updatedAt := at, confirmation := Some(confirmation), evidence := Or(e, op.evidence))])
  }

  function AbandonIn(store: Store, id: string): Result<Store, JournalError> {
    if id !in store then Err(NotFound)
    else if !CanAbandon(store[id]) then Err(AbandonNotAllowed)
    else Ok(store - {id})
  }

  // ---- The journal ---------------------------------------------------------------------------------------

  class IndexedDbOperationJournal {
    const rules: Rules
    var operations: map<string, Operation>

    constructor (rules: Rules)
      ensures this.rules == rules && operations == map[]
    {
      this.rules, operations := rules, map[];
    }

    method Create(seed: Seed) returns (failure: Option<JournalError>)
      modifies this
      ensures match CreateIn(old(operations), seed, rules)
              case Ok(store) => failure.None? && operations == store
              case Err(e) => failure == Some(e) && operations == old(operations)
    {
      var business: Option<Context> := None;
      if seed.business.Some? {
        business := Normalize(seed.business.value, rules);
        if business.None? { return Some(ContextInvalid); }
        if !IsConfirmable(business) { return Some(ContextIncomplete); }
      }
      if seed.operationId in operations { return Some(IdAlreadyExists); }
      var key := BusinessKey(seed.profileId, business);
      if key.Some? && exists x :: x in operations && HoldsLock(operations[x], rules) && KeyOf(operations[x], rules) == key {
        return Some(BusinessLocked);
      }
      operations := operations[seed.operationId := NewOperation(seed, business)];
      return None;
    }

    method PersistSigned(r: SignedRecord) returns (failure: Option<JournalError>)
      modifies this
      ensures match PersistSignedIn(old(operations), r, rules)
              case Ok(store) => failure.None? && operations == store
              case Err(e) => failure == Some(e) && operations == old(operations)
    {
      if r.operationId !in operations { return Some(NotFound); }
      var existing := operations[r.operationId];
      if !existing.stage.Prepared? { return Some(LockOwnershipLost); }
      if HasRival(operations, r.operationId, KeyOf(existing, rules), rules) { return Some(LockOwnershipLost); }
      operations := operations[r.operationId := SignedOperation(existing, r)];
      return None;
    }

    method Append(e: JournalEntry) returns (failure: Option<JournalError>)
      modifies this
      ensures match AppendIn(old(operations), e)
              case Ok(store) => failure.None? && operations == store
              case Err(e) => failure == Some(e) && operations == old(operations)
    {
      if e.operationId !in operations { return Some(NotFound); }
      operations := operations[e.operationId := AppliedEntry(operations[e.operationId], e)];
      return None;
    }

    method SetBusinessConfirmation(id: string, confirmation: Confirmation, at: string, evidence: Option<Evidence>)
      returns (failure: Option<JournalError>)
      requires !confirmation.PendingConfirmation?
      modifies this
      ensures match ConfirmIn(old(operations), id, confirmation, at, evidence, rules)
              case Ok(store) => failure.None? && operations == store
              case Err(e) => failure == Some(e) && operations == old(operations)
    {
      hide Supports, Normalize, NormalizeEvidence;
      if id !in operations { return Some(NotFound); }
      var op := operations[id];
      var c := ContextOf(op, rules);
      if op.seed.business.Some? && c.None? { return Some(ContextInvalid); }
      if !IsConfirmable(c) { return Some(ContextRequired); }
      if !SucceededOnLedger(op) { return Some(XrplSuccessRequired); }
      if !HasLedgerIndex(op) { return Some(LedgerIndexRequired); }
      var normalized: Option<Evidence> := None;
      if evidence.Some? {
        normalized := NormalizeEvidence(evidence.value);
        if normalized.None? { return Some(EvidenceInvalid); }
      }
      var decides := confirmation.Confirmed? || confirmation.Refuted?;
      if decides && normalized.None? { return Some(EvidenceRequired); }
      if normalized.Some? {
        if HasHash(op) && normalized.value.transactionHash != Lower(op.txHash.value) { return Some(EvidenceMismatch); }
        if Some(normalized.value.ledgerIndex) != op.ledgerIndex { return Some(EvidenceMismatch); }
        if decides && HasHash(op) && !Supports(c.value, confirmation, normalized.value, Lower(op.txHash.value)) {
          return Some(EvidenceMismatch);
        }
      }
      operations := operations[id := op.(updatedAt := at, confirmation := Some(confirmation),
                                         evidence := Or(normalized, op.evidence))];
      return None;
    }

    method Abandon(id: string) returns (failure: Option<JournalError>)
      modifies this
      ensures match AbandonIn(old(operations), id)
              case Ok(store) => failure.None? && operations == store
              case Err(e) => failure == Some(e) && operations == old(operations)
    {
      if id !in operations { return Some(NotFound); }
      if !CanAbandon(operations[id]) { return Some(AbandonNotAllowed); }
      operations := operations - {id};
      return None;
    }

    /** The guard before a stored blob is submitted again. */
    method AssertBusinessLockOwned(id: string) returns (owned: bool)
      ensures owned <==> id in operations && HoldsLock(operations[id], rules)
                         && !HasRival(operations, id, KeyOf(operations[id], rules), rules)
    {
      if id !in operations || !HoldsLock(operations[id], rules) { return false; }
      return !HasRival(operations, id, KeyOf(operations[id], rules), rules);
    }
  }
}
