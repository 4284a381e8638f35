/** What each journal transaction asks for and what it leaves, in the fields of the operations and entries. */
module JournalChecks {
  import opened Base
  import opened BusinessContext
  import opened Journal
  import opened JournalExclusion

  /** Some operation other than this one is unfinished, or validated but not yet decided, under the same key. */
  predicate IsTaken(store: Store, id: string, key: Option<string>, rules: Rules) {
    key.Some? && exists x :: x in store && x != id && KeyOf(store[x], rules) == key && Holds(store[x], rules)
  }

  /** Holding a lock, by stage, result and shown confirmation. */
  predicate Holds(op: Operation, rules: Rules) {
    || op.stage in {Prepared, Signed, Submitted, Pending}
    || (op.stage.Validated? && op.engineResult == Some("tesSUCCESS")
        && ConfirmationOf(op, rules) in {Some(PendingConfirmation), Some(Timeout)})
  }

  lemma RivalsAreHolders(store: Store, id: string, key: Option<string>, rules: Rules)
    ensures HasRival(store, id, key, rules) <==> IsTaken(store, id, key, rules)
  {
    hide KeyOf, ConfirmationOf;
  }

  /**
   A new operation is stored as prepared, with its context in normal form and, where it has one, a pending confirmation.
   It is refused for a context that is not valid, not complete, an identifier that is taken, or a key that is.
   */
  lemma CreatedExactly(store: Store, seed: Seed, rules: Rules)
    ensures CreateIn(store, seed, rules) ==
            if seed.business.Some? && Normalize(seed.business.value, rules).None? then Err(ContextInvalid)
            else
              var c := if seed.business.None? then None else Normalize(seed.business.value, rules);
              if c.Some? && c.value.SchemaRegister?
                 && (c.value.publisher.None? || c.value.schemaDigest.None? || c.value.memoByteLength.None?)
              then Err(ContextIncomplete)
              else if c.Some? && c.value.CredentialIssue? && (c.value.credentialUri.None? || c.value.payloadDigest.None?)
              then Err(ContextIncomplete)
              else if seed.operationId in store then Err(IdAlreadyExists)
              else if IsTaken(store, seed.operationId, BusinessKey(seed.profileId, c), rules) then Err(BusinessLocked)
              else
                Ok(store[seed.operationId := Operation(
                           Seed(seed.operationId, seed.account, seed.profileId, seed.networkId, seed.transactionType,
                                seed.createdAt, c),
                           seed.createdAt, Prepared, None, None, None, None, None, None,
                           if c.Some? then Some(PendingConfirmation) else None, None)])
  {
    hide BusinessKey, HasRival;
    if seed.business.Some? { NormalFormExactly(seed.business.value, rules); }
    var c := if seed.business.None? then None else Normalize(seed.business.value, rules);
    RivalsAreHolders(store, seed.operationId, BusinessKey(seed.profileId, c), rules);
  }

  /** A signature is journaled for a prepared operation alone, and only while no other one holds its key. */
  lemma SignedExactly(store: Store, r: SignedRecord, rules: Rules)
    ensures PersistSignedIn(store, r, rules) ==
            if r.operationId !in store then Err(NotFound)
            else if store[r.operationId].stage != Prepared
                    || IsTaken(store, r.operationId, KeyOf(store[r.operationId], rules), rules) then Err(LockOwnershipLost)
            else
              Ok(store[r.operationId := store[r.operationId].(
                         updatedAt := r.at, stage := Signed, txHash := Some(r.txHash), txBlob := Some(r.txBlob),
                         lastLedgerSequence := Some(r.lastLedgerSequence), message := None)])
  {
    hide KeyOf, HasRival;
    if r.operationId in store { RivalsAreHolders(store, r.operationId, KeyOf(store[r.operationId], rules), rules); }
  }

  /** An entry moves an unfinished operation to its stage; what it leaves out stays, but the blob goes with the end. */
  lemma AppendedExactly(store: Store, e: JournalEntry)
    ensures var r := AppendIn(store, e);
            if e.operationId !in store then r == Err(NotFound)
            else
              && r.Ok? && r.value.Keys == store.Keys
              && (forall x :: x in store && x != e.operationId ==> r.value[x] == store[x])
              && var before, after := store[e.operationId], r.value[e.operationId];
              if before.stage in {Validated, Expired, Stage.Failed} then after == before
              else
                && after.seed == before.seed && after.updatedAt == e.at && after.stage == e.stage
                && after.message == e.message
                && after.txHash == (if e.txHash.Some? then e.txHash else before.txHash)
                && after.lastLedgerSequence
                   == (if e.lastLedgerSequence.Some? then e.lastLedgerSequence else before.lastLedgerSequence)
                && after.engineResult == (if e.engineResult.Some? then e.engineResult else before.engineResult)
                && after.ledgerIndex == (if e.ledgerIndex.Some? then e.ledgerIndex else before.ledgerIndex)
                && after.txBlob == (if e.stage in {Validated, Expired, Stage.Failed} then None else before.txBlob)
                && after.confirmation == before.confirmation && after.evidence == before.evidence
  {
  }

  /** Only an operation without a signature can be abandoned, and then it is gone. */
  lemma AbandonedExactly(store: Store, id: string)
    ensures AbandonIn(store, id) ==
            if id !in store then Err(NotFound)
            else if store[id].stage == Prepared && store[id].txHash.None? && store[id].txBlob.None?
            then Ok(map x | x in store && x != id :: store[x])
            else Err(AbandonNotAllowed)
  {
    assert (map x | x in store && x != id :: store[x]) == store - {id};
  }

  // ---- Evidence ---------------------------------------------------------------------------------------

  /** Which evidence is well formed, and its normal form. */
  lemma EvidenceFormExactly(e: Evidence)
    ensures NormalizeEvidence(e).Some? <==>
              && IsHexOf64(e.transactionHash) && IsHexOf64(e.ledgerHash) && e.ledgerIndex > 0 && e.transactionIndex >= 0
              && (e.schemaUid.Some? ==> IsHexOf64(e.schemaUid.value))
              && (e.generationId.Some? ==> IsHexOf64(e.generationId.value))
              && (e.reasonCode.Some? ==>
                    && 1 <= |e.reasonCode.value| <= 128
                    && forall i :: 0 <= i < |e.reasonCode.value| ==>
                         var code := e.reasonCode.value[i] as int;
                         65 <= code <= 90 || 48 <= code <= 57 || code == 95)
              && (e.eventType.None? ==> e.deletionCause == NoCause)
              && (e.eventType == Some(Deleted) ==> e.deletionCause.KnownCause?)
              && (e.eventType == Some(Created) || e.eventType == Some(AcceptedKind) ==> e.deletionCause == NullCause)
    ensures NormalizeEvidence(e).Some? ==>
              NormalizeEvidence(e).value
              == e.(transactionHash := Lower(e.transactionHash), ledgerHash := Lower(e.ledgerHash),
                    schemaUid := LowerOption(e.schemaUid), generationId := LowerOption(e.generationId))
  {
    hide IsHexOf64, IsAnyCaseHash, Lower;
    forall s ensures IsHexOf64(s) <==> IsAnyCaseHash(s) { HashesAreHex(s); }
  }

  /** What evidence must show of an operation with this context and hash before it counts as decided. */
  lemma SupportExactly(c: Context, confirmation: Confirmation, e: Evidence, hash: string)
    requires confirmation.Confirmed? || confirmation.Refuted?
    ensures Supports(c, confirmation, e, hash) <==>
              && !c.Unreadable? && e.transactionHash == hash
              && (c.SchemaRegister? && confirmation.Confirmed? ==> e.schemaUid.Some? && e.reasonCode.None?)
              && (c.SchemaRegister? && confirmation.Refuted? ==> e.schemaUid.None? && e.reasonCode.Some?)
              && (c.CredentialIssue? || c.GenerationBound? ==> confirmation.Confirmed? && e.schemaUid == Some(c.schemaUid))
              && (c.CredentialIssue? ==>
                    && e.eventType == Some(Created) && e.accepted == Some(c.issuer == c.subject)
                    && e.generationId == Some(hash) && e.deletionCause == NullCause)
              && (c.GenerationBound? ==> e.generationId == Some(c.generationId))
              && (c.GenerationBound? && c.action == AcceptCredential ==>
                    e.eventType == Some(AcceptedKind) && e.accepted == Some(true) && e.deletionCause == NullCause)
              && (c.GenerationBound? && c.action == RejectCredential ==>
                    e.eventType == Some(Deleted) && e.accepted == Some(false)
                    && e.deletionCause == KnownCause(SubjectRejected))
              && (c.GenerationBound? && c.action == RemoveCredential ==>
                    && e.eventType == Some(Deleted) && e.accepted == Some(true)
                    && e.deletionCause == KnownCause(if c.issuer == c.subject then IssuerRevoked else SubjectRemoved))
              && (c.GenerationBound? && c.action == RevokeCredential ==>
                    e.eventType == Some(Deleted) && e.deletionCause == KnownCause(IssuerRevoked))
  {
  }

  /**
   The confirmation as shown: none without a complete context; a stored one only for a success on the ledger with its
   ledger index, and a decided one only with evidence of the operation's own transaction; pending otherwise.
   */
  lemma ShownExactly(op: Operation, rules: Rules)
    ensures var c, shown := ContextOf(op, rules), ConfirmationOf(op, rules);
            var succeeded := op.stage.Validated? && op.engineResult == Some("tesSUCCESS")
                             && op.ledgerIndex.Some? && op.ledgerIndex.value > 0;
            && (shown.Some? <==> IsConfirmable(c))
            && (shown == Some(Mismatch) <==> IsConfirmable(c) && op.confirmation == Some(Mismatch) && succeeded)
            && (shown == Some(Timeout) <==> IsConfirmable(c) && op.confirmation == Some(Timeout) && succeeded)
            && (forall decided :: decided in {Confirmed, Refuted} ==>
                  (shown == Some(decided) <==>
                     && IsConfirmable(c) && op.confirmation == Some(decided) && succeeded
                     && op.txHash.Some? && op.txHash.value != ""
                     && op.evidence.Some? && NormalizeEvidence(op.evidence.value).Some?
                     && NormalizeEvidence(op.evidence.value).value.ledgerIndex == op.ledgerIndex.value
                     && Supports(c.value, decided, NormalizeEvidence(op.evidence.value).value, Lower(op.txHash.value))))
  {
    hide Normalize, NormalizeEvidence, Supports;
  }

  /** A confirmation is stored exactly for a success on the ledger with the evidence that it needs. */
  lemma ConfirmedExactly(store: Store, id: string, confirmation: Confirmation, at: string, evidence: Option<Evidence>,
                         rules: Rules)
    requires id in store
    ensures var r := ConfirmIn(store, id, confirmation, at, evidence, rules);
            var op, c := store[id], ContextOf(store[id], rules);
            && (r.Ok? <==>
                  && c.Some? && !c.value.Unreadable?
                  && (c.value.SchemaRegister? ==>
                        c.value.publisher.Some? && c.value.schemaDigest.Some? && c.value.memoByteLength.Some?)
                  && (c.value.CredentialIssue? ==> c.value.credentialUri.Some? && c.value.payloadDigest.Some?)
                  && op.stage.Validated? && op.engineResult == Some("tesSUCCESS")
                  && op.ledgerIndex.Some? && op.ledgerIndex.value > 0
                  && (evidence.None? ==> !confirmation.Confirmed? && !confirmation.Refuted?)
                  && (evidence.Some? ==>
                        && NormalizeEvidence(evidence.value).Some?
                        && var e := NormalizeEvidence(evidence.value).value;
                        && e.ledgerIndex == op.ledgerIndex.value
                        && (op.txHash.Some? && op.txHash.value != "" ==>
                              && e.transactionHash == Lower(op.txHash.value)
                              && (confirmation.Confirmed? || confirmation.Refuted? ==>
                                    Supports(c.value, confirmation, e, Lower(op.txHash.value))))))
            && (r.Err? ==>
                  r.error ==
                  if op.seed.business.Some? && c.None? then ContextInvalid
                  else if !IsConfirmable(c) then ContextRequired
                  else if !(op.stage.Validated? && op.engineResult == Some("tesSUCCESS")) then XrplSuccessRequired
                  else if !(op.ledgerIndex.Some? && op.ledgerIndex.value > 0) then LedgerIndexRequired
                  else if evidence.Some? && NormalizeEvidence(evidence.value).None? then EvidenceInvalid
                  else if evidence.None? then EvidenceRequired
                  else EvidenceMismatch)
            && (r.Ok? ==>
                  r.value == store[id := op.(updatedAt := at, confirmation := Some(confirmation),
                                             evidence := if evidence.Some? then NormalizeEvidence(evidence.value)
                                                         else op.evidence)])
  {
    hide Normalize, NormalizeEvidence, Supports;
  }

  // ---- Decided operations, over all runs ----------------------------------------------------------------

  /** A stored decision goes with a success on the ledger and with evidence from that very ledger and transaction. */
  predicate IsEvidenced(op: Operation, rules: Rules) {
    op.confirmation == Some(Confirmed) || op.confirmation == Some(Refuted) ==>
      && op.stage.Validated? && op.engineResult == Some("tesSUCCESS") && op.ledgerIndex.Some? && op.ledgerIndex.value > 0
      && ContextOf(op, rules).Some? && op.evidence.Some? && op.evidence.value.ledgerIndex == op.ledgerIndex.value
      && (op.txHash.Some? && op.txHash.value != "" ==>
            Supports(ContextOf(op, rules).value, op.confirmation.value, op.evidence.value, Lower(op.txHash.value)))
  }

  ghost predicate AllEvidenced(store: Store, rules: Rules) {
    forall id :: id in store ==> IsEvidenced(store[id], rules)
  }

  lemma ChangeKeepsEvidence(store: Store, change: Change, rules: Rules)
    requires AllEvidenced(store, rules)
    ensures AllEvidenced(Apply(store, change, rules), rules)
  {
    hide Normalize, NormalizeEvidence, Supports, HasRival, BusinessKey;
    var after := Apply(store, change, rules);
    forall id | id in after ensures IsEvidenced(after[id], rules) {
      if id in store { assert IsEvidenced(store[id], rules); }
    }
  }

  lemma {:induction false} DecisionsAreEvidenced(changes: seq<Change>, rules: Rules)
    ensures AllEvidenced(Then(map[], changes, rules), rules)
    decreases |changes|
  {
    hide Apply, IsEvidenced;
    if changes != [] {
      DecisionsAreEvidenced(changes[..|changes| - 1], rules);
      ChangeKeepsEvidence(Then(map[], changes[..|changes| - 1], rules), changes[|changes| - 1], rules);
    }
  }

  /**
   In every interleaving of transactions, an operation with a stored hash that is shown as confirmed succeeded on the
   ledger, and its evidence names that transaction and, for a credential action, the event the action is for.
   */
  lemma ConfirmedMeansDone(changes: seq<Change>, rules: Rules, id: string)
    requires var store := Then(map[], changes, rules);
             id in store && store[id].confirmation == Some(Confirmed) && store[id].txHash.Some? && store[id].txHash.value != ""
    ensures var op := Then(map[], changes, rules)[id];
            && op.stage.Validated? && op.engineResult == Some("tesSUCCESS")
            && op.evidence.Some? && op.ledgerIndex == Some(op.evidence.value.ledgerIndex)
            && op.evidence.value.transactionHash == Lower(op.txHash.value)
            && ContextOf(op, rules).Some?
            && var c, e := ContextOf(op, rules).value, op.evidence.value;
            && (c.SchemaRegister? ==> e.schemaUid.Some? && e.reasonCode.None?)
            && (c.CredentialIssue? ==>
                  e.eventType == Some(Created) && e.schemaUid == Some(c.schemaUid)
                  && e.accepted == Some(c.issuer == c.subject) && e.generationId == Some(Lower(op.txHash.value)))
            && (c.GenerationBound? ==>
                  && e.schemaUid == Some(c.schemaUid) && e.generationId == Some(c.generationId)
                  && e.eventType == Some(if c.action == AcceptCredential then AcceptedKind else Deleted)
                  && (c.action == RejectCredential ==> e.deletionCause == KnownCause(SubjectRejected))
                  && (c.action == RevokeCredential ==> e.deletionCause == KnownCause(IssuerRevoked)))
  {
    hide Then, Normalize, NormalizeEvidence;
    DecisionsAreEvidenced(changes, rules);
    assert IsEvidenced(Then(map[], changes, rules)[id], rules);
  }
}
