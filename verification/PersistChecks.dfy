/** What persisting one ledger asks of its header and of every row, and the columns it writes. */
module PersistChecks {
  import opened Base
  import opened LedgerModel
  import opened ProjectLedger
  import opened ProjectionStore
  import opened Fencing
  import opened Fleet

  // ---- The header --------------------------------------------------------------------------------------

  /** The first ledger is the activation ledger with its hash, every other one the child of the newest checkpoint. */
  lemma ContinuousExactly(profile: Profile, previous: Option<Checkpoint>, ledger: Ledger)
    ensures Continuity(profile, previous, ledger) ==
            if previous.None? then
              if ledger.index < profile.activationIndex then Some(LEDGER_BEFORE_ACTIVATION)
              else if ledger.index > profile.activationIndex then Some(LEDGER_GAP)
              else if ledger.hash != Lower(profile.activationHash) then Some(ACTIVATION_HASH_MISMATCH)
              else None
            else
              if ledger.index != previous.value.ledgerIndex + 1 then Some(LEDGER_GAP)
              else if ledger.parentHash != previous.value.ledgerHash then Some(LEDGER_PARENT_MISMATCH)
              else None
  {
  }

  /** A ledger below the newest checkpoint changes nothing, and must carry the evidence that is stored for it. */
  lemma RepeatedExactly(t: Tables, profile: Profile, p: Projection)
    requires IsChain(t.checkpoints, profile)
    requires profile.activationIndex <= p.ledger.index < profile.activationIndex + |t.checkpoints|
    ensures var c := t.checkpoints[p.ledger.index - profile.activationIndex];
            Persist(t, profile, p) ==
            if c.ledgerHash != p.ledger.hash then Err(CheckpointConflict)
            else if c.transactionRoot.None? then Err(CheckpointEvidenceMissing)
            else if c.transactionRoot == Some(p.ledger.transactionRoot) && c.transactionCount == |p.ledger.transactions|
            then Ok((t, AlreadyProcessed))
            else Err(CheckpointConflict)
  {
    ChainCovers(t.checkpoints, profile, p.ledger.index);
    var stored := CheckpointAt(t.checkpoints, p.ledger.index).value;
    var i :| 0 <= i < |t.checkpoints| && t.checkpoints[i] == stored;
  }

  /** Any other ledger must come next; then its rows, its checkpoint and the constraints decide, all at once. */
  lemma NextExactly(t: Tables, profile: Profile, p: Projection)
    requires IsChain(t.checkpoints, profile)
    requires !(profile.activationIndex <= p.ledger.index < profile.activationIndex + |t.checkpoints|)
    ensures var n := |t.checkpoints|;
            var r := Persist(t, profile, p);
            if n == 0 && p.ledger.index < profile.activationIndex then r == Err(NotContinuous(LEDGER_BEFORE_ACTIVATION))
            else if p.ledger.index != profile.activationIndex + n then r == Err(NotContinuous(LEDGER_GAP))
            else if n == 0 && p.ledger.hash != Lower(profile.activationHash)
            then r == Err(NotContinuous(ACTIVATION_HASH_MISMATCH))
            else if n > 0 && p.ledger.parentHash != t.checkpoints[n - 1].ledgerHash
            then r == Err(NotContinuous(LEDGER_PARENT_MISMATCH))
            else
              var rows := ApplyMutations(ApplyRegistrations(t, p.ledger, p.registrations), p.ledger, p.mutations);
              if rows.Err? then r == Err(rows.error)
              else
                var after := rows.value.(checkpoints := t.checkpoints + [Checkpoint(
                  p.ledger.index, p.ledger.hash, p.ledger.parentHash, p.ledger.closeTime, |p.ledger.transactions|,
                  Some(p.ledger.transactionRoot))]);
                r == if MeetsConstraints(after) then Ok((after, Inserted)) else Err(CheckViolation)
  {
    hide MeetsConstraints, IsChain;
    ChainCovers(t.checkpoints, profile, p.ledger.index);
    RegistrationsKeepRest(t, p.ledger, p.registrations);
    MutationsKeepRest(ApplyRegistrations(t, p.ledger, p.registrations), p.ledger, p.mutations);
    NewestOfChain(t.checkpoints, profile);
  }

  lemma NewestOfChain(checkpoints: seq<Checkpoint>, profile: Profile)
    requires IsChain(checkpoints, profile)
    ensures Newest(checkpoints) == if checkpoints == [] then None else Some(checkpoints[|checkpoints| - 1])
    ensures checkpoints != [] ==>
              checkpoints[|checkpoints| - 1].ledgerIndex == profile.activationIndex + |checkpoints| - 1
  {
    if checkpoints != [] { ChainNewest(checkpoints, profile); }
  }

  // ---- Registrations ------------------------------------------------------------------------------------

  /** A registration adds one event row and, if accepted, one schema row, unless a row has their keys already. */
  lemma RegistrationExactly(t: Tables, ledger: Ledger, r: SchemaRegistration)
    ensures var after := ApplyRegistration(t, ledger, r);
            && after.generations == t.generations && after.events == t.events && after.checkpoints == t.checkpoints
            && after.schemaEvents ==
               (if r.transactionHash in t.schemaEvents then t.schemaEvents
                else t.schemaEvents[r.transactionHash :=
                       if r.Accepted?
                       then SchemaEventRow(r.transactionHash, ledger.index, ledger.hash, r.transactionIndex, r.publisher,
                                           true, None, Some(r.uid), Some(r.memo))
                       else SchemaEventRow(r.transactionHash, ledger.index, ledger.hash, r.transactionIndex, r.publisher,
                                           false, Some(r.reason), None, r.rejectedMemo)])
            && after.schemas ==
               (if r.Rejected? || r.uid in t.schemas
                   || (exists uid :: uid in t.schemas && t.schemas[uid].registrationHash == r.transactionHash)
                then t.schemas
                else t.schemas[r.uid := SchemaRow(
                       r.uid, r.publisher, r.definition.name, r.definition.description, r.definition.ext,
                       r.definition.supersedes, r.definition, r.resolved, r.transactionHash, ledger.index,
                       r.transactionIndex)])
  {
  }

  // ---- Credential mutations ------------------------------------------------------------------------------

  /** The event row of a mutation under a generation, unless its transaction and node have one. */
  function WithEvent(events: seq<EventRow>, ledger: Ledger, m: CredentialMutation, generationId: string): seq<EventRow> {
    if exists i :: 0 <= i < |events| && events[i].transactionHash == m.transactionHash && events[i].nodeIndex == m.nodeIndex
    then events
    else
      events + [EventRow(m.transactionHash, m.nodeIndex, generationId, m.objectId, ledger.index, ledger.hash,
                         m.transactionIndex, m.eventType, m.issuer, m.subject, m.schemaUid, m.uriHex, m.expiration,
                         m.accepted, m.cause, m.snapshot)]
  }

  /** A creation starts a generation named after its transaction, one live one per issuer, subject and schema. */
  lemma CreationExactly(t: Tables, ledger: Ledger, m: CredentialMutation)
    requires m.eventType == CreatedEvent
    ensures ApplyMutation(t, ledger, m) ==
            if exists i :: 0 <= i < |t.generations|
                 && (t.generations[i].generationId == m.transactionHash
                     || (t.generations[i].deletedLedgerIndex.None? && t.generations[i].issuer == m.issuer
                         && t.generations[i].subject == m.subject && t.generations[i].schemaUid == m.schemaUid))
            then Err(UniqueViolation)
            else if m.schemaUid !in t.schemas then Err(ForeignKeyViolation)
            else
              Ok(t.(generations := t.generations + [GenerationRow(
                      m.transactionHash, m.objectId, m.issuer, m.subject, m.schemaUid, m.uriHex, m.expiration, m.accepted,
                      ledger.index, m.transactionIndex, ledger.index, None, None)],
                    events := WithEvent(t.events, ledger, m, m.transactionHash)))
  {
  }

  /** Every other event needs a live generation of its object. */
  lemma ChangeNeedsGeneration(t: Tables, ledger: Ledger, m: CredentialMutation)
    requires m.eventType != CreatedEvent
    ensures ApplyMutation(t, ledger, m) == Err(NoLiveGeneration) <==>
              forall i :: 0 <= i < |t.generations| && t.generations[i].objectId == m.objectId ==>
                t.generations[i].deletedLedgerIndex.Some?
  {
    hide AfterEvent, EventRowOf, InsertEvent;
  }

  /** It updates the one that there is: accepted for good, or deleted with its ledger and cause, and nothing else. */
  lemma ChangeExactly(t: Tables, ledger: Ledger, m: CredentialMutation, i: nat)
    requires m.eventType != CreatedEvent && i < |t.generations| && m.schemaUid in t.schemas
    requires t.generations[i].objectId == m.objectId && t.generations[i].deletedLedgerIndex.None?
    requires forall k :: 0 <= k < |t.generations| && k != i ==>
               t.generations[k].objectId != m.objectId || t.generations[k].deletedLedgerIndex.Some?
    ensures var g := t.generations[i];
            ApplyMutation(t, ledger, m) ==
            Ok(t.(generations := t.generations[i := GenerationRow(
                    g.generationId, g.objectId, g.issuer, g.subject, g.schemaUid, g.uriHex, g.expiration,
                    g.accepted || m.eventType == AcceptedEvent, g.createdLedgerIndex, g.createdTransactionIndex, ledger.index,
                    if m.eventType == DeletedEvent then Some(ledger.index) else None,
                    if m.eventType == DeletedEvent then m.cause else g.cause)],
                  events := WithEvent(t.events, ledger, m, g.generationId)))
  {
    hide LiveIndex;
    assert IsLiveFor(t.generations[i], m.objectId);
    assert LiveIndex(t.generations, m.objectId) == Some(i);
  }

  // ---- Rows and status together --------------------------------------------------------------------------

  /** The rows commit with the status or not at all: under the current token, before its lease ends. */
  lemma CommittedExactly(profile: Profile, db: Db, token: Token, p: Projection, u: StatusUpdate, now: int)
    ensures var persisted := Persist(db.tables, profile, p);
            PersistWithStatus(profile, db, token, p, u, now) ==
            if !(&& IsWriterId(token.writerId) && 1 <= token.epoch <= 9_007_199_254_740_991 && db.status.Some?
                 && db.status.value.writerId == Some(token.writerId) && db.status.value.epoch == token.epoch
                 && db.status.value.leaseExpiresAt.Some? && now < db.status.value.leaseExpiresAt.value)
            then Err(PersistError.LeaseLost)
            else if persisted.Err? then Err(persisted.error)
            else if u.state == Halted || !IsAcceptable(u) then Err(StatusRejected)
            else
              var row := db.status.value;
              Ok((Db(Some(StatusRow(u.state, u.primaryTip, u.secondaryTip, u.agreedIndex, u.agreedHash, None,
                                    row.writerId, row.epoch, row.leaseExpiresAt)),
                     persisted.value.0),
                  persisted.value.1))
  {
    hide Persist, IsWriterId, IsAcceptable;
  }

  // ---- Constraints -----------------------------------------------------------------------------------------

  predicate IsLowerHash(s: string) {
    |s| == 64 && forall i :: 0 <= i < 64 ==> s[i] in "0123456789abcdef"
  }

  predicate Is32Bits(n: int) {
    0 <= n <= 0xFFFF_FFFF
  }

  /** The check constraints, table by table. */
  lemma ConstraintsExactly(t: Tables)
    ensures MeetsConstraints(t) <==>
              && (forall hash :: hash in t.schemaEvents ==>
                    var r := t.schemaEvents[hash];
                    && IsLowerHash(r.transactionHash) && IsLowerHash(r.ledgerHash) && Is32Bits(r.ledgerIndex)
                    && r.transactionIndex <= 0x7FFF_FFFF
                    && (r.accepted ==> r.uid.Some? && r.reason.None? && r.memo.Some?)
                    && (!r.accepted ==> r.uid.None? && r.reason.Some?) && (r.uid.Some? ==> IsLowerHash(r.uid.value)))
              && (forall uid :: uid in t.schemas ==>
                    var r := t.schemas[uid];
                    && IsLowerHash(r.uid) && (r.parentUid.Some? ==> IsLowerHash(r.parentUid.value))
                    && (r.supersedesUid.Some? ==> IsLowerHash(r.supersedesUid.value)) && IsLowerHash(r.registrationHash)
                    && Is32Bits(r.ledgerIndex) && r.transactionIndex <= 0x7FFF_FFFF)
              && (forall i :: 0 <= i < |t.generations| ==>
                    var g := t.generations[i];
                    && IsLowerHash(g.generationId) && IsLowerHash(g.objectId) && IsLowerHash(g.schemaUid)
                    && (g.expiration.Some? ==> Is32Bits(g.expiration.value)) && g.createdTransactionIndex <= 0x7FFF_FFFF
                    && g.createdLedgerIndex <= g.lastLedgerIndex && Is32Bits(g.lastLedgerIndex)
                    && (g.deletedLedgerIndex.Some? <==> g.cause.Some?)
                    && (g.deletedLedgerIndex.Some? ==> g.deletedLedgerIndex.value == g.lastLedgerIndex))
              && (forall i :: 0 <= i < |t.events| ==>
                    var e := t.events[i];
                    && IsLowerHash(e.transactionHash) && IsLowerHash(e.objectId) && IsLowerHash(e.ledgerHash)
                    && IsLowerHash(e.schemaUid) && e.nodeIndex <= 0x7FFF_FFFF && Is32Bits(e.ledgerIndex)
                    && e.transactionIndex <= 0x7FFF_FFFF && (e.expiration.Some? ==> Is32Bits(e.expiration.value))
                    && (e.eventType == DeletedEvent <==> e.cause.Some?))
              && (forall i :: 0 <= i < |t.checkpoints| ==>
                    var c := t.checkpoints[i];
                    && Is32Bits(c.ledgerIndex) && IsLowerHash(c.ledgerHash) && IsLowerHash(c.parentHash)
                    && Is32Bits(c.closeTime) && c.transactionCount <= 0x7FFF_FFFF
                    && c.transactionRoot.Some? && IsLowerHash(c.transactionRoot.value))
              && (forall i, j :: 0 <= i < |t.checkpoints| && 0 <= j < |t.checkpoints| && i != j ==>
                    t.checkpoints[i].ledgerHash != t.checkpoints[j].ledgerHash)
  {
    hide IsHash, IsLowerHash;
    forall s ensures IsHash(s) <==> IsLowerHash(s) { LowerHashes(s); }
  }

  lemma LowerHashes(s: string)
    ensures IsHash(s) <==> IsLowerHash(s)
  {
    hide IsLowerHexChar;
    HexIsLiteral();
  }
}
