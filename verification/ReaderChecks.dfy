/** What the web API's checks ask of stored rows, column by column: which rows pass, and so which are refused. */
module ReaderChecks {
  import opened Base
  import opened SchemaLanguage
  import opened SchemaResolution
  import opened LedgerModel
  import opened ProjectLedger
  import opened ProjectionStore
  import opened Fencing
  import opened Reader
  import opened SchemaReader
  import opened StatusReader
  import opened TransactionReader

  /** A generation row passes exactly with well-formed columns, inside the authoritative range, and as asked for. */
  lemma GenerationPassesExactly(g: GenerationRow, expected: GenerationExpectation, isAddress: string -> bool)
    ensures IsGenerationEvidence(g, expected, isAddress) <==>
              && (expected.generationId.Some? ==> g.generationId == expected.generationId.value)
              && (expected.issuer.Some? ==> g.issuer == expected.issuer.value)
              && (expected.subject.Some? ==> g.subject == expected.subject.value)
              && (expected.schemaUid.Some? ==> g.schemaUid == expected.schemaUid.value)
              && (forall hash :: hash in {g.generationId, g.objectId, g.schemaUid} ==>
                    |hash| == 64 && forall i :: 0 <= i < 64 ==> hash[i] in "0123456789abcdef")
              && isAddress(g.issuer) && isAddress(g.subject)
              && (g.uriHex.Some? ==>
                    && |g.uriHex.value| % 2 == 0
                    && forall i :: 0 <= i < |g.uriHex.value| ==> g.uriHex.value[i] in "0123456789abcdefABCDEF")
              && (g.expiration.Some? ==> 0 <= g.expiration.value <= 0xFFFF_FFFF)
              && expected.activationLedgerIndex <= g.createdLedgerIndex && g.createdTransactionIndex <= 0x7FFF_FFFF
              && g.createdLedgerIndex <= g.lastLedgerIndex <= expected.checkpointLedgerIndex
              && (g.deletedLedgerIndex.Some? <==> g.cause.Some?)
              && (g.deletedLedgerIndex.Some? ==> g.deletedLedgerIndex.value == g.lastLedgerIndex)
  {
    hide IsHexChar, IsLowerHexChar;
    HexIsLiteral();
  }

  /** An event row passes exactly with well-formed columns, as asked for, and with what its type demands. */
  lemma EventPassesExactly(e: EventRow, expected: EventExpectation, isAddress: string -> bool)
    ensures IsEventShape(e, expected, isAddress) <==>
              && e.transactionHash == expected.transactionHash && e.issuer == expected.issuer
              && e.subject == expected.subject && e.schemaUid == expected.schemaUid
              && (expected.generationId.Some? ==> e.generationId == expected.generationId.value)
              && (expected.ledgerIndex.Some? ==> e.ledgerIndex == expected.ledgerIndex.value)
              && (expected.ledgerHash.Some? ==> e.ledgerHash == expected.ledgerHash.value)
              && (expected.transactionIndex.Some? ==> e.transactionIndex == expected.transactionIndex.value)
              && (forall hash :: hash in {e.transactionHash, e.generationId, e.objectId, e.ledgerHash, e.schemaUid} ==>
                    |hash| == 64 && forall i :: 0 <= i < 64 ==> hash[i] in "0123456789abcdef")
              && isAddress(e.issuer) && isAddress(e.subject)
              && e.nodeIndex <= 0x7FFF_FFFF && e.transactionIndex <= 0x7FFF_FFFF
              && expected.activationLedgerIndex <= e.ledgerIndex <= 0xFFFF_FFFF
              && (e.uriHex.Some? ==>
                    && |e.uriHex.value| % 2 == 0
                    && forall i :: 0 <= i < |e.uriHex.value| ==> e.uriHex.value[i] in "0123456789abcdefABCDEF")
              && (e.expiration.Some? ==> 0 <= e.expiration.value <= 0xFFFF_FFFF)
              && (e.eventType.DeletedEvent? <==> e.cause.Some?)
              && (e.eventType.CreatedEvent? ==>
                    e.generationId == e.transactionHash && (e.accepted <==> e.issuer == e.subject))
              && (e.eventType.AcceptedEvent? ==> e.accepted)
  {
    hide IsHexChar, IsLowerHexChar;
    HexIsLiteral();
  }

  /**
   A timeline passes exactly when it is one lifecycle of well-formed rows about the generation's Credential: created,
   perhaps accepted, perhaps deleted, in ledger order, with the first and last events as the summary row has them.
   */
  lemma TimelinePassesExactly(rows: seq<EventRow>, g: GenerationRow, activation: nat, isAddress: string -> bool)
    ensures IsTimeline(rows, g, activation, isAddress) <==>
              && 1 <= |rows| <= 3 && rows[0].eventType.CreatedEvent?
              && (|rows| == 2 ==> rows[1].eventType.AcceptedEvent? || rows[1].eventType.DeletedEvent?)
              && (|rows| == 3 ==> rows[1].eventType.AcceptedEvent? && rows[2].eventType.DeletedEvent?)
              && (forall i :: 0 <= i < |rows| ==>
                    && IsEventShape(rows[i], EventExpectation(rows[i].transactionHash, g.issuer, g.subject, g.schemaUid,
                                                              activation, Some(g.generationId), None, None, None),
                                    isAddress)
                    && rows[i].objectId == g.objectId && rows[i].uriHex == g.uriHex && rows[i].expiration == g.expiration)
              && (forall i :: 1 <= i < |rows| ==>
                    var a, b := rows[i - 1], rows[i];
                    || a.ledgerIndex < b.ledgerIndex
                    || (a.ledgerIndex == b.ledgerIndex && a.transactionIndex < b.transactionIndex)
                    || (a.ledgerIndex == b.ledgerIndex && a.transactionIndex == b.transactionIndex
                        && a.nodeIndex < b.nodeIndex))
              && rows[0].transactionHash == g.generationId && rows[0].ledgerIndex == g.createdLedgerIndex
              && rows[0].transactionIndex == g.createdTransactionIndex
              && var last := rows[|rows| - 1];
              && last.ledgerIndex == g.lastLedgerIndex
              && (g.accepted <==> rows[0].accepted || (|rows| > 1 && rows[1].eventType.AcceptedEvent?))
              && (last.eventType.DeletedEvent? <==> g.deletedLedgerIndex.Some?)
              && (last.eventType.DeletedEvent? ==>
                    && g.deletedLedgerIndex == Some(last.ledgerIndex) && g.cause == last.cause
                    && last.accepted == g.accepted)
  {
    hide IsEventShape, OfType;
    if IsTimeline(rows, g, activation, isAddress) {
      TimelineIsLifecycle(rows, g, activation, isAddress);
      CountsOfShort(rows, DeletedEvent);
      var last := rows[|rows| - 1];
      if last.eventType.DeletedEvent? { assert OfType(rows, DeletedEvent)[0] == last; }
    }
    if 1 <= |rows| <= 3 {
      CountsOfShort(rows, CreatedEvent);
      CountsOfShort(rows, AcceptedEvent);
      CountsOfShort(rows, DeletedEvent);
    }
  }

  /**
   A stored registration passes exactly when its publisher is an address and, if accepted, its identifier is recomputed
   from the schema in its memo, or if refused, it gives a reason code and no identifier.
   */
  lemma RegistrationPassesExactly(row: SchemaEventRow, profile: Profile, hash: string, codec: Codec)
    ensures IsRegistrationEvidence(row, profile, hash, codec) <==>
              && row.transactionHash == hash && codec.isAddress(row.publisher)
              && profile.activationIndex <= row.ledgerIndex <= 0xFFFF_FFFF
              && |row.ledgerHash| == 64 && (forall i :: 0 <= i < 64 ==> row.ledgerHash[i] in "0123456789abcdef")
              && (row.accepted ==>
                    && row.reason.None? && row.memo.Some? && SchemaOf(row.memo.value).Some?
                    && row.uid == Some(codec.schemaUid(UidInput(
                         profile.networkId, row.ledgerHash, row.ledgerIndex, row.transactionIndex, row.publisher,
                         SchemaOf(row.memo.value).value)))
                    && |row.uid.value| == 64 && (forall i :: 0 <= i < 64 ==> row.uid.value[i] in "0123456789abcdef"))
              && (!row.accepted ==>
                    && row.uid.None? && row.reason.Some? && 1 <= |row.reason.value| <= 128
                    && 65 <= row.reason.value[0] as int <= 90
                    && forall i :: 0 <= i < |row.reason.value| ==>
                         var code := row.reason.value[i] as int;
                         65 <= code <= 90 || 48 <= code <= 57 || code == 95)
  {
    hide IsLowerHexChar, SchemaOf;
    HexIsLiteral();
  }

  /** A summary passes exactly when its parts do, its count says whether there is an event, and both name one place. */
  lemma SummaryPassesExactly(summary: Summary, profile: Profile, hash: string, codec: Codec)
    ensures IsTransactionEvidence(summary, profile, hash, codec) <==>
              && 0 <= summary.eventCount <= 9_007_199_254_740_991 && (summary.eventCount > 0 <==> summary.first.Some?)
              && (summary.registration.Some? ==>
                    IsRegistrationEvidence(summary.registration.value, profile, hash, codec))
              && (summary.first.Some? ==>
                    && var e := summary.first.value;
                    && IsEventShape(e, EventExpectation(hash, e.issuer, e.subject, e.schemaUid, profile.activationIndex,
                                                        None, None, None, None), codec.isAddress)
                    && (summary.registration.Some? ==>
                          && e.ledgerIndex == summary.registration.value.ledgerIndex
                          && e.ledgerHash == summary.registration.value.ledgerHash
                          && e.transactionIndex == summary.registration.value.transactionIndex))
  {
    hide IsRegistrationEvidence, IsEventShape;
  }

  /**
   A schema row passes exactly when its definition is a parsed one, its columns repeat it, and its stored resolution has
   that definition, fields within the limits and a lineage of at most 15 different hashes that ends with the parent.
   */
  lemma SchemaRowPassesExactly(row: SchemaRow)
    ensures IsStoredProjection(row) <==>
              && SchemaOf(SchemaJson(row.definition)) == Some(row.definition)
              && row.name == row.definition.name && row.description == row.definition.description
              && row.parentUid == row.definition.ext && row.supersedesUid == row.definition.supersedes
              && row.resolved.definition == row.definition
              && ReadFields(JObject(FieldEntries(row.resolved.fields))) == Some(row.resolved.fields)
              && FieldsNesting(row.resolved.fields) <= 16 && CountFields(row.resolved.fields) <= 256
              && var lineage := row.resolved.lineage;
              && |lineage| <= 15
              && (forall i :: 0 <= i < |lineage| ==>
                    && |lineage[i]| == 64 && (forall k :: 0 <= k < 64 ==> lineage[i][k] in "0123456789abcdef")
                    && lineage[i] != row.uid && forall j :: 0 <= j < i ==> lineage[j] != lineage[i])
              && (row.definition.ext.None? ==> lineage == [])
              && (row.definition.ext.Some? ==> lineage != [] && lineage[|lineage| - 1] == row.definition.ext.value)
  {
    hide IsLowerHexChar, SchemaOf, SchemaJson, ReadFields, FieldEntries, FieldsNesting, CountFields;
    HexIsLiteral();
  }

  /** And its registration must be the accepted event of its transaction, whose memo and position recompute the identifier. */
  lemma SchemaEvidencePassesExactly(e: Evidence, profile: Profile, codec: Codec)
    ensures IsEvidence(e, profile, codec) <==>
              && var row, event := e.schema, e.registration;
              && IsStoredProjection(row) && codec.isAddress(row.publisher)
              && profile.activationIndex <= row.ledgerIndex <= 0xFFFF_FFFF && row.transactionIndex <= 0xFFFF_FFFF
              && (forall hash :: hash in {row.uid, row.registrationHash, event.ledgerHash} ==>
                    |hash| == 64 && forall i :: 0 <= i < 64 ==> hash[i] in "0123456789abcdef")
              && event.transactionHash == row.registrationHash && event.ledgerIndex == row.ledgerIndex
              && event.transactionIndex == row.transactionIndex && event.publisher == row.publisher
              && event.accepted && event.reason.None? && event.uid == Some(row.uid)
              && event.memo.Some? && SchemaOf(event.memo.value) == Some(row.definition)
              && row.uid == codec.schemaUid(UidInput(profile.networkId, event.ledgerHash, row.ledgerIndex,
                                                     row.transactionIndex, row.publisher, row.definition))
  {
    hide IsLowerHexChar, SchemaOf, IsStoredProjection;
    HexIsLiteral();
  }

  /** Which rows rebuild: all levels must hold, each on top of the fields below it. */
  lemma {:induction false} RebuiltExactly(rows: seq<SchemaRow>, uids: seq<string>, i: nat)
    requires i <= |rows| == |uids|
    ensures Rebuilt(rows, uids, i).Some? <==> forall k :: 0 <= k < i ==> LevelHolds(rows, uids, k, SchemaReader.FieldsOf(rows[..k]))
    decreases i
  {
    hide LevelHolds, SchemaReader.FieldsOf;
    if i > 0 {
      RebuiltExactly(rows, uids, i - 1);
      if Rebuilt(rows, uids, i - 1).Some? { RebuiltIsMerged(rows, uids, i - 1); }
    }
  }

  /**
   A resolved schema is answered exactly when it is the row asked for, every level has its evidence, and from the root
   down each level names the one before it, comes after it, adds fields with new names within the limits, and has stored
   what that makes. The answer is then what is stored.
   */
  lemma AnsweredExactly(row: SchemaRow, evidence: map<string, Evidence>, profile: Profile, uid: string, codec: Codec)
    ensures var answer := Authoritative(row, evidence, profile, uid, codec);
            && (answer.None? || answer == Some(row.resolved))
            && (answer.Some? <==>
                  && row.uid == uid && IsStoredProjection(row)
                  && var uids := row.resolved.lineage + [uid];
                  && (forall k :: 0 <= k < |uids| ==> uids[k] in evidence && IsEvidence(evidence[uids[k]], profile, codec))
                  && evidence[uid].schema == row
                  && var rows := RowsOf(uids, evidence);
                  && forall k :: 0 <= k < |rows| ==>
                       && rows[k].definition.ext == (if k == 0 then None else Some(uids[k - 1]))
                       && (k > 0 ==>
                             || rows[k - 1].ledgerIndex < rows[k].ledgerIndex
                             || (rows[k - 1].ledgerIndex == rows[k].ledgerIndex
                                 && rows[k - 1].transactionIndex < rows[k].transactionIndex))
                       && var merged := SchemaReader.FieldsOf(rows[..k]) + rows[k].definition.fields;
                       && (forall i, j :: 0 <= i < j < |merged| ==> merged[i].name != merged[j].name)
                       && ReadFields(JObject(FieldEntries(merged))) == Some(merged)
                       && FieldsNesting(merged) <= 16 && CountFields(merged) <= 256
                       && rows[k].resolved == ResolvedSchema(rows[k].definition, merged, uids[..k]))
  {
    hide IsStoredProjection, IsEvidence, Rebuilt, SchemaReader.FieldsOf, ReadFields, FieldEntries, FieldsNesting, CountFields;
    var uids := row.resolved.lineage + [row.uid];
    assert uids[|uids| - 1] == row.uid;
    if Authoritative(row, evidence, profile, uid, codec).Some? { AnswersAreRebuilt(row, evidence, profile, uid, codec); }
    if HasEvidence(uids, evidence, profile, codec) { RebuiltExactly(RowsOf(uids, evidence), uids, |uids|); }
    if row.uid == uid && HasEvidence(uids, evidence, profile, codec) && Rebuilt(RowsOf(uids, evidence), uids, |uids|).Some? {
      RebuiltIsMerged(RowsOf(uids, evidence), uids, |uids|);
    }
  }

  /**
   The gate in front of every answer opens exactly when the indexer is ready under a running lease, has agreed with both
   sources on its newest checkpoint at the lower of their tips, every row asked for lies between the minimum and that
   checkpoint, and the checkpoint is fresh.
   */
  lemma GateOpensExactly(status: Option<StatusRow>, checkpoint: Option<Checkpoint>, now: int, isFresh: nat -> bool,
                         minimum: int, indexes: seq<int>)
    ensures AuthoritativeEvidence(status, checkpoint, now, isFresh, minimum, indexes).None? <==>
              && status.Some? && checkpoint.Some?
              && var row, c := status.value, checkpoint.value;
              && row.state.Ready? && row.writerId.Some? && row.leaseExpiresAt.Some? && now < row.leaseExpiresAt.value
              && row.primaryTip.Some? && 0 <= row.primaryTip.value <= 0xFFFF_FFFF
              && row.secondaryTip.Some? && 0 <= row.secondaryTip.value <= 0xFFFF_FFFF
              && row.agreedIndex == Some(c.ledgerIndex) && row.agreedHash == Some(c.ledgerHash)
              && c.ledgerIndex == (if row.primaryTip.value <= row.secondaryTip.value then row.primaryTip.value
                                   else row.secondaryTip.value)
              && c.transactionRoot.Some? && c.closeTime <= 0xFFFF_FFFF
              && 0 <= minimum <= c.ledgerIndex
              && (forall i :: 0 <= i < |indexes| ==> minimum <= indexes[i] <= c.ledgerIndex)
              && isFresh(c.closeTime)
  {
  }

  /** And where it stays shut, the answer names the first reason. */
  lemma GateRefusesExactly(status: Option<StatusRow>, checkpoint: Option<Checkpoint>, now: int, isFresh: nat -> bool,
                           minimum: int, indexes: seq<int>)
    ensures var answer := AuthoritativeEvidence(status, checkpoint, now, isFresh, minimum, indexes);
            && (answer == Some(INDEXER_STATUS_UNAVAILABLE) <==> status.None?)
            && (answer == Some(INDEXER_HALTED) <==> status.Some? && status.value.state.Halted?)
            && (answer == Some(INDEXER_NOT_READY) <==>
                  status.Some? && !status.value.state.Halted? && !status.value.state.Ready?)
            && (answer == Some(INDEXER_LEASE_EXPIRED) <==>
                  && status.Some? && status.value.state.Ready?
                  && (status.value.writerId.None? || status.value.leaseExpiresAt.None?
                      || status.value.leaseExpiresAt.value <= now))
            && (answer == Some(INDEXER_NOT_INITIALIZED) ==> checkpoint.None?)
            && (answer == Some(INDEXER_STALE) ==> checkpoint.Some? && !isFresh(checkpoint.value.closeTime))
  {
  }
}
