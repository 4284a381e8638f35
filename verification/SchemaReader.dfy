/**
 The web API's independent checks of stored schemas: the registration events, recomputed from their memos, and the
 resolved schemas, rebuilt from the definitions of all their ancestors.
 */
module SchemaReader {
  import opened Base
  import opened SchemaLanguage
  import opened SchemaResolution
  import opened LedgerModel
  import opened Registration
  import opened ProjectionStore
  import opened Replay
  import opened CredentialHistory
  import opened SchemaHistory

  // ---- Registration events --------------------------------------------------------------------

  predicate IsReasonCode(s: string) {
    && 1 <= |s| <= 128 && 'A' <= s[0] <= 'Z'
    && forall i :: 0 <= i < |s| ==> 'A' <= s[i] <= 'Z' || '0' <= s[i] <= '9' || s[i] == '_'
  }

  /** The checks on one stored registration event; false is the reader's evidence-invalid answer. */
  predicate IsRegistrationEvidence(row: SchemaEventRow, profile: Profile, expectedHash: string, codec: Codec) {
    && row.transactionHash == expectedHash
    && codec.isAddress(row.publisher)
    && profile.activationIndex <= row.ledgerIndex <= UINT32_MAX
    && IsHash(row.ledgerHash)
    && if row.accepted then
         && row.uid.Some? && IsHash(row.uid.value) && row.reason.None? && row.memo.Some?
         && SchemaOf(row.memo.value).Some?
         && codec.schemaUid(UidInputOf(profile, row.ledgerHash, row.ledgerIndex, row.transactionIndex, row.publisher,
                                       SchemaOf(row.memo.value).value)) == row.uid.value
       else
         row.uid.None? && row.reason.Some? && IsReasonCode(row.reason.value)
  }

  /** The error codes of the strict JSON reader are code names. */
  ghost predicate NamesItsErrors(codec: Codec) {
    forall text :: codec.parseJson(text).Err? ==> IsReasonCode(codec.parseJson(text).error)
  }

  lemma ReasonIsCode(tx: Transaction, ledger: Ledger, profile: Profile, catalog: IndexCatalog, codec: Codec)
    requires NamesItsErrors(codec)
    requires Interpret(tx, ledger, profile, catalog, codec).Some?
    requires Interpret(tx, ledger, profile, catalog, codec).value.Rejected?
    ensures IsReasonCode(Interpret(tx, ledger, profile, catalog, codec).value.reason)
  {
    hide SchemaOf, ResolveSchema, IsReasonCode;
    CodesOfEnvelopes();
    CodesOfMemos();
    CodesOfSchemas();
  }

  lemma CodesOfEnvelopes()
    ensures IsReasonCode("REGISTRATION_ACCOUNT_INVALID") && IsReasonCode("REGISTRATION_MEMO_COUNT")
  {
  }

  lemma CodesOfMemos()
    ensures IsReasonCode("REGISTRATION_MEMO_FORMAT") && IsReasonCode("REGISTRATION_MEMO_DATA")
    ensures IsReasonCode("REGISTRATION_NOT_CANONICAL")
  {
  }

  lemma CodesOfSchemas()
    ensures IsReasonCode("INVALID_SCHEMA")
    ensures IsReasonCode("INVALID_SCHEMA_REFERENCE")
  {
  }

  /** What the row of a registration event says, at its own position. */
  lemma RegistrationRow(s: Setting, n: nat, m: nat, k: nat)
    requires Sound(s) && IsTransaction(s, m, k) && RegistrationAt(s, m, k).Some? && m < n
    requires HasShape(s, n) && UidsAreHashes(s, n) && NamesItsErrors(s.codec)
    ensures var row := SchemaEventOf(LedgerAt(s, m), RegistrationAt(s, m, k).value);
            && (IsRegistrationEvidence(row, s.profile, TransactionAt(s, m, k).hash, s.codec)
                <==> s.codec.isAddress(row.publisher))
            && (row.accepted ==> s.codec.isAddress(row.publisher))
  {
    hide SchemaOf, Interpret, CatalogAt, IsReasonCode;
    var tx, ledger, catalog := TransactionAt(s, m, k), LedgerAt(s, m), CatalogAt(s, m, k);
    var r := RegistrationAt(s, m, k).value;
    assert FitsChain(s, m) && HasLedgerShape(ledger) && UidIsHash(s, m, k);
    PositionOf(s, m, k, r);
    if r.Accepted? {
      AcceptedFacts(tx, ledger, s.profile, catalog, s.codec);
    } else {
      ReasonIsCode(tx, ledger, s.profile, catalog, s.codec);
    }
  }

  /**
   The reader recomputes the identifier of every accepted registration from its stored memo. Of all stored
   registration events it refuses exactly those whose publisher is no classic address, and these are all rejections:
   the indexer also stores refusals of transactions without a usable account.
   */
  lemma ReaderAcceptsRegistrations(s: Setting, n: nat, hash: string)
    requires Sound(s) && ReplayOf(s, n).Ok? && hash in ReplayOf(s, n).value.tables.schemaEvents
    requires HasShape(s, n) && UidsAreHashes(s, n) && NamesItsErrors(s.codec)
    ensures var row := ReplayOf(s, n).value.tables.schemaEvents[hash];
            && (IsRegistrationEvidence(row, s.profile, hash, s.codec) <==> s.codec.isAddress(row.publisher))
            && (row.accepted ==> IsRegistrationEvidence(row, s.profile, hash, s.codec))
  {
    hide ReplayOf, RegistrationAt, IsRegistrationEvidence, Sound, HasShape, UidsAreHashes, NamesItsErrors;
    SchemaRowsAreExact(s, n);
    var t := ReplayOf(s, n).value.tables;
    var row := t.schemaEvents[hash];
    assert IsEventOf(s, n, 0, hash, row);
    RegistrationRow(s, n, row.ledgerIndex - s.profile.activationIndex, row.transactionIndex);
  }

  // ---- Resolved schemas -------------------------------------------------------------------------

  /** A schema row joined with the event of its registration. */
  datatype Evidence = Evidence(schema: SchemaRow, registration: SchemaEventRow)

  /** The join over the identifiers asked for. */
  function EvidenceOf(t: Tables, uids: set<string>): map<string, Evidence> {
    map uid | uid in uids && uid in t.schemas && t.schemas[uid].registrationHash in t.schemaEvents ::
      Evidence(t.schemas[uid], t.schemaEvents[t.schemas[uid].registrationHash])
  }

  /** A map of fields that the schema parser accepts and leaves as it is, under a fixed name and description. */
  predicate AreProjectedFields(fields: seq<Field>) {
    ReadFields(JObject(FieldEntries(fields))) == Some(fields) && WithinLimits(fields)
  }

  predicate IsLineageOf(row: SchemaRow) {
    var lineage := row.resolved.lineage;
    && |lineage| <= MAX_SCHEMA_DEPTH - 1
    && (forall i :: 0 <= i < |lineage| ==> IsHash(lineage[i]) && lineage[i] != row.uid)
    && (forall i, j :: 0 <= i < j < |lineage| ==> lineage[i] != lineage[j])
    && (if row.definition.ext.None? then lineage == []
        else lineage != [] && lineage[|lineage| - 1] == row.definition.ext.value)
  }

  /** The checks on one schema row by itself. */
  predicate IsStoredProjection(row: SchemaRow) {
    && Reparse(row.definition) == Some(row.definition)
    && row.name == row.definition.name && row.description == row.definition.description
    && row.parentUid == row.definition.ext && row.supersedesUid == row.definition.supersedes
    && Reparse(row.resolved.definition) == Some(row.resolved.definition)
    && row.resolved.definition == row.definition
    && AreProjectedFields(row.resolved.fields)
    && IsLineageOf(row)
  }

  /** The checks on one row against the event of its registration. */
  predicate IsEvidence(e: Evidence, profile: Profile, codec: Codec) {
    var row, event := e.schema, e.registration;
    && IsHash(row.uid) && codec.isAddress(row.publisher)
    && profile.activationIndex <= row.ledgerIndex <= UINT32_MAX
    && row.transactionIndex <= UINT32_MAX
    && IsStoredProjection(row)
    && event.transactionHash == row.registrationHash && IsHash(event.transactionHash)
    && event.ledgerIndex == row.ledgerIndex && event.transactionIndex == row.transactionIndex
    && event.publisher == row.publisher
    && event.accepted && event.reason.None? && event.uid == Some(row.uid) && event.memo.Some?
    && IsHash(event.ledgerHash)
    && SchemaOf(event.memo.value) == Some(row.definition)
    && codec.schemaUid(UidInputOf(profile, event.ledgerHash, event.ledgerIndex, event.transactionIndex,
                                  event.publisher, row.definition)) == row.uid
  }

  predicate IsPrior(parent: SchemaRow, child: SchemaRow) {
    || parent.ledgerIndex < child.ledgerIndex
    || (parent.ledgerIndex == child.ledgerIndex && parent.transactionIndex < child.transactionIndex)
  }

  /** The checks of one level: its link, its order, its own fields, and its stored resolution. */
  predicate LevelHolds(rows: seq<SchemaRow>, uids: seq<string>, i: nat, inherited: seq<Field>)
    requires i < |rows| == |uids|
  {
    var row := rows[i];
    var merged := inherited + row.definition.fields;
    && row.definition.ext == (if i == 0 then None else Some(uids[i - 1]))
    && (i > 0 ==> IsPrior(rows[i - 1], row))
    && DistinctNames(merged)
    && AreProjectedFields(merged)
    && row.resolved == ResolvedSchema(row.definition, merged, uids[..i])
  }

  /** The fields merged from the first i levels, or None when a level fails. */
  function Rebuilt(rows: seq<SchemaRow>, uids: seq<string>, i: nat): Option<seq<Field>>
    requires i <= |rows| == |uids|
  {
    if i == 0 then Some([])
    else
      var below := Rebuilt(rows, uids, i - 1);
      if below.None? || !LevelHolds(rows, uids, i - 1, below.value) then None
      else Some(below.value + rows[i - 1].definition.fields)
  }

  predicate HasEvidence(uids: seq<string>, evidence: map<string, Evidence>, profile: Profile, codec: Codec) {
    forall i :: 0 <= i < |uids| ==> uids[i] in evidence && IsEvidence(evidence[uids[i]], profile, codec)
  }

  function RowsOf(uids: seq<string>, evidence: map<string, Evidence>): seq<SchemaRow>
    requires forall i :: 0 <= i < |uids| ==> uids[i] in evidence
  {
    seq(|uids|, i requires 0 <= i < |uids| => evidence[uids[i]].schema)
  }

  /** What the reader answers for a schema row; None is its projection-invalid answer. */
  function Authoritative(row: SchemaRow, evidence: map<string, Evidence>, profile: Profile, uid: string, codec: Codec)
    : Option<ResolvedSchema>
  {
    var uids := row.resolved.lineage + [row.uid];
    if row.uid != uid || !IsStoredProjection(row) || !HasEvidence(uids, evidence, profile, codec) then None
    else if evidence[uids[|uids| - 1]].schema != row then None
    else
      var fields := Rebuilt(RowsOf(uids, evidence), uids, |uids|);
      if fields.None? then None else Some(ResolvedSchema(row.definition, fields.value, row.resolved.lineage))
  }

  method AuthoritativeResolvedSchema(
    row: SchemaRow, evidence: map<string, Evidence>, profile: Profile, uid: string, codec: Codec)
    returns (r: Option<ResolvedSchema>)
    ensures r == Authoritative(row, evidence, profile, uid, codec)
  {
    hide IsStoredProjection, IsEvidence, LevelHolds;
    if row.uid != uid || !IsStoredProjection(row) { return None; }
    var uids := row.resolved.lineage + [row.uid];
    if !HasEvidence(uids, evidence, profile, codec) { return None; }
    if evidence[uids[|uids| - 1]].schema != row { return None; }
    var rows := RowsOf(uids, evidence);
    var merged: seq<Field> := [];
    for i := 0 to |rows|
      invariant Rebuilt(rows, uids, i) == Some(merged)
    {
      if !LevelHolds(rows, uids, i, merged) {
        StaysBroken(rows, uids, i + 1, |rows|);
        return None;
      }
      merged := merged + rows[i].definition.fields;
    }
    return Some(ResolvedSchema(row.definition, merged, row.resolved.lineage));
  }

  lemma {:induction false} StaysBroken(rows: seq<SchemaRow>, uids: seq<string>, i: nat, n: nat)
    requires i <= n <= |rows| == |uids| && Rebuilt(rows, uids, i).None?
    ensures Rebuilt(rows, uids, n).None?
    decreases n
  {
    hide LevelHolds;
    if i < n { StaysBroken(rows, uids, i, n - 1); }
  }

  // ---- What an answer means --------------------------------------------------------------------------

  function FieldsOf(rows: seq<SchemaRow>): seq<Field> {
    if rows == [] then [] else FieldsOf(rows[..|rows| - 1]) + rows[|rows| - 1].definition.fields
  }

  lemma {:induction false} RebuiltIsMerged(rows: seq<SchemaRow>, uids: seq<string>, i: nat)
    requires i <= |rows| == |uids| && Rebuilt(rows, uids, i).Some?
    ensures Rebuilt(rows, uids, i).value == FieldsOf(rows[..i])
    ensures forall k :: 0 <= k < i ==> LevelHolds(rows, uids, k, FieldsOf(rows[..k]))
    decreases i
  {
    hide LevelHolds;
    if i > 0 {
      RebuiltIsMerged(rows, uids, i - 1);
      assert rows[..i][..i - 1] == rows[..i - 1];
    }
  }

  /**
   The reader answers nothing it has not rebuilt: an answer is the stored resolution, its fields are those of all
   definitions from the root down, every level names the one before it, comes after it, and recomputes its identifier
   from its own registration.
   */
  lemma AnswersAreRebuilt(row: SchemaRow, evidence: map<string, Evidence>, profile: Profile, uid: string, codec: Codec)
    requires Authoritative(row, evidence, profile, uid, codec).Some?
    ensures var uids := row.resolved.lineage + [uid];
            && HasEvidence(uids, evidence, profile, codec)
            && var rows := RowsOf(uids, evidence);
            && rows[|rows| - 1] == row && row.uid == uid
            && Authoritative(row, evidence, profile, uid, codec) == Some(row.resolved)
            && row.resolved.fields == FieldsOf(rows) && DistinctNames(FieldsOf(rows))
            && (forall k :: 0 <= k < |rows| ==>
                  rows[k].definition.ext == (if k == 0 then None else Some(uids[k - 1])))
            && (forall k :: 0 < k < |rows| ==> IsPrior(rows[k - 1], rows[k]))
  {
    hide IsStoredProjection, IsEvidence, LevelHolds, Rebuilt, FieldsOf;
    var uids := row.resolved.lineage + [uid];
    var rows := RowsOf(uids, evidence);
    RebuiltIsMerged(rows, uids, |uids|);
    assert rows[..|uids|] == rows;
    LastLevel(rows, uids);
    assert uids[..|rows| - 1] == row.resolved.lineage;
    forall k | 0 <= k < |rows|
      ensures rows[k].definition.ext == (if k == 0 then None else Some(uids[k - 1]))
      ensures k > 0 ==> IsPrior(rows[k - 1], rows[k])
    {
      LevelFacts(rows, uids, k, FieldsOf(rows[..k]));
    }
  }

  lemma LevelFacts(rows: seq<SchemaRow>, uids: seq<string>, k: nat, inherited: seq<Field>)
    requires k < |rows| == |uids| && LevelHolds(rows, uids, k, inherited)
    ensures rows[k].definition.ext == (if k == 0 then None else Some(uids[k - 1]))
    ensures k > 0 ==> IsPrior(rows[k - 1], rows[k])
    ensures DistinctNames(inherited + rows[k].definition.fields)
    ensures rows[k].resolved == ResolvedSchema(rows[k].definition, inherited + rows[k].definition.fields, uids[..k])
  {
    hide AreProjectedFields, DistinctNames;
  }

  lemma LastLevel(rows: seq<SchemaRow>, uids: seq<string>)
    requires |rows| == |uids| > 0 && LevelHolds(rows, uids, |rows| - 1, FieldsOf(rows[..|rows| - 1]))
    ensures DistinctNames(FieldsOf(rows))
    ensures var last := rows[|rows| - 1];
            last.resolved == ResolvedSchema(last.definition, FieldsOf(rows), uids[..|rows| - 1])
  {
    hide LevelHolds;
    LevelFacts(rows, uids, |rows| - 1, FieldsOf(rows[..|rows| - 1]));
  }
}
