/**
 The writer of the schema tables agrees with their reader: every stored schema is rebuilt, field by field and
 ancestor by ancestor, to exactly the resolution that was stored at its registration.
 */
module SchemaAgreement {
  import opened Base
  import opened SchemaLanguage
  import opened SchemaResolution
  import opened LedgerModel
  import opened Registration
  import opened ProjectLedger
  import opened ProjectionStore
  import opened Replay
  import opened CredentialHistory
  import opened SchemaHistory
  import opened SchemaReader

  function PlaceOf(row: SchemaRow, networkId: int): Coordinates {
    Coordinates(networkId, row.publisher, row.ledgerIndex, row.transactionIndex)
  }

  function LevelOf(row: SchemaRow, networkId: int): Level {
    Level(row.definition, PlaceOf(row, networkId))
  }

  /** All schemas known after n ledgers, as resolution sees them. */
  function KnownSchemas(s: Setting, n: nat): Catalog
    requires ReplayOf(s, n).Ok?
  {
    SchemasOf(ReplayOf(s, n).value.catalog)
  }

  // ---- What is stored about one schema -----------------------------------------------------------

  /** The registration at a position resolves alike at its own position and at any later one. */
  lemma ResolvedForEver(s: Setting, n: nat, m: nat, k: nat)
    requires Sound(s) && ReplayOf(s, n).Ok? && m < n && IsTransaction(s, m, k)
    requires RegistrationAt(s, m, k).Some? && RegistrationAt(s, m, k).value.Accepted?
    ensures var r := RegistrationAt(s, m, k).value;
            var at := Coordinates(s.profile.networkId, r.publisher, LedgerAt(s, m).index, k);
            && Reparse(r.definition) == Some(r.definition)
            && ValidContext(at, s.codec.isAddress)
            && Resolve(r.definition, at, KnownSchemas(s, n), {}) == Ok(r.resolved)
  {
    hide Resolve, SchemaOf, SchemaJson, ExtractEnvelope, ReplayOf, ProjectUpTo, Sound;
    var r := RegistrationAt(s, m, k).value;
    CatalogOnlyGrows(s, m, k, n);
    FoldCatalog(s, m);
    PositionOfLedger(s, m);
    var at := Coordinates(s.profile.networkId, r.publisher, LedgerAt(s, m).index, k);
    VerdictIsFinal(r.definition, at, SchemasOf(CatalogAt(s, m, k)), KnownSchemas(s, n), s.codec.isAddress);
    AcceptedFacts(TransactionAt(s, m, k), LedgerAt(s, m), s.profile, CatalogAt(s, m, k), s.codec);
    ParseIsIdempotent(r.memo);
  }

  lemma PositionOfRow(s: Setting, m: nat, k: nat)
    requires Sound(s) && IsTransaction(s, m, k) && RegistrationAt(s, m, k).Some?
    ensures RegistrationAt(s, m, k).value.transactionIndex == k
    ensures RegistrationAt(s, m, k).value.transactionHash == TransactionAt(s, m, k).hash
  {
    hide RegistrationAt;
    assert FitsChain(s, m);
    PositionOf(s, m, k, RegistrationAt(s, m, k).value);
  }

  /** Where a stored schema was registered. */
  lemma SchemaPosition(s: Setting, n: nat, uid: string) returns (m: nat, k: nat)
    requires Sound(s) && ReplayOf(s, n).Ok? && uid in ReplayOf(s, n).value.tables.schemas
    ensures m < n && IsTransaction(s, m, k) && RegistrationAt(s, m, k).Some?
    ensures LedgerAt(s, m).index == s.profile.activationIndex + m
    ensures var r := RegistrationAt(s, m, k).value;
            && r.Accepted? && r.uid == uid && r.transactionIndex == k
            && r.transactionHash == TransactionAt(s, m, k).hash
            && ReplayOf(s, n).value.tables.schemas[uid] == SchemaRowOf(LedgerAt(s, m), r)
  {
    hide ReplayOf, Sound, RegistrationAt, IsEventOf, IsStored, SchemaRowOf;
    SchemaRowsAreExact(s, n);
    var row := ReplayOf(s, n).value.tables.schemas[uid];
    assert IsSchemaOf(s, n, 0, uid, row);
    m, k := row.ledgerIndex - s.profile.activationIndex, row.transactionIndex;
    PositionOfLedger(s, m);
    PositionOfRow(s, m, k);
  }

  /** The catalog entry of a stored schema, and its resolution against everything known now. */
  lemma StoredSchema(s: Setting, n: nat, uid: string)
    requires Sound(s) && ReplayOf(s, n).Ok? && uid in ReplayOf(s, n).value.tables.schemas
    ensures var row := ReplayOf(s, n).value.tables.schemas[uid];
            && uid in KnownSchemas(s, n)
            && KnownSchemas(s, n)[uid] == RegisteredSchema(uid, row.definition, PlaceOf(row, s.profile.networkId))
            && Reparse(row.definition) == Some(row.definition)
            && ValidContext(PlaceOf(row, s.profile.networkId), s.codec.isAddress)
            && Resolve(row.definition, PlaceOf(row, s.profile.networkId), KnownSchemas(s, n), {}) == Ok(row.resolved)
  {
    hide Resolve, ReplayOf, Sound, RegistrationAt, Reparse, ValidContext;
    AgreeIsCatalog(s, n);
    var m, k := SchemaPosition(s, n, uid);
    assert ReplayOf(s, n).value.tables.schemas[uid].uid == uid;
    ResolvedForEver(s, n, m, k);
  }

  /** The registration of a position is the only event stored under its transaction hash. */
  lemma StoredEvent(s: Setting, n: nat, m: nat, k: nat)
    requires Sound(s) && ReplayOf(s, n).Ok? && m < n && IsTransaction(s, m, k) && RegistrationAt(s, m, k).Some?
    ensures var events := ReplayOf(s, n).value.tables.schemaEvents;
            var hash := TransactionAt(s, m, k).hash;
            hash in events && events[hash] == SchemaEventOf(LedgerAt(s, m), RegistrationAt(s, m, k).value)
  {
    hide ReplayOf, RegistrationAt, IsHistory, SoundUid, SchemaEventOf;
    SchemaRowsAreExact(s, n);
    var t := ReplayOf(s, n).value.tables;
    assert IsStored(s, m, k, t);
    var hash := TransactionAt(s, m, k).hash;
    var event := t.schemaEvents[hash];
    assert IsEventOf(s, n, 0, hash, event);
    assert SameHash(s, m, k, event.ledgerIndex - s.profile.activationIndex, event.transactionIndex);
  }

  // ---- Fields of a whole lineage ------------------------------------------------------------------

  lemma {:induction false} ValidConcat(a: seq<Field>, b: seq<Field>)
    requires ValidFields(a) && ValidFields(b)
    ensures ValidFields(a + b)
    ensures FieldsNesting(a + b) == Max(FieldsNesting(a), FieldsNesting(b))
    decreases |b|
  {
    hide ValidDescriptor, Nesting;
    if b == [] {
      assert a + b == a;
    } else {
      var init := b[..|b| - 1];
      ValidConcat(a, init);
      assert (a + b)[..|a + b| - 1] == a + init;
    }
  }

  predicate LevelIsParsed(level: Level) {
    Reparse(level.definition) == Some(level.definition)
  }

  lemma {:induction false} AllFieldsAreValid(levels: seq<Level>)
    requires levels != [] && forall i :: 0 <= i < |levels| ==> LevelIsParsed(levels[i])
    ensures AllFields(levels) != [] && ValidFields(AllFields(levels))
    ensures FieldsNesting(AllFields(levels)) <= MAX_SCHEMA_DEPTH
    decreases |levels|
  {
    hide ValidFields, FieldsNesting, Reparse;
    var n := |levels| - 1;
    var own := levels[n].definition;
    assert LevelIsParsed(levels[n]);
    ParsedDefinition(own);
    if n == 0 {
      assert levels[..0] == [];
      assert AllFields(levels[..0]) + own.fields == own.fields;
    } else {
      assert forall i :: 0 <= i < n ==> LevelIsParsed(levels[..n][i]);
      AllFieldsAreValid(levels[..n]);
      ValidConcat(AllFields(levels[..n]), own.fields);
    }
  }

  lemma ParsedDefinition(definition: SchemaDefinition)
    requires Reparse(definition) == Some(definition)
    ensures ValidSchema(definition) && WithinLimits(definition.fields)
  {
    hide ValidSchema, WithinLimits, ReadSchema, SchemaJson;
    SchemaReadBack(definition);
  }

  lemma ProjectedFields(levels: seq<Level>)
    requires levels != [] && forall i :: 0 <= i < |levels| ==> LevelIsParsed(levels[i])
    requires CountFields(AllFields(levels)) <= MAX_SCHEMA_FIELDS
    ensures AreProjectedFields(AllFields(levels))
  {
    AllFieldsAreValid(levels);
    FieldsReadBack(AllFields(levels));
  }

  // ---- Every ancestor of an admissible lineage -----------------------------------------------------

  const ROOM := MAX_SCHEMA_DEPTH - 1

  function LevelIn(catalog: Catalog, uid: string): Level
    requires uid in catalog
  {
    Level(catalog[uid].definition, catalog[uid].at)
  }

  lemma {:induction false} AncestorIsAdmissible(lineage: seq<string>, own: Level, catalog: Catalog, i: nat)
    requires Admissible(lineage, own, catalog, ROOM) && i < |lineage|
    ensures lineage[i] in catalog && Admissible(lineage[..i], LevelIn(catalog, lineage[i]), catalog, ROOM)
    decreases |lineage|
  {
    hide Linked, Ascending, SuccessionHolds, Reparse, AllFields, CountFields, DistinctNames;
    var n := |lineage| - 1;
    AdmissibleParent(lineage, own, catalog, ROOM);
    assert Admissible(lineage[..n], LevelIn(catalog, lineage[n]), catalog, ROOM);
    if i < n {
      AncestorIsAdmissible(lineage[..n], LevelIn(catalog, lineage[n]), catalog, i);
      assert lineage[..n][..i] == lineage[..i];
    }
  }

  /** The levels below an ancestor are a prefix of the levels of the whole lineage. */
  lemma LevelsOfAncestor(lineage: seq<string>, own: Level, catalog: Catalog, i: nat)
    requires (forall k :: 0 <= k < |lineage| ==> lineage[k] in catalog) && i < |lineage|
    ensures Levels(lineage[..i], LevelIn(catalog, lineage[i]), catalog) == Levels(lineage, own, catalog)[..i + 1]
  {
  }

  lemma AncestorResolves(lineage: seq<string>, own: Level, catalog: Catalog, i: nat)
    requires Admissible(lineage, own, catalog, ROOM) && i < |lineage|
    ensures lineage[i] in catalog
    ensures var level := LevelIn(catalog, lineage[i]);
            Resolve(level.definition, level.at, catalog, {})
            == Ok(ResolvedSchema(level.definition, AllFields(Levels(lineage, own, catalog)[..i + 1]), lineage[..i]))
  {
    hide Resolve, AllFields, Linked, Ascending, SuccessionHolds, Reparse, CountFields, DistinctNames;
    AncestorIsAdmissible(lineage, own, catalog, i);
    LevelsOfAncestor(lineage, own, catalog, i);
    ResolveIsComplete(lineage[..i], LevelIn(catalog, lineage[i]), catalog, {});
  }

  /** The identifiers of an admissible lineage are hashes, all different, and none is the schema's own. */
  lemma LineageOfStored(lineage: seq<string>, own: Level, uid: string, catalog: Catalog)
    requires Admissible(lineage, own, catalog, ROOM) && LevelIsParsed(own)
    requires uid in catalog && catalog[uid].at == own.at
    ensures forall i :: 0 <= i < |lineage| ==> IsHash(lineage[i]) && lineage[i] != uid
    ensures forall i, j :: 0 <= i < j < |lineage| ==> lineage[i] != lineage[j]
    ensures if own.definition.ext.None? then lineage == []
            else lineage != [] && lineage[|lineage| - 1] == own.definition.ext.value
  {
    hide Reparse, AllFields, CountFields, DistinctNames, SuccessionHolds, IsHash;
    var levels := Levels(lineage, own, catalog);
    assert levels[|lineage|] == own;
    forall i | 0 <= i < |lineage| ensures IsHash(lineage[i]) && lineage[i] != uid {
      assert LevelIsParsed(levels[i + 1]);
      ParsedDefinition(levels[i + 1].definition);
      assert levels[i + 1].definition.ext == Some(lineage[i]);
      assert levels[i] == LevelIn(catalog, lineage[i]);
      assert IsEarlier(levels[i].at, levels[|lineage|].at);
    }
    forall i, j | 0 <= i < j < |lineage| ensures lineage[i] != lineage[j] {
      assert levels[i] == LevelIn(catalog, lineage[i]) && levels[j] == LevelIn(catalog, lineage[j]);
      assert IsEarlier(levels[i].at, levels[j].at);
    }
  }

  // ---- References between stored schemas -------------------------------------------------------------

  /** The catalog in memory holds exactly the stored schemas. */
  lemma KnownAreStored(s: Setting, n: nat)
    requires Sound(s) && ReplayOf(s, n).Ok?
    ensures forall uid :: uid in KnownSchemas(s, n) ==> uid in ReplayOf(s, n).value.tables.schemas
  {
    hide ReplayOf, Sound;
    AgreeIsCatalog(s, n);
  }

  /**
   References point backwards: a stored schema extends only a schema stored at an earlier position, and supersedes
   only one that its own publisher had registered at an earlier position.
   */
  lemma StoredReferencesAreEarlier(s: Setting, n: nat, uid: string)
    requires Sound(s) && ReplayOf(s, n).Ok? && uid in ReplayOf(s, n).value.tables.schemas
    ensures var schemas := ReplayOf(s, n).value.tables.schemas;
            var row := schemas[uid];
            && row.uid == uid
            && (row.parentUid.Some? ==>
                  && row.parentUid.value in schemas
                  && var parent := schemas[row.parentUid.value];
                  parent.ledgerIndex < row.ledgerIndex
                  || (parent.ledgerIndex == row.ledgerIndex && parent.transactionIndex < row.transactionIndex))
            && (row.supersedesUid.Some? ==>
                  && row.supersedesUid.value in schemas
                  && var previous := schemas[row.supersedesUid.value];
                  && previous.publisher == row.publisher
                  && (previous.ledgerIndex < row.ledgerIndex
                      || (previous.ledgerIndex == row.ledgerIndex && previous.transactionIndex < row.transactionIndex)))
  {
    hide Resolve, ReplayOf, Sound, Reparse, ValidContext, RegistrationAt, KnownSchemas;
    var schemas := ReplayOf(s, n).value.tables.schemas;
    var row, catalog := schemas[uid], KnownSchemas(s, n);
    StoredSchema(s, n, uid);
    KnownAreStored(s, n);
    var m, k := SchemaPosition(s, n, uid);
    var at := PlaceOf(row, s.profile.networkId);
    ResolvedReferences(row.definition, at, catalog);
    if row.parentUid.Some? { StoredSchema(s, n, row.parentUid.value); }
    if row.supersedesUid.Some? { StoredSchema(s, n, row.supersedesUid.value); }
  }

  /** Both references of a schema that resolves, as they stand in the catalog. */
  lemma ResolvedReferences(schema: SchemaDefinition, at: Coordinates, catalog: Catalog)
    requires Resolve(schema, at, catalog, {}).Ok?
    ensures schema.ext.Some? ==> schema.ext.value in catalog && IsEarlier(catalog[schema.ext.value].at, at)
    ensures schema.supersedes.Some? ==>
              var u := schema.supersedes.value;
              u in catalog && IsEarlier(catalog[u].at, at) && catalog[u].at.publisher == at.publisher
  {
    hide Resolve, AllFields;
    ResolvedLineage(schema, at, catalog);
    var r := Resolve(schema, at, catalog, {}).value;
    var levels := Levels(r.lineage, Level(schema, at), catalog);
    if schema.ext.Some? { assert levels[|r.lineage|].definition.ext == Some(r.lineage[|r.lineage| - 1]); }
    assert levels[|r.lineage|].definition.supersedes == schema.supersedes;
  }

  // ---- The agreement --------------------------------------------------------------------------------

  /** One row of the chain, with what it resolves to against everything known now. */
  predicate IsKnown(s: Setting, n: nat, row: SchemaRow)
    requires ReplayOf(s, n).Ok?
  {
    && row.uid in KnownSchemas(s, n)
    && LevelIn(KnownSchemas(s, n), row.uid) == LevelOf(row, s.profile.networkId)
    && LevelIsParsed(LevelOf(row, s.profile.networkId))
    && Resolve(row.definition, PlaceOf(row, s.profile.networkId), KnownSchemas(s, n), {}) == Ok(row.resolved)
  }

  lemma KnownRow(s: Setting, n: nat, uid: string)
    requires Sound(s) && ReplayOf(s, n).Ok? && uid in ReplayOf(s, n).value.tables.schemas
    ensures ReplayOf(s, n).value.tables.schemas[uid].uid == uid
    ensures IsKnown(s, n, ReplayOf(s, n).value.tables.schemas[uid])
  {
    hide Resolve, ReplayOf, Sound, Reparse, ValidContext, KnownSchemas, RegistrationAt;
    StoredSchema(s, n, uid);
    var m, k := SchemaPosition(s, n, uid);
  }

  lemma KnownIsAdmissible(s: Setting, n: nat, row: SchemaRow)
    requires ReplayOf(s, n).Ok? && IsKnown(s, n, row)
    ensures var c, own := KnownSchemas(s, n), LevelOf(row, s.profile.networkId);
            && Admissible(row.resolved.lineage, own, c, ROOM)
            && row.resolved == ResolvedSchema(row.definition, AllFields(Levels(row.resolved.lineage, own, c)), row.resolved.lineage)
  {
    hide Resolve, ReplayOf, Reparse, KnownSchemas, Admissible, AllFields, Levels;
    ResolveIsSound(row.definition, PlaceOf(row, s.profile.networkId), KnownSchemas(s, n), {});
  }

  lemma KnownProjection(s: Setting, n: nat, row: SchemaRow)
    requires ReplayOf(s, n).Ok? && IsKnown(s, n, row)
    requires row.name == row.definition.name && row.description == row.definition.description
    requires row.parentUid == row.definition.ext && row.supersedesUid == row.definition.supersedes
    ensures IsStoredProjection(row)
  {
    hide Resolve, ReplayOf, KnownSchemas, AreProjectedFields, Linked, Ascending, SuccessionHolds, IsHash, Reparse,
         AllFields, DistinctNames, CountFields;
    KnownIsAdmissible(s, n, row);
    var c, own := KnownSchemas(s, n), LevelOf(row, s.profile.networkId);
    var levels := Levels(row.resolved.lineage, own, c);
    LineageOfStored(row.resolved.lineage, own, row.uid, c);
    ParsedLevels(row.resolved.lineage, own, c);
    ProjectedFields(levels);
  }

  lemma ParsedLevels(lineage: seq<string>, own: Level, catalog: Catalog)
    requires Admissible(lineage, own, catalog, ROOM) && LevelIsParsed(own)
    ensures forall i :: 0 <= i <= |lineage| ==> LevelIsParsed(Levels(lineage, own, catalog)[i])
  {
    hide Reparse, Linked, Ascending, SuccessionHolds, AllFields, DistinctNames, CountFields;
  }

  /** The chain of rows the reader walks: the ancestors from the root, then the row itself. */
  ghost predicate IsChainOf(s: Setting, n: nat, row: SchemaRow, rows: seq<SchemaRow>)
    requires ReplayOf(s, n).Ok?
  {
    var lineage := row.resolved.lineage;
    && |rows| == |lineage| + 1 && rows[|lineage|] == row
    && (forall i :: 0 <= i < |rows| ==> IsKnown(s, n, rows[i]))
    && (forall i :: 0 <= i < |lineage| ==> rows[i].uid == lineage[i])
  }

  lemma ChainLevels(s: Setting, n: nat, row: SchemaRow, rows: seq<SchemaRow>)
    requires ReplayOf(s, n).Ok? && IsChainOf(s, n, row, rows)
    ensures var c, own, lineage := KnownSchemas(s, n), LevelOf(row, s.profile.networkId), row.resolved.lineage;
            && Admissible(lineage, own, c, ROOM)
            && forall i :: 0 <= i < |rows| ==> Levels(lineage, own, c)[i] == LevelOf(rows[i], s.profile.networkId)
  {
    hide ReplayOf, KnownSchemas, Resolve, Reparse, Linked, Ascending, SuccessionHolds, AllFields, DistinctNames,
         CountFields;
    assert IsKnown(s, n, rows[|rows| - 1]);
    KnownIsAdmissible(s, n, row);
    var c, own, lineage := KnownSchemas(s, n), LevelOf(row, s.profile.networkId), row.resolved.lineage;
    forall i | 0 <= i < |rows| ensures Levels(lineage, own, c)[i] == LevelOf(rows[i], s.profile.networkId) {
      assert IsKnown(s, n, rows[i]);
    }
  }

  /** The stored resolution of each row of the chain is that of the levels up to it. */
  lemma ChainResolved(s: Setting, n: nat, row: SchemaRow, rows: seq<SchemaRow>, i: nat)
    requires ReplayOf(s, n).Ok? && IsChainOf(s, n, row, rows) && i < |rows|
    ensures var c, own, lineage := KnownSchemas(s, n), LevelOf(row, s.profile.networkId), row.resolved.lineage;
            && Admissible(lineage, own, c, ROOM)
            && rows[i].resolved
               == ResolvedSchema(rows[i].definition, AllFields(Levels(lineage, own, c)[..i + 1]), (lineage + [row.uid])[..i])
  {
    hide ReplayOf, KnownSchemas, Resolve, Reparse, Admissible, AllFields;
    assert IsKnown(s, n, rows[i]) && IsKnown(s, n, rows[|rows| - 1]);
    KnownIsAdmissible(s, n, row);
    var c, own, lineage := KnownSchemas(s, n), LevelOf(row, s.profile.networkId), row.resolved.lineage;
    if i < |lineage| {
      AncestorResolves(lineage, own, c, i);
      assert (lineage + [row.uid])[..i] == lineage[..i];
    } else {
      assert Levels(lineage, own, c)[..i + 1] == Levels(lineage, own, c);
      assert (lineage + [row.uid])[..i] == lineage;
    }
  }

  lemma ChainLevelHolds(s: Setting, n: nat, row: SchemaRow, rows: seq<SchemaRow>, i: nat)
    requires ReplayOf(s, n).Ok? && IsChainOf(s, n, row, rows) && i < |rows|
    ensures var c, own, lineage := KnownSchemas(s, n), LevelOf(row, s.profile.networkId), row.resolved.lineage;
            && Admissible(lineage, own, c, ROOM)
            && var levels := Levels(lineage, own, c);
            && AllFields(levels[..i + 1]) == AllFields(levels[..i]) + rows[i].definition.fields
            && LevelHolds(rows, lineage + [row.uid], i, AllFields(levels[..i]))
  {
    hide ReplayOf, KnownSchemas, Resolve, Reparse, AllFields, AreProjectedFields, DistinctNames, SuccessionHolds;
    ChainLevels(s, n, row, rows);
    ChainResolved(s, n, row, rows, i);
    var c, own, lineage := KnownSchemas(s, n), LevelOf(row, s.profile.networkId), row.resolved.lineage;
    var levels := Levels(lineage, own, c);
    assert IsKnown(s, n, rows[i]);
    AllFieldsStep(levels, i);
    LevelLinks(levels, lineage, row.uid, i);
    MergedFields(lineage, own, c, i);
    if i > 0 { assert IsEarlier(levels[i - 1].at, levels[i].at); }
  }

  lemma LevelLinks(levels: seq<Level>, lineage: seq<string>, uid: string, i: nat)
    requires |levels| == |lineage| + 1 && Linked(levels, lineage) && i < |levels|
    ensures levels[i].definition.ext == if i == 0 then None else Some((lineage + [uid])[i - 1])
  {
  }

  lemma AllFieldsStep(levels: seq<Level>, i: nat)
    requires i < |levels|
    ensures AllFields(levels[..i + 1]) == AllFields(levels[..i]) + levels[i].definition.fields
  {
    assert levels[..i + 1][..i] == levels[..i];
  }

  /** Every prefix of the merged fields has distinct names and reads back through the parser. */
  lemma MergedFields(lineage: seq<string>, own: Level, catalog: Catalog, i: nat)
    requires Admissible(lineage, own, catalog, ROOM) && LevelIsParsed(own) && i <= |lineage|
    ensures var merged := AllFields(Levels(lineage, own, catalog)[..i + 1]);
            DistinctNames(merged) && AreProjectedFields(merged)
  {
    hide AllFields, AreProjectedFields, Linked, Ascending, SuccessionHolds, DistinctNames, Reparse;
    var levels := Levels(lineage, own, catalog);
    ParsedLevels(lineage, own, catalog);
    assert forall k :: 0 <= k <= i ==> levels[..i + 1][k] == levels[k];
    if i < |lineage| {
      AncestorIsAdmissible(lineage, own, catalog, i);
      LevelsOfAncestor(lineage, own, catalog, i);
    } else {
      assert levels[..i + 1] == levels;
    }
    ProjectedFields(levels[..i + 1]);
  }

  lemma {:induction false} ChainRebuilt(s: Setting, n: nat, row: SchemaRow, rows: seq<SchemaRow>, i: nat)
    requires ReplayOf(s, n).Ok? && IsChainOf(s, n, row, rows) && i <= |rows|
    ensures var c, own, lineage := KnownSchemas(s, n), LevelOf(row, s.profile.networkId), row.resolved.lineage;
            && Admissible(lineage, own, c, ROOM)
            && Rebuilt(rows, lineage + [row.uid], i) == Some(AllFields(Levels(lineage, own, c)[..i]))
    decreases i
  {
    hide ReplayOf, KnownSchemas, Admissible, AllFields, LevelHolds, IsKnown;
    if i == 0 {
      ChainLevels(s, n, row, rows);
      NoFields();
    } else {
      ChainRebuilt(s, n, row, rows, i - 1);
      ChainLevelHolds(s, n, row, rows, i - 1);
    }
  }

  lemma ChainFields(s: Setting, n: nat, row: SchemaRow, rows: seq<SchemaRow>)
    requires ReplayOf(s, n).Ok? && IsChainOf(s, n, row, rows)
    ensures Rebuilt(rows, row.resolved.lineage + [row.uid], |rows|) == Some(row.resolved.fields)
  {
    hide ReplayOf, KnownSchemas, Resolve, Reparse, AllFields, Rebuilt, Linked, Ascending, SuccessionHolds;
    ChainRebuilt(s, n, row, rows, |rows|);
    assert IsKnown(s, n, rows[|rows| - 1]);
    KnownIsAdmissible(s, n, row);
    var levels := Levels(row.resolved.lineage, LevelOf(row, s.profile.networkId), KnownSchemas(s, n));
    assert levels[..|rows|] == levels;
  }

  lemma NoFields()
    ensures AllFields([]) == []
  {
  }

  lemma KnownEvidence(s: Setting, n: nat, uid: string)
    requires Sound(s) && ReplayOf(s, n).Ok? && uid in ReplayOf(s, n).value.tables.schemas
    requires HasShape(s, n) && UidsAreHashes(s, n)
    ensures var t := ReplayOf(s, n).value.tables;
            var row := t.schemas[uid];
            && row.registrationHash in t.schemaEvents
            && IsStoredProjection(row)
            && IsEvidence(Evidence(row, t.schemaEvents[row.registrationHash]), s.profile, s.codec)
  {
    hide ReplayOf, RegistrationAt, IsKnown, IsStoredProjection, SchemaOf, Sound, HasShape, UidsAreHashes;
    var m, k := SchemaPosition(s, n, uid);
    KnownRow(s, n, uid);
    StoredSchema(s, n, uid);
    StoredEvent(s, n, m, k);
    KnownProjection(s, n, ReplayOf(s, n).value.tables.schemas[uid]);
    EvidenceFacts(s, n, m, k);
  }

  lemma EvidenceFacts(s: Setting, n: nat, m: nat, k: nat)
    requires Sound(s) && m < n && IsTransaction(s, m, k) && HasShape(s, n) && UidsAreHashes(s, n)
    requires RegistrationAt(s, m, k).Some? && RegistrationAt(s, m, k).value.Accepted?
    ensures var r, ledger := RegistrationAt(s, m, k).value, LedgerAt(s, m);
            && IsHash(r.uid) && IsHash(TransactionAt(s, m, k).hash) && IsHash(ledger.hash) && IsUint32(ledger.index)
            && k <= UINT32_MAX
            && s.codec.isAddress(r.publisher) && SchemaOf(r.memo) == Some(r.definition)
            && r.uid == s.codec.schemaUid(UidInputOf(s.profile, ledger.hash, ledger.index, k, r.publisher, r.definition))
  {
    hide SchemaOf, Interpret, IsHash, CatalogAt;
    assert UidIsHash(s, m, k) && HasLedgerShape(LedgerAt(s, m)) && FitsChain(s, m);
    AcceptedFacts(TransactionAt(s, m, k), LedgerAt(s, m), s.profile, CatalogAt(s, m, k), s.codec);
  }

  /** The reader's answer for every stored schema is exactly the resolution stored at its registration. */
  lemma ReaderRebuildsSchemas(s: Setting, n: nat, uid: string, uids: set<string>)
    requires Sound(s) && ReplayOf(s, n).Ok? && uid in ReplayOf(s, n).value.tables.schemas
    requires HasShape(s, n) && UidsAreHashes(s, n)
    requires uid in uids
    requires forall x :: x in ReplayOf(s, n).value.tables.schemas[uid].resolved.lineage ==> x in uids
    ensures var t := ReplayOf(s, n).value.tables;
            Authoritative(t.schemas[uid], EvidenceOf(t, uids), s.profile, uid, s.codec) == Some(t.schemas[uid].resolved)
  {
    hide ReplayOf, Sound, HasShape, UidsAreHashes, IsKnown, IsStoredProjection, IsEvidence, Rebuilt, Admissible,
         AllFields;
    var t := ReplayOf(s, n).value.tables;
    var row := t.schemas[uid];
    var evidence, chain := EvidenceOf(t, uids), row.resolved.lineage + [uid];
    KnownRow(s, n, uid);
    KnownEvidence(s, n, uid);
    KnownIsAdmissible(s, n, row);
    forall i | 0 <= i < |chain|
      ensures chain[i] in t.schemas && chain[i] in evidence && evidence[chain[i]].schema == t.schemas[chain[i]]
      ensures IsEvidence(evidence[chain[i]], s.profile, s.codec)
      ensures t.schemas[chain[i]].uid == chain[i] && IsKnown(s, n, t.schemas[chain[i]])
    {
      LineageIsStored(s, n, row, i);
      KnownEvidence(s, n, chain[i]);
      KnownRow(s, n, chain[i]);
    }
    var rows := RowsOf(chain, evidence);
    ChainFields(s, n, row, rows);
  }

  lemma LineageIsStored(s: Setting, n: nat, row: SchemaRow, i: nat)
    requires Sound(s) && ReplayOf(s, n).Ok? && i <= |row.resolved.lineage|
    requires Admissible(row.resolved.lineage, LevelOf(row, s.profile.networkId), KnownSchemas(s, n), ROOM)
    requires row.uid in ReplayOf(s, n).value.tables.schemas
    ensures (row.resolved.lineage + [row.uid])[i] in ReplayOf(s, n).value.tables.schemas
  {
    hide ReplayOf, Sound, Linked, Ascending, SuccessionHolds, AllFields, Reparse;
    AgreeIsCatalog(s, n);
  }
}
