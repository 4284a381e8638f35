/**
 The five projection tables and the effect of persisting one ledger, row by row.

 Tables keyed by a hash are maps. Generations, events and checkpoints keep their insertion order, so
 that the queries that pick one row are ordinary scans.
 */
module ProjectionStore {
  import opened Base
  import opened SchemaLanguage
  import opened SchemaResolution
  import opened LedgerModel
  import opened ProjectLedger

  datatype SchemaEventRow = SchemaEventRow(
    transactionHash: string,
    ledgerIndex: nat,
    ledgerHash: string,
    transactionIndex: nat,
    publisher: string,
    accepted: bool,
    reason: Option<string>,
    uid: Option<string>,
    memo: Option<Json>)

  datatype SchemaRow = SchemaRow(
    uid: string,
    publisher: string,
    name: string,
    description: string,
    parentUid: Option<string>,
    supersedesUid: Option<string>,
    definition: SchemaDefinition,
    resolved: ResolvedSchema,
    registrationHash: string,
    ledgerIndex: nat,
    transactionIndex: nat)

  datatype GenerationRow = GenerationRow(
    generationId: string,
    objectId: string,
    issuer: string,
    subject: string,
    schemaUid: string,
    uriHex: Option<string>,
    expiration: Option<int>,
    accepted: bool,
    createdLedgerIndex: nat,
    createdTransactionIndex: nat,
    lastLedgerIndex: nat,
    deletedLedgerIndex: Option<nat>,
    cause: Option<DeletionCause>)

  datatype EventRow = EventRow(
    transactionHash: string,
    nodeIndex: nat,
    generationId: string,
    objectId: string,
    ledgerIndex: nat,
    ledgerHash: string,
    transactionIndex: nat,
    eventType: EventType,
    issuer: string,
    subject: string,
    schemaUid: string,
    uriHex: Option<string>,
    expiration: Option<int>,
    accepted: bool,
    cause: Option<DeletionCause>,
    snapshot: CredentialFields)

  datatype Tables = Tables(
    schemaEvents: map<string, SchemaEventRow>,
    schemas: map<string, SchemaRow>,
    generations: seq<GenerationRow>,
    events: seq<EventRow>,
    checkpoints: seq<Checkpoint>)

  const EmptyTables := Tables(map[], map[], [], [], [])

  datatype PersistError =
    | LeaseLost
    | CheckpointConflict
    | CheckpointEvidenceMissing
    | NotContinuous(error: ContinuityError)
    | NoLiveGeneration
    | UniqueViolation
    | ForeignKeyViolation
    | CheckViolation
    | StatusRejected

  datatype Outcome = Inserted | AlreadyProcessed

  // ---- Constraints -------------------------------------------------------------

  predicate IsOptionalHash(s: Option<string>) {
    s.Some? ==> IsHash(s.value)
  }

  predicate IsOptionalUint32(n: Option<int>) {
    n.Some? ==> IsUint32(n.value)
  }

  predicate IsSchemaEventRow(r: SchemaEventRow) {
    && IsHash(r.transactionHash) && IsHash(r.ledgerHash) && IsUint32(r.ledgerIndex) && r.transactionIndex <= INT32_MAX
    && (if r.accepted then r.uid.Some? && r.reason.None? && r.memo.Some? else r.uid.None? && r.reason.Some?)
    && IsOptionalHash(r.uid)
  }

  predicate IsSchemaRow(r: SchemaRow) {
    && IsHash(r.uid) && IsOptionalHash(r.parentUid) && IsOptionalHash(r.supersedesUid)
    && IsHash(r.registrationHash) && IsUint32(r.ledgerIndex) && r.transactionIndex <= INT32_MAX
  }

  predicate IsGenerationRow(g: GenerationRow) {
    && IsHash(g.generationId) && IsHash(g.objectId) && IsHash(g.schemaUid) && IsOptionalUint32(g.expiration)
    && IsUint32(g.createdLedgerIndex) && g.createdTransactionIndex <= INT32_MAX && IsUint32(g.lastLedgerIndex)
    && g.lastLedgerIndex >= g.createdLedgerIndex
    && (g.deletedLedgerIndex.Some? ==> g.deletedLedgerIndex.value == g.lastLedgerIndex)
    && (g.deletedLedgerIndex.Some? <==> g.cause.Some?)
  }

  predicate IsEventRow(e: EventRow) {
    && IsHash(e.transactionHash) && IsHash(e.objectId) && IsHash(e.ledgerHash) && IsHash(e.schemaUid)
    && e.nodeIndex <= INT32_MAX && IsUint32(e.ledgerIndex) && e.transactionIndex <= INT32_MAX
    && IsOptionalUint32(e.expiration)
    && (e.eventType.DeletedEvent? <==> e.cause.Some?)
  }

  predicate IsCheckpointRow(c: Checkpoint) {
    && IsUint32(c.ledgerIndex) && IsHash(c.ledgerHash) && IsHash(c.parentHash) && IsUint32(c.closeTime)
    && c.transactionCount <= INT32_MAX && c.transactionRoot.Some? && IsHash(c.transactionRoot.value)
  }

  /** The check constraints of all five tables, and the uniqueness of checkpoint hashes. */
  predicate MeetsConstraints(t: Tables) {
    && (forall hash :: hash in t.schemaEvents ==> IsSchemaEventRow(t.schemaEvents[hash]))
    && (forall uid :: uid in t.schemas ==> IsSchemaRow(t.schemas[uid]))
    && (forall i :: 0 <= i < |t.generations| ==> IsGenerationRow(t.generations[i]))
    && (forall i :: 0 <= i < |t.events| ==> IsEventRow(t.events[i]))
    && (forall i :: 0 <= i < |t.checkpoints| ==> IsCheckpointRow(t.checkpoints[i]))
    && (forall i, j :: 0 <= i < j < |t.checkpoints| ==> t.checkpoints[i].ledgerHash != t.checkpoints[j].ledgerHash)
  }

  // ---- Queries ---------------------------------------------------------------

  /** The checkpoint with the greatest index. */
  function Newest(checkpoints: seq<Checkpoint>): (r: Option<Checkpoint>)
    ensures r.None? <==> checkpoints == []
    ensures r.Some? ==> r.value in checkpoints
    ensures r.Some? ==> forall c :: c in checkpoints ==> c.ledgerIndex <= r.value.ledgerIndex
  {
    if checkpoints == [] then None
    else
      var last, init := checkpoints[|checkpoints| - 1], Newest(checkpoints[..|checkpoints| - 1]);
      assert checkpoints == checkpoints[..|checkpoints| - 1] + [last];
      if init.Some? && init.value.ledgerIndex > last.ledgerIndex then init else Some(last)
  }

  function CheckpointAt(checkpoints: seq<Checkpoint>, ledgerIndex: nat): (r: Option<Checkpoint>)
    ensures r.Some? ==> r.value in checkpoints && r.value.ledgerIndex == ledgerIndex
    ensures r.None? ==> forall c :: c in checkpoints ==> c.ledgerIndex != ledgerIndex
  {
    if checkpoints == [] then None
    else if checkpoints[0].ledgerIndex == ledgerIndex then Some(checkpoints[0])
    else CheckpointAt(checkpoints[1..], ledgerIndex)
  }

  function EntryOfRow(row: SchemaRow, networkId: int): CatalogEntry {
    CatalogEntry(
      RegisteredSchema(row.uid, row.definition, Coordinates(networkId, row.publisher, row.ledgerIndex, row.transactionIndex)),
      row.resolved, row.name, row.description, row.registrationHash)
  }

  /** The catalog that a restarted worker rebuilds from the stored schemas. */
  function CatalogOf(schemas: map<string, SchemaRow>, networkId: int): IndexCatalog {
    map uid | uid in schemas :: EntryOfRow(schemas[uid], networkId)
  }

  predicate IsLiveFor(g: GenerationRow, objectId: string) {
    g.objectId == objectId && g.deletedLedgerIndex.None?
  }

  /** The live generation of an object with the latest creation, as the position of its row. */
  function LiveIndex(generations: seq<GenerationRow>, objectId: string): (r: Option<nat>)
    ensures r.Some? ==> r.value < |generations| && IsLiveFor(generations[r.value], objectId)
    ensures r.None? ==> forall i :: 0 <= i < |generations| ==> !IsLiveFor(generations[i], objectId)
    ensures r.Some? ==> forall i :: 0 <= i < |generations| && IsLiveFor(generations[i], objectId) ==>
                          generations[i].createdLedgerIndex <= generations[r.value].createdLedgerIndex
  {
    if generations == [] then None
    else
      var n := |generations| - 1;
      var init := LiveIndex(generations[..n], objectId);
      if !IsLiveFor(generations[n], objectId) then init
      else if init.Some? && generations[init.value].createdLedgerIndex > generations[n].createdLedgerIndex then init
      else Some(n)
  }

  predicate SameTuple(g: GenerationRow, m: CredentialMutation) {
    g.issuer == m.issuer && g.subject == m.subject && g.schemaUid == m.schemaUid
  }

  /** The primary key and the one-live-generation-per-tuple index. */
  predicate BreaksUniqueness(generations: seq<GenerationRow>, m: CredentialMutation) {
    exists i :: 0 <= i < |generations| &&
      (generations[i].generationId == m.transactionHash
       || (generations[i].deletedLedgerIndex.None? && SameTuple(generations[i], m)))
  }

  predicate HasEvent(events: seq<EventRow>, transactionHash: string, nodeIndex: nat) {
    exists i :: 0 <= i < |events| && events[i].transactionHash == transactionHash && events[i].nodeIndex == nodeIndex
  }

  // ---- Registrations -----------------------------------------------------------

  function SchemaEventOf(ledger: Ledger, r: SchemaRegistration): SchemaEventRow {
    match r
    case Accepted(hash, index, publisher, uid, memo, _, _) =>
      SchemaEventRow(hash, ledger.index, ledger.hash, index, publisher, true, None, Some(uid), Some(memo))
    case Rejected(hash, index, publisher, reason, memo) =>
      SchemaEventRow(hash, ledger.index, ledger.hash, index, publisher, false, Some(reason), None, memo)
  }

  function SchemaRowOf(ledger: Ledger, r: SchemaRegistration): SchemaRow
    requires r.Accepted?
  {
    SchemaRow(r.uid, r.publisher, r.definition.name, r.definition.description,
              r.definition.ext, r.definition.supersedes, r.definition, r.resolved,
              r.transactionHash, ledger.index, r.transactionIndex)
  }

  predicate SchemaConflicts(schemas: map<string, SchemaRow>, row: SchemaRow) {
    row.uid in schemas || exists uid :: uid in schemas && schemas[uid].registrationHash == row.registrationHash
  }

  /** Both inserts leave an existing row untouched. */
  function ApplyRegistration(t: Tables, ledger: Ledger, r: SchemaRegistration): Tables {
    var events := if r.transactionHash in t.schemaEvents then t.schemaEvents
                  else t.schemaEvents[r.transactionHash := SchemaEventOf(ledger, r)];
    var schemas := if r.Accepted? && !SchemaConflicts(t.schemas, SchemaRowOf(ledger, r))
                   then t.schemas[r.uid := SchemaRowOf(ledger, r)] else t.schemas;
    t.(schemaEvents := events, schemas := schemas)
  }

  function ApplyRegistrations(t: Tables, ledger: Ledger, rs: seq<SchemaRegistration>): Tables {
    if rs == [] then t
    else ApplyRegistration(ApplyRegistrations(t, ledger, rs[..|rs| - 1]), ledger, rs[|rs| - 1])
  }

  lemma NoRegistrations(t: Tables, ledger: Ledger)
    ensures ApplyRegistrations(t, ledger, []) == t
  {
  }

  // ---- Credential mutations ------------------------------------------------------

  function GenerationOf(ledger: Ledger, m: CredentialMutation): GenerationRow {
    GenerationRow(m.transactionHash, m.objectId, m.issuer, m.subject, m.schemaUid, m.uriHex, m.expiration,
                  m.accepted, ledger.index, m.transactionIndex, ledger.index, None, None)
  }

  function AfterEvent(g: GenerationRow, ledger: Ledger, m: CredentialMutation): GenerationRow {
    if m.eventType.AcceptedEvent? then g.(accepted := true, lastLedgerIndex := ledger.index)
    else g.(lastLedgerIndex := ledger.index, deletedLedgerIndex := Some(ledger.index), cause := m.cause)
  }

  function EventRowOf(ledger: Ledger, m: CredentialMutation, generationId: string): EventRow {
    EventRow(m.transactionHash, m.nodeIndex, generationId, m.objectId, ledger.index, ledger.hash, m.transactionIndex,
             m.eventType, m.issuer, m.subject, m.schemaUid, m.uriHex, m.expiration, m.accepted, m.cause, m.snapshot)
  }

  function InsertEvent(events: seq<EventRow>, row: EventRow): seq<EventRow> {
    if HasEvent(events, row.transactionHash, row.nodeIndex) then events else events + [row]
  }

  function ApplyMutation(t: Tables, ledger: Ledger, m: CredentialMutation): Result<Tables, PersistError> {
    if m.eventType.CreatedEvent? then
      if BreaksUniqueness(t.generations, m) then Err(UniqueViolation)
      else if m.schemaUid !in t.schemas then Err(ForeignKeyViolation)
      else
        Ok(t.(generations := t.generations + [GenerationOf(ledger, m)],
              events := InsertEvent(t.events, EventRowOf(ledger, m, m.transactionHash))))
    else
      match LiveIndex(t.generations, m.objectId)
      case None => Err(NoLiveGeneration)
      case Some(i) =>
        var g := t.generations[i];
        if m.schemaUid !in t.schemas then Err(ForeignKeyViolation)
        else
          Ok(t.(generations := t.generations[i := AfterEvent(g, ledger, m)],
                events := InsertEvent(t.events, EventRowOf(ledger, m, g.generationId))))
  }

  function ApplyMutations(t: Tables, ledger: Ledger, ms: seq<CredentialMutation>): Result<Tables, PersistError> {
    if ms == [] then Ok(t)
    else
      match ApplyMutations(t, ledger, ms[..|ms| - 1])
      case Err(e) => Err(e)
      case Ok(before) => ApplyMutation(before, ledger, ms[|ms| - 1])
  }

  lemma {:induction false} ApplyMutationsConcat(t: Tables, ledger: Ledger, a: seq<CredentialMutation>, b:
                                                seq<CredentialMutation>)
    ensures ApplyMutations(t, ledger, a + b) ==
            (match ApplyMutations(t, ledger, a)
             case Err(e) => Err(e)
             case Ok(middle) => ApplyMutations(middle, ledger, b))
    decreases |b|
  {
    if b == [] {
      assert a + b == a;
    } else {
      var init := b[..|b| - 1];
      ApplyMutationsConcat(t, ledger, a, init);
      assert (a + b)[..|a + b| - 1] == a + init;
    }
  }

  // ---- One ledger ------------------------------------------------------------------

  /** The rows of one ledger without its checkpoint: registrations first, then mutations. */
  function ApplyRows(t: Tables, p: Projection): Result<Tables, PersistError> {
    ApplyMutations(ApplyRegistrations(t, p.ledger, p.registrations), p.ledger, p.mutations)
  }

  function AddCheckpoint(t: Tables, ledger: Ledger): Tables {
    t.(checkpoints := t.checkpoints + [CheckpointOf(ledger)])
  }

  /** An already stored checkpoint must carry the same evidence; otherwise the ledger is refused. */
  function CompareStored(stored: Checkpoint, ledger: Ledger): Option<PersistError> {
    if stored.ledgerHash != ledger.hash then Some(CheckpointConflict)
    else if stored.transactionRoot.None? then Some(CheckpointEvidenceMissing)
    else if stored.transactionRoot.value != ledger.transactionRoot
            || stored.transactionCount != |ledger.transactions| then Some(CheckpointConflict)
    else None
  }

  /** The effect of one persistLedger transaction on the projection tables. */
  function Persist(t: Tables, profile: Profile, p: Projection): Result<(Tables, Outcome), PersistError> {
    var stored := CheckpointAt(t.checkpoints, p.ledger.index);
    if stored.Some? then
      var refused := CompareStored(stored.value, p.ledger);
      if refused.Some? then Err(refused.value) else Ok((t, AlreadyProcessed))
    else
      var broken := Continuity(profile, Newest(t.checkpoints), p.ledger);
      if broken.Some? then Err(NotContinuous(broken.value))
      else
        match ApplyRows(t, p)
        case Err(e) => Err(e)
        case Ok(rows) =>
          var after := AddCheckpoint(rows, p.ledger);
          if MeetsConstraints(after) then Ok((after, Inserted)) else Err(CheckViolation)
  }

  lemma {:induction false} RegistrationsKeepRest(t: Tables, ledger: Ledger, rs: seq<SchemaRegistration>)
    ensures var r := ApplyRegistrations(t, ledger, rs);
            r.generations == t.generations && r.events == t.events && r.checkpoints == t.checkpoints
    decreases |rs|
  {
    if rs != [] { RegistrationsKeepRest(t, ledger, rs[..|rs| - 1]); }
  }

  lemma {:induction false} MutationsKeepRest(t: Tables, ledger: Ledger, ms: seq<CredentialMutation>)
    ensures var r := ApplyMutations(t, ledger, ms);
            r.Ok? ==> && r.value.schemas == t.schemas && r.value.schemaEvents == t.schemaEvents
                      && r.value.checkpoints == t.checkpoints
    decreases |ms|
  {
    if ms != [] { MutationsKeepRest(t, ledger, ms[..|ms| - 1]); }
  }

  /** A successful persist either changes nothing or adds exactly the ledger's checkpoint. */
  lemma PersistCheckpoints(t: Tables, profile: Profile, p: Projection)
    requires Persist(t, profile, p).Ok?
    ensures var (after, outcome) := Persist(t, profile, p).value;
            && (outcome.AlreadyProcessed? ==> after == t)
            && (outcome.Inserted? ==> after.checkpoints == t.checkpoints + [CheckpointOf(p.ledger)])
  {
    RegistrationsKeepRest(t, p.ledger, p.registrations);
    MutationsKeepRest(ApplyRegistrations(t, p.ledger, p.registrations), p.ledger, p.mutations);
  }

  // ---- The checkpoint chain ----------------------------------------------------------

  /** Gapless from the activation ledger, each row's parent hash being its predecessor's hash. */
  predicate IsChain(checkpoints: seq<Checkpoint>, profile: Profile) {
    && (checkpoints != [] ==> checkpoints[0].ledgerHash == Lower(profile.activationHash))
    && (forall i :: 0 <= i < |checkpoints| ==> checkpoints[i].ledgerIndex == profile.activationIndex + i)
    && (forall i :: 0 < i < |checkpoints| ==> checkpoints[i].parentHash == checkpoints[i - 1].ledgerHash)
  }

  lemma ChainNewest(checkpoints: seq<Checkpoint>, profile: Profile)
    requires IsChain(checkpoints, profile) && checkpoints != []
    ensures Newest(checkpoints) == Some(checkpoints[|checkpoints| - 1])
  {
    var last := checkpoints[|checkpoints| - 1];
    assert last in checkpoints;
    var newest := Newest(checkpoints).value;
    assert last.ledgerIndex <= newest.ledgerIndex;
    var i :| 0 <= i < |checkpoints| && checkpoints[i] == newest;
  }

  /** Any persist of any projection keeps the chain and every existing row of it. */
  lemma PersistKeepsChain(t: Tables, profile: Profile, p: Projection)
    requires IsChain(t.checkpoints, profile) && Persist(t, profile, p).Ok?
    ensures var after := Persist(t, profile, p).value.0;
            && IsChain(after.checkpoints, profile)
            && t.checkpoints <= after.checkpoints
  {
    PersistCheckpoints(t, profile, p);
    if t.checkpoints != [] { ChainNewest(t.checkpoints, profile); }
  }

  /** With a chain, the already-processed path is taken exactly for the indexes the chain covers. */
  lemma ChainCovers(checkpoints: seq<Checkpoint>, profile: Profile, ledgerIndex: nat)
    requires IsChain(checkpoints, profile)
    ensures CheckpointAt(checkpoints, ledgerIndex).Some?
            <==> profile.activationIndex <= ledgerIndex < profile.activationIndex + |checkpoints|
  {
    if profile.activationIndex <= ledgerIndex < profile.activationIndex + |checkpoints| {
      assert checkpoints[ledgerIndex - profile.activationIndex] in checkpoints;
    }
    var r := CheckpointAt(checkpoints, ledgerIndex);
    if r.Some? {
      var i :| 0 <= i < |checkpoints| && checkpoints[i] == r.value;
    }
  }
}
