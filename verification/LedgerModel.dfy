/** The values that flow from the XRPL sources into the indexer. */
module LedgerModel {
  import opened Base
  import opened SchemaLanguage
  import opened SchemaResolution

  /** A JSON value of unknown type, as far as the indexer looks at it. */
  datatype Value = Absent | Str(s: string) | Num(n: int) | Other

  /** A memo after hexadecimal and UTF-8 decoding; a part that does not decode is None. */
  datatype Memo = Memo(memoType: Option<string>, format: Option<string>, data: Option<string>)

  /** The fields of a Credential ledger entry that the indexer reads. */
  datatype CredentialFields = CredentialFields(
    issuer: Value,
    subject: Value,
    credentialType: Value,
    flags: Value,
    expiration: Value,
    uri: Value)

  /** One of the three wrappers of an affected node. */
  datatype NodeBody = NodeBody(
    isCredential: bool,
    ledgerIndex: Value,
    newFields: Option<CredentialFields>,
    finalFields: Option<CredentialFields>,
    previousFields: Option<CredentialFields>)

  datatype AffectedNode = AffectedNode(
    created: Option<NodeBody>,
    modified: Option<NodeBody>,
    deleted: Option<NodeBody>)

  datatype Transaction = Transaction(
    hash: string,
    index: nat,
    account: Value,
    transactionType: Value,
    result: Value,
    destination: Value,
    amount: Value,
    deliverMax: Value,
    hasPaths: bool,
    hasSendMax: bool,
    hasDeliverMin: bool,
    flags: Value,
    memos: seq<Memo>,
    nodes: seq<AffectedNode>)

  datatype Ledger = Ledger(
    index: nat,
    hash: string,
    parentHash: string,
    closeTime: nat,
    transactionRoot: string,
    transactions: seq<Transaction>)

  datatype Profile = Profile(
    profileId: string,
    networkId: int,
    registryAddress: string,
    registrationAmount: string,
    activationIndex: nat,
    activationHash: string)

  datatype UidInput = UidInput(
    networkId: int,
    ledgerHash: string,
    ledgerIndex: nat,
    transactionIndex: nat,
    publisher: string,
    schema: SchemaDefinition)

  /**
   The library functions the indexer calls and this model does not look into: address checksums,
   strict JSON reading, canonical JSON printing (section 3.2 of RFC 8785), payload URI syntax over
   hexadecimal text, and the schema identifier hash.
   */
  datatype Codec = Codec(
    isAddress: string -> bool,
    parseJson: string -> Result<Json, string>,
    canonicalJson: Json -> string,
    isPayloadUriHex: string -> bool,
    schemaUid: UidInput -> string)

  predicate SameUid(codec: Codec, a: UidInput, b: UidInput) {
    codec.schemaUid(a) == codec.schemaUid(b)
  }

  predicate SamePosition(a: UidInput, b: UidInput) {
    a.ledgerIndex == b.ledgerIndex && a.transactionIndex == b.transactionIndex
  }

  /** No two registrations at different positions of the ledger get the same identifier. */
  ghost predicate SoundUid(codec: Codec) {
    forall a, b :: SameUid(codec, a, b) ==> SamePosition(a, b)
  }

  /** Bit `bit` of a number as JavaScript's `&` sees it. */
  predicate HasFlag(n: int, bit: int)
    requires bit > 0
  {
    (n / bit) % 2 == 1
  }

  function Uint32Of(v: Value): Option<int> {
    if v.Num? && IsUint32(v.n) then Some(v.n) else None
  }

  const CREDENTIAL_ACCEPTED_FLAG := 0x1_0000

  predicate IsAccepted(fields: CredentialFields) {
    var flags := Uint32Of(fields.flags);
    flags.Some? && HasFlag(flags.value, CREDENTIAL_ACCEPTED_FLAG)
  }

  // ---- The schema catalog of the indexer ------------------------------------

  datatype CatalogEntry = CatalogEntry(
    schema: RegisteredSchema,
    resolved: ResolvedSchema,
    name: string,
    description: string,
    transactionHash: string)

  type IndexCatalog = map<string, CatalogEntry>

  /** The lookup that schema resolution is given. */
  function SchemasOf(catalog: IndexCatalog): Catalog {
    map uid | uid in catalog :: catalog[uid].schema
  }

  datatype SchemaRegistration =
    | Accepted(
        transactionHash: string,
        transactionIndex: nat,
        publisher: string,
        uid: string,
        memo: Json,
        definition: SchemaDefinition,
        resolved: ResolvedSchema)
    | Rejected(
        transactionHash: string,
        transactionIndex: nat,
        publisher: string,
        reason: string,
        rejectedMemo: Option<Json>)

  /** The catalog entry of an accepted registration. */
  function EntryOf(r: SchemaRegistration, networkId: int, ledgerIndex: nat): CatalogEntry
    requires r.Accepted?
  {
    CatalogEntry(
      RegisteredSchema(r.uid, r.definition, Coordinates(networkId, r.publisher, ledgerIndex, r.transactionIndex)),
      r.resolved, r.definition.name, r.definition.description, r.transactionHash)
  }

  function AddRegistration(catalog: IndexCatalog, r: SchemaRegistration, networkId: int, ledgerIndex: nat):
                           IndexCatalog {
    if r.Accepted? then catalog[r.uid := EntryOf(r, networkId, ledgerIndex)] else catalog
  }

  // ---- Credential mutations --------------------------------------------------

  datatype EventType = CreatedEvent | AcceptedEvent | DeletedEvent

  datatype DeletionCause =
    | IssuerRevoked
    | SubjectRejected
    | SubjectRemoved
    | ExpiredCleanup
    | AccountDeleted
    | SelfDeleted

  datatype CredentialMutation = CredentialMutation(
    transactionHash: string,
    transactionIndex: nat,
    nodeIndex: nat,
    objectId: string,
    eventType: EventType,
    issuer: string,
    subject: string,
    schemaUid: string,
    uriHex: Option<string>,
    expiration: Option<int>,
    accepted: bool,
    cause: Option<DeletionCause>,
    snapshot: CredentialFields)

  datatype Projection = Projection(
    ledger: Ledger,
    registrations: seq<SchemaRegistration>,
    mutations: seq<CredentialMutation>,
    malformedNodes: nat)
}
