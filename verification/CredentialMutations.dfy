/** Reading the credential changes out of one transaction's metadata. */
module CredentialMutations {
  import opened Base
  import opened LedgerModel

  datatype NodeKind = CreatedNode | ModifiedNode | DeletedNode

  datatype NormalizedNode = NormalizedNode(
    kind: NodeKind,
    objectId: string,
    fields: CredentialFields,
    previousFlags: Value)

  predicate IsCredentialBody(body: Option<NodeBody>) {
    body.Some? && body.value.isCredential
  }

  predicate ContainsCredential(node: AffectedNode) {
    IsCredentialBody(node.created) || IsCredentialBody(node.modified) || IsCredentialBody(node.deleted)
  }

  function NormalizeBody(kind: NodeKind, body: NodeBody): Option<NormalizedNode> {
    if !body.ledgerIndex.Str? || !IsAnyCaseHash(body.ledgerIndex.s) then None
    else
      var fields := if kind.CreatedNode? then body.newFields else body.finalFields;
      if fields.None? then None
      else
        var previousFlags := if body.previousFields.Some? then body.previousFields.value.flags else Absent;
        Some(NormalizedNode(kind, Lower(body.ledgerIndex.s), fields.value, previousFlags))
  }

  /** The first wrapper that is a Credential decides, in the order created, modified, deleted. */
  function NormalizeNode(node: AffectedNode): Option<NormalizedNode> {
    if IsCredentialBody(node.created) then NormalizeBody(CreatedNode, node.created.value)
    else if IsCredentialBody(node.modified) then NormalizeBody(ModifiedNode, node.modified.value)
    else if IsCredentialBody(node.deleted) then NormalizeBody(DeletedNode, node.deleted.value)
    else None
  }

  function CauseOfDeletion(tx: Transaction, fields: CredentialFields, closeTime: nat): DeletionCause {
    if tx.transactionType == Str("AccountDelete") then AccountDeleted
    else if tx.transactionType == Str("CredentialDelete") && tx.account == fields.issuer then IssuerRevoked
    else if tx.transactionType == Str("CredentialDelete") && tx.account == fields.subject then
      if IsAccepted(fields) then SubjectRemoved else SubjectRejected
    else
      var expiration := Uint32Of(fields.expiration);
      if expiration.Some? && expiration.value <= closeTime then ExpiredCleanup else SelfDeleted
  }

  datatype NodeOutcome = Ignored | Malformed | Emits(mutation: CredentialMutation)

  predicate HasIdentity(fields: CredentialFields, codec: Codec) {
    && fields.issuer.Str? && fields.subject.Str?
    && codec.isAddress(fields.issuer.s) && codec.isAddress(fields.subject.s)
    && fields.credentialType.Str? && IsAnyCaseHash(fields.credentialType.s)
  }

  predicate OptionalUint32(v: Value) {
    v == Absent || Uint32Of(v).Some?
  }

  predicate HasPayloadUri(fields: CredentialFields, codec: Codec) {
    fields.uri.Str? && codec.isPayloadUriHex(fields.uri.s)
  }

  function SchemaUidOf(fields: CredentialFields): string
    requires fields.credentialType.Str?
  {
    Lower(fields.credentialType.s)
  }

  /** The event a well-formed node stands for; a modification counts only when it turns the flag on. */
  function EventOf(node: NormalizedNode): Option<EventType> {
    match node.kind
    case CreatedNode => Some(CreatedEvent)
    case DeletedNode => Some(DeletedEvent)
    case ModifiedNode =>
      var previous := Uint32Of(node.previousFlags);
      if !IsAccepted(node.fields) || (previous.Some? && HasFlag(previous.value, CREDENTIAL_ACCEPTED_FLAG))
      then None
      else Some(AcceptedEvent)
  }

  function MutationOf(tx: Transaction, nodeIndex: nat, node: NormalizedNode, event: EventType, closeTime: nat)
    : CredentialMutation
    requires node.fields.issuer.Str? && node.fields.subject.Str?
    requires node.fields.credentialType.Str? && node.fields.uri.Str?
  {
    CredentialMutation(
      tx.hash, tx.index, nodeIndex, node.objectId, event,
      node.fields.issuer.s, node.fields.subject.s, SchemaUidOf(node.fields),
      Some(node.fields.uri.s), Uint32Of(node.fields.expiration), IsAccepted(node.fields),
      if event.DeletedEvent? then Some(CauseOfDeletion(tx, node.fields, closeTime)) else None,
      node.fields)
  }

  /** What one affected node contributes, given the schema identifiers known so far. */
  function NodeOutcomeOf(tx: Transaction, nodeIndex: nat, closeTime: nat, known: set<string>, codec: Codec): NodeOutcome
    requires nodeIndex < |tx.nodes|
  {
    if !ContainsCredential(tx.nodes[nodeIndex]) then Ignored
    else
      match NormalizeNode(tx.nodes[nodeIndex])
      case None => Malformed
      case Some(node) =>
        if !HasIdentity(node.fields, codec) then Malformed
        else if SchemaUidOf(node.fields) !in known then Ignored
        else if !OptionalUint32(node.fields.flags) || !OptionalUint32(node.fields.expiration)
                || !OptionalUint32(node.previousFlags) then Malformed
        else if !HasPayloadUri(node.fields, codec) then Malformed
        else
          match EventOf(node)
          case None => Ignored
          case Some(event) => Emits(MutationOf(tx, nodeIndex, node, event, closeTime))
  }

  /** The mutations of the first n nodes, in node order. */
  function MutationsUpTo(tx: Transaction, closeTime: nat, known: set<string>, codec: Codec, n: nat):
                         seq<CredentialMutation>
    requires n <= |tx.nodes|
  {
    if n == 0 then []
    else
      var outcome := NodeOutcomeOf(tx, n - 1, closeTime, known, codec);
      MutationsUpTo(tx, closeTime, known, codec, n - 1) + (if outcome.Emits? then [outcome.mutation] else [])
  }

  function MalformedUpTo(tx: Transaction, closeTime: nat, known: set<string>, codec: Codec, n: nat): nat
    requires n <= |tx.nodes|
  {
    if n == 0 then 0
    else
      MalformedUpTo(tx, closeTime, known, codec, n - 1)
      + (if NodeOutcomeOf(tx, n - 1, closeTime, known, codec).Malformed? then 1 else 0)
  }

  method ExtractMutations(tx: Transaction, closeTime: nat, known: set<string>, codec: Codec)
    returns (mutations: seq<CredentialMutation>, malformed: nat)
    ensures mutations == MutationsUpTo(tx, closeTime, known, codec, |tx.nodes|)
    ensures malformed == MalformedUpTo(tx, closeTime, known, codec, |tx.nodes|)
  {
    mutations, malformed := [], 0;
    for i := 0 to |tx.nodes|
      invariant mutations == MutationsUpTo(tx, closeTime, known, codec, i)
      invariant malformed == MalformedUpTo(tx, closeTime, known, codec, i)
    {
      match NodeOutcomeOf(tx, i, closeTime, known, codec) {
        case Ignored =>
        case Malformed => malformed := malformed + 1;
        case Emits(mutation) => mutations := mutations + [mutation];
      }
    }
  }
}
