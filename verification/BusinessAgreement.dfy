/**
 The wallet and the indexer agree on what a finished operation looks like: the event row that the indexer stores for a
 wallet action is the evidence that the wallet's journal waits for.
 */
module BusinessAgreement {
  import opened Base
  import opened LedgerModel
  import opened CredentialMutations
  import opened ProjectionStore
  import opened Replay
  import opened EventHistory
  import BusinessContext
  import Journal

  /** Each cause of a deletion, by what happened on the ledger. */
  lemma CauseIsExact(tx: Transaction, fields: CredentialFields, closeTime: nat)
    ensures var cause := CauseOfDeletion(tx, fields, closeTime);
            var isDelete, byIssuer, bySubject :=
              tx.transactionType == Str("CredentialDelete"), tx.account == fields.issuer, tx.account == fields.subject;
            && (cause.AccountDeleted? <==> tx.transactionType == Str("AccountDelete"))
            && (cause.IssuerRevoked? <==> isDelete && byIssuer)
            && (cause.SubjectRemoved? <==> isDelete && bySubject && !byIssuer && IsAccepted(fields))
            && (cause.SubjectRejected? <==> isDelete && bySubject && !byIssuer && !IsAccepted(fields))
            && (cause.ExpiredCleanup? <==>
                  && !cause.AccountDeleted? && !(isDelete && (byIssuer || bySubject))
                  && Uint32Of(fields.expiration).Some? && Uint32Of(fields.expiration).value <= closeTime)
  {
  }

  function KindOf(event: EventType): Journal.EventKind {
    match event
    case CreatedEvent => Journal.Created
    case AcceptedEvent => Journal.AcceptedKind
    case DeletedEvent => Journal.Deleted
  }

  function CauseFieldOf(cause: Option<DeletionCause>): Journal.CauseField {
    match cause
    case None => Journal.NullCause
    case Some(IssuerRevoked) => Journal.KnownCause(Journal.IssuerRevoked)
    case Some(SubjectRejected) => Journal.KnownCause(Journal.SubjectRejected)
    case Some(SubjectRemoved) => Journal.KnownCause(Journal.SubjectRemoved)
    case Some(ExpiredCleanup) => Journal.KnownCause(Journal.ExpiredCleanup)
    case Some(AccountDeleted) => Journal.KnownCause(Journal.AccountDeleted)
    case Some(SelfDeleted) => Journal.KnownCause(Journal.SelfDeleted)
  }

  /** A stored credential event as the API hands it to the wallet. */
  function EvidenceOf(e: EventRow): Journal.Evidence {
    Journal.Evidence(e.transactionHash, e.ledgerIndex, e.ledgerHash, e.transactionIndex, Some(e.schemaUid),
                     Some(e.generationId), None, Some(KindOf(e.eventType)), Some(e.accepted), CauseFieldOf(e.cause))
  }

  /** The node belongs to the Credential that the context names. */
  predicate Concerns(c: BusinessContext.Context, fields: CredentialFields) {
    && (c.CredentialIssue? || c.GenerationBound?)
    && fields.issuer == Str(c.issuer) && fields.subject == Str(c.subject)
    && fields.credentialType.Str? && SchemaUidOf(fields) == c.schemaUid && fields.uri.Str?
  }

  /** The transaction and node kind of each action, as the wallet prepares them. */
  predicate IsActionOf(c: BusinessContext.Context, tx: Transaction, node: NormalizedNode) {
    match c
    case CredentialIssue(issuer, _, _, _, _, _) => node.kind.CreatedNode? && tx.account == Str(issuer)
    case GenerationBound(AcceptCredential, _, _, _, _, _) => node.kind.ModifiedNode?
    case GenerationBound(RevokeCredential, issuer, _, _, _, _) =>
      node.kind.DeletedNode? && tx.transactionType == Str("CredentialDelete") && tx.account == Str(issuer)
    case GenerationBound(_, _, subject, _, _, _) =>
      node.kind.DeletedNode? && tx.transactionType == Str("CredentialDelete") && tx.account == Str(subject)
    case _ => false
  }

  /** What the ledger must say for the action to have had its intended effect. */
  predicate HadEffect(c: BusinessContext.Context, fields: CredentialFields) {
    match c
    case CredentialIssue(issuer, subject, _, _, _, _) => IsAccepted(fields) <==> issuer == subject
    case GenerationBound(RejectCredential, issuer, subject, _, _, _) => !IsAccepted(fields) && issuer != subject
    case GenerationBound(RemoveCredential, _, _, _, _, _) => IsAccepted(fields)
    case _ => true
  }

  /** The node that a stored event was read from, and its transaction. */
  predicate IsBehind(s: Setting, e: EventRow, tx: Transaction, node: NormalizedNode) {
    var m := e.ledgerIndex - s.profile.activationIndex;
    && 0 <= m && IsNode(s, m, e.transactionIndex, e.nodeIndex)
    && tx == TransactionAt(s, m, e.transactionIndex)
    && NormalizeNode(tx.nodes[e.nodeIndex]) == Some(node)
  }

  /** What confirms an operation: the intended effect, and for an existing Credential the generation it was meant for. */
  predicate IsConfirmation(c: BusinessContext.Context, fields: CredentialFields, generationId: string) {
    HadEffect(c, fields) && (c.GenerationBound? ==> generationId == c.generationId)
  }

  lemma RowConfirms(c: BusinessContext.Context, tx: Transaction, ledger: Ledger, j: nat, node: NormalizedNode, e: EventRow)
    requires Concerns(c, node.fields) && IsActionOf(c, tx, node) && EventOf(node).Some?
    requires IsRowOf(e, ledger, MutationOf(tx, j, node, EventOf(node).value, ledger.closeTime))
    ensures Journal.Supports(c, Journal.Confirmed, EvidenceOf(e), tx.hash) <==> IsConfirmation(c, node.fields, e.generationId)
  {
    CauseIsExact(tx, node.fields, ledger.closeTime);
  }

  /**
   For every credential action of the wallet and every stored event of a transaction that performs it: the row confirms
   the operation exactly when the action had its effect, a removal of an accepted, a rejection of an unaccepted
   Credential, any acceptance and any revocation, on the generation it was meant for.
   */
  lemma StoredEventConfirms(s: Setting, n: nat, e: EventRow, c: BusinessContext.Context, tx: Transaction,
                            node: NormalizedNode)
    requires Sound(s) && ReplayOf(s, n).Ok? && e in ReplayOf(s, n).value.tables.events
    requires IsBehind(s, e, tx, node) && Concerns(c, node.fields) && IsActionOf(c, tx, node)
    ensures Journal.Supports(c, Journal.Confirmed, EvidenceOf(e), tx.hash) <==> IsConfirmation(c, node.fields, e.generationId)
  {
    hide Sound, ReplayOf, NormalizeNode, Journal.Supports, IsConfirmation, EvidenceOf, IsNodeStored, OnePerNode, Concerns,
         IsActionOf, EventOf;
    EventRowsAreExact(s, n);
    assert IsEventRead(s, n, e);
    var ledger := LedgerAt(s, e.ledgerIndex - s.profile.activationIndex);
    RowConfirms(c, tx, ledger, e.nodeIndex, node, e);
  }

  /** And where the indexer reads an event for the action at all, such a row is stored. */
  lemma ActionIsStored(s: Setting, n: nat, m: nat, k: nat, j: nat) returns (e: EventRow)
    requires Sound(s) && ReplayOf(s, n).Ok? && m < n && IsNode(s, m, k, j) && OutcomeAt(s, m, k, j).Emits?
    ensures e in ReplayOf(s, n).value.tables.events
    ensures e.ledgerIndex == LedgerAt(s, m).index && e.transactionIndex == k && e.nodeIndex == j
    ensures IsRowOf(e, LedgerAt(s, m), OutcomeAt(s, m, k, j).mutation)
  {
    hide Sound, ReplayOf, OutcomeAt, OnePerNode;
    EventRowsAreExact(s, n);
    var events, hash := ReplayOf(s, n).value.tables.events, TransactionAt(s, m, k).hash;
    assert IsNodeStored(s, m, k, j, events);
    var i :| 0 <= i < |events| && events[i].transactionHash == hash && events[i].nodeIndex == j;
    e := events[i];
    RowIsOfNode(s, n, m, k, e);
  }

  /** Hashes tell transactions apart, so an event row with the hash of a transaction is that transaction's. */
  lemma RowIsOfNode(s: Setting, n: nat, m: nat, k: nat, e: EventRow)
    requires Sound(s) && IsEventRead(s, n, e) && IsTransaction(s, m, k) && e.transactionHash == TransactionAt(s, m, k).hash
    ensures e.ledgerIndex - s.profile.activationIndex == m && e.transactionIndex == k
    ensures e.ledgerIndex == LedgerAt(s, m).index
  {
    hide OutcomeAt, IsHistory;
    var p := e.ledgerIndex - s.profile.activationIndex;
    NodeOfOutcome(s, p, e.transactionIndex, e.nodeIndex);
    assert SameHash(s, p, e.transactionIndex, m, k);
    PositionOfLedger(s, m);
  }
}
