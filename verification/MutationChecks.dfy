/** What an affected node of a transaction is read as, in the node's own fields, and the columns it ends up in. */
module MutationChecks {
  import opened Base
  import opened LedgerModel
  import opened Registration
  import opened CredentialMutations
  import opened ProjectionStore
  import opened Replay
  import opened SchemaHistory
  import opened EventHistory

  /** The wrapper that decides: the first Credential among created, modified and deleted. */
  function Deciding(node: AffectedNode): Option<(NodeKind, NodeBody)> {
    if node.created.Some? && node.created.value.isCredential then Some((CreatedNode, node.created.value))
    else if node.modified.Some? && node.modified.value.isCredential then Some((ModifiedNode, node.modified.value))
    else if node.deleted.Some? && node.deleted.value.isCredential then Some((DeletedNode, node.deleted.value))
    else None
  }

  /** Created nodes are read by their new fields, others by their final ones. */
  function FieldsOf(kind: NodeKind, body: NodeBody): Option<CredentialFields> {
    if kind == CreatedNode then body.newFields else body.finalFields
  }

  function PreviousFlags(body: NodeBody): Value {
    if body.previousFields.Some? then body.previousFields.value.flags else Absent
  }

  /** A 32-bit number with the acceptance bit. */
  predicate HasAcceptance(flags: Value) {
    flags.Num? && 0 <= flags.n <= 0xFFFF_FFFF && (flags.n / 0x1_0000) % 2 == 1
  }

  predicate IsAbsentOr32Bits(v: Value) {
    v == Absent || (v.Num? && 0 <= v.n <= 0xFFFF_FFFF)
  }

  /** Issuer and subject are addresses, and the type is a hash in hexadecimal. */
  predicate NamesCredential(fields: CredentialFields, codec: Codec) {
    && fields.issuer.Str? && codec.isAddress(fields.issuer.s) && fields.subject.Str? && codec.isAddress(fields.subject.s)
    && fields.credentialType.Str? && IsHexOf64(fields.credentialType.s)
  }

  /**
   One node, case by case: nodes of other objects are passed over; a Credential without identifier, fields or names is
   malformed; one of an unknown schema is passed over; one with flags, expiration or URI of another kind is malformed; and a
   modification counts only when it turns acceptance on. The rest is an event with the node's own columns.
   */
  lemma OutcomeExactly(tx: Transaction, j: nat, closeTime: nat, known: set<string>, codec: Codec)
    requires j < |tx.nodes|
    ensures var deciding := Deciding(tx.nodes[j]);
            NodeOutcomeOf(tx, j, closeTime, known, codec) ==
            if deciding.None? then Ignored
            else
              var (kind, body) := deciding.value;
              if !body.ledgerIndex.Str? || !IsHexOf64(body.ledgerIndex.s) || FieldsOf(kind, body).None? then Malformed
              else
                var fields := FieldsOf(kind, body).value;
                if !NamesCredential(fields, codec) then Malformed
                else if Lower(fields.credentialType.s) !in known then Ignored
                else if !IsAbsentOr32Bits(fields.flags) || !IsAbsentOr32Bits(fields.expiration)
                        || !IsAbsentOr32Bits(PreviousFlags(body)) then Malformed
                else if !fields.uri.Str? || !codec.isPayloadUriHex(fields.uri.s) then Malformed
                else if kind == ModifiedNode && (!HasAcceptance(fields.flags) || HasAcceptance(PreviousFlags(body)))
                then Ignored
                else
                  Emits(CredentialMutation(
                    tx.hash, tx.index, j, Lower(body.ledgerIndex.s),
                    if kind == CreatedNode then CreatedEvent else if kind == ModifiedNode then AcceptedEvent else DeletedEvent,
                    fields.issuer.s, fields.subject.s, Lower(fields.credentialType.s), Some(fields.uri.s),
                    if fields.expiration.Num? then Some(fields.expiration.n) else None, HasAcceptance(fields.flags),
                    if kind == DeletedNode then Some(CauseOfDeletion(tx, fields, closeTime)) else None, fields))
  {
    hide IsHexOf64, IsAnyCaseHash, Lower, CauseOfDeletion;
    forall s ensures IsHexOf64(s) <==> IsAnyCaseHash(s) { HashesAreHex(s); }
  }

  /** Deletions by their cause: the account's own end, the issuer's or the subject's act, expiry, or none of these. */
  lemma CauseExactly(tx: Transaction, fields: CredentialFields, closeTime: nat)
    ensures CauseOfDeletion(tx, fields, closeTime) ==
            if tx.transactionType == Str("AccountDelete") then AccountDeleted
            else if tx.transactionType == Str("CredentialDelete") && tx.account == fields.issuer then IssuerRevoked
            else if tx.transactionType == Str("CredentialDelete") && tx.account == fields.subject
            then (if HasAcceptance(fields.flags) then SubjectRemoved else SubjectRejected)
            else if fields.expiration.Num? && 0 <= fields.expiration.n <= 0xFFFF_FFFF && fields.expiration.n <= closeTime
            then ExpiredCleanup
            else SelfDeleted
  {
  }

  // ---- The schemas known at a position ------------------------------------------------------------------

  /** Transaction j of ledger i registers this schema. */
  predicate Registers(s: Setting, i: nat, j: nat, uid: string) {
    && IsTransaction(s, i, j) && RegistrationAt(s, i, j).Some?
    && RegistrationAt(s, i, j).value.Accepted? && RegistrationAt(s, i, j).value.uid == uid
  }

  /** A schema is known from its own registration on. */
  lemma {:induction false} KnownExactly(s: Setting, m: nat, k: nat, uid: string)
    requires k <= |LedgerAt(s, m).transactions|
    ensures uid in CatalogAt(s, m, k) <==> exists i: nat, j: nat :: (i < m || (i == m && j < k)) && Registers(s, i, j, uid)
    decreases m, k
  {
    hide Interpret;
    if k > 0 {
      KnownExactly(s, m, k - 1, uid);
      KnownStep(s, m, k - 1, uid);
      if i: nat, j: nat :| (i < m || (i == m && j < k)) && Registers(s, i, j, uid) {
        assert Registers(s, i, j, uid);
      }
    } else if m > 0 {
      KnownExactly(s, m - 1, |LedgerAt(s, m - 1).transactions|, uid);
      assert CatalogAt(s, m, 0) == CatalogAt(s, m - 1, |LedgerAt(s, m - 1).transactions|);
    }
  }

  lemma KnownStep(s: Setting, m: nat, k: nat, uid: string)
    requires IsTransaction(s, m, k)
    ensures uid in CatalogAt(s, m, k + 1) <==> uid in CatalogAt(s, m, k) || Registers(s, m, k, uid)
  {
    hide Interpret, MutationsUpTo, MalformedUpTo;
  }

  // ---- The columns of a stored event ---------------------------------------------------------------------

  /**
   A stored event is one node of the replayed ledgers: its position, ledger hash and transaction hash are the node's, its
   Credential, flags and cause are read from the node's fields, and its schema was registered by then.
   */
  lemma StoredEventColumns(s: Setting, n: nat, e: EventRow) returns (m: nat, kind: NodeKind, body: NodeBody)
    requires Sound(s) && ReplayOf(s, n).Ok? && e in ReplayOf(s, n).value.tables.events
    ensures m < n && IsTransaction(s, m, e.transactionIndex)
    ensures var tx := TransactionAt(s, m, e.transactionIndex);
            && e.nodeIndex < |tx.nodes| && Deciding(tx.nodes[e.nodeIndex]) == Some((kind, body))
            && e.ledgerIndex == s.profile.activationIndex + m && e.ledgerHash == LedgerAt(s, m).hash
            && e.transactionHash == tx.hash
            && body.ledgerIndex.Str? && e.objectId == Lower(body.ledgerIndex.s) && FieldsOf(kind, body) == Some(e.snapshot)
            && e.snapshot.issuer == Str(e.issuer) && e.snapshot.subject == Str(e.subject)
            && e.snapshot.credentialType.Str? && e.schemaUid == Lower(e.snapshot.credentialType.s)
            && e.uriHex.Some? && e.snapshot.uri == Str(e.uriHex.value)
            && e.snapshot.expiration == (if e.expiration.Some? then Num(e.expiration.value) else Absent)
            && (e.accepted <==> HasAcceptance(e.snapshot.flags))
            && (e.eventType == CreatedEvent <==> kind == CreatedNode)
            && (e.eventType == DeletedEvent <==> kind == DeletedNode)
            && e.cause == (if kind == DeletedNode then Some(CauseOfDeletion(tx, e.snapshot, LedgerAt(s, m).closeTime))
                           else None)
            && (kind == CreatedNode ==> e.generationId == tx.hash)
    ensures exists i: nat, j: nat :: (i < m || (i == m && j <= e.transactionIndex)) && Registers(s, i, j, e.schemaUid)
  {
    hide ReplayOf, Registers, IsNodeStored, OnePerNode, NodeOutcomeOf, CauseOfDeletion, CatalogAt, Lower;
    EventRowsAreExact(s, n);
    assert IsEventRead(s, n, e);
    m := e.ledgerIndex - s.profile.activationIndex;
    var k, j := e.transactionIndex, e.nodeIndex;
    var tx, known := TransactionAt(s, m, k), CatalogAt(s, m, k + 1).Keys;
    OutcomeExactly(tx, j, LedgerAt(s, m).closeTime, known, s.codec);
    kind, body := Deciding(tx.nodes[j]).value.0, Deciding(tx.nodes[j]).value.1;
    KnownExactly(s, m, k + 1, e.schemaUid);
  }

  /**
   And every such node is stored: if it is well formed, its schema was registered by its own transaction or an earlier
   one, and a modification turns acceptance on, then the table has exactly one row with its transaction and position.
   */
  lemma WellFormedNodeIsStored(s: Setting, n: nat, m: nat, k: nat, j: nat, kind: NodeKind, body: NodeBody,
                               fields: CredentialFields, i: nat, r: nat)
    requires Sound(s) && ReplayOf(s, n).Ok? && m < n && IsTransaction(s, m, k) && j < |TransactionAt(s, m, k).nodes|
    requires Deciding(TransactionAt(s, m, k).nodes[j]) == Some((kind, body)) && FieldsOf(kind, body) == Some(fields)
    requires body.ledgerIndex.Str? && IsHexOf64(body.ledgerIndex.s) && NamesCredential(fields, s.codec)
    requires IsAbsentOr32Bits(fields.flags) && IsAbsentOr32Bits(fields.expiration) && IsAbsentOr32Bits(PreviousFlags(body))
    requires fields.uri.Str? && s.codec.isPayloadUriHex(fields.uri.s)
    requires kind == ModifiedNode ==> HasAcceptance(fields.flags) && !HasAcceptance(PreviousFlags(body))
    requires (i < m || (i == m && r <= k)) && Registers(s, i, r, Lower(fields.credentialType.s))
    ensures var events, hash := ReplayOf(s, n).value.tables.events, TransactionAt(s, m, k).hash;
            && (exists x :: 0 <= x < |events| && events[x].transactionHash == hash && events[x].nodeIndex == j)
            && (forall x, y :: 0 <= x < y < |events| ==>
                  !(events[x].transactionHash == events[y].transactionHash && events[x].nodeIndex == events[y].nodeIndex))
  {
    hide ReplayOf, Registers, NodeOutcomeOf, CauseOfDeletion, CatalogAt, Lower, IsHexOf64, Sound;
    EventRowsAreExact(s, n);
    KnownExactly(s, m, k + 1, Lower(fields.credentialType.s));
    OutcomeExactly(TransactionAt(s, m, k), j, LedgerAt(s, m).closeTime, CatalogAt(s, m, k + 1).Keys, s.codec);
    assert IsNodeStored(s, m, k, j, ReplayOf(s, n).value.tables.events);
  }
}
