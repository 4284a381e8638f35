/**
 The XRPL's own account of Credential objects: which histories of affected nodes the ledger can produce.

 Stated without reference to the indexer's tables: some objects exist before activation; an object is created once and
 deleted at most once, its identifying fields never change, it is accepted on creation exactly when issuer and subject
 are the same account, and acceptance is never withdrawn. Beside the objects themselves two things are recorded that the
 indexer's code stumbles over: how often a modification of an accepted object did not report its previous flags, and
 whether an object was ever accepted or deleted under a schema that was not known yet when the object was created.
*/
module CredentialHistory {
  import opened Base
  import opened LedgerModel
  import opened CredentialMutations
  import opened ProjectLedger
  import opened Replay
  import opened SchemaHistory

  /**
   A Credential object: its current fields, the transaction that created it, whether the indexer could follow it from
   its creation on, and the number of its quiet modifications.
   */
  datatype LiveObject = LiveObject(fields: CredentialFields, born: string, followed: bool, quiet: nat)

  type Live = map<string, LiveObject>

  /**
   The objects that exist, by identifier; the followed ones that no longer do, by their creating transaction; and
   whether some object was accepted or deleted as one of a known schema although it was not followed.
   */
  datatype Objects = Objects(live: Live, ended: map<string, LiveObject>, stranded: bool)

  /** An object that was created before activation: nobody has followed it. */
  function OlderObject(fields: CredentialFields): LiveObject {
    LiveObject(fields, "", false, 0)
  }

  function OlderObjects(existing: map<string, CredentialFields>): Objects {
    Objects(map id | id in existing :: OlderObject(existing[id]), map[], false)
  }

  predicate SameIdentity(a: CredentialFields, b: CredentialFields) {
    && a.issuer == b.issuer && a.subject == b.subject && a.credentialType == b.credentialType
    && a.expiration == b.expiration && a.uri == b.uri
  }

  /** Issuer, subject and credential type, compared as the ledger does: by bytes, not by letter case. */
  predicate SameKey(a: CredentialFields, b: CredentialFields) {
    && a.issuer == b.issuer && a.subject == b.subject
    && a.credentialType.Str? && b.credentialType.Str? && SchemaUidOf(a) == SchemaUidOf(b)
  }

  predicate ReportsAccepted(previousFlags: Value) {
    var flags := Uint32Of(previousFlags);
    flags.Some? && HasFlag(flags.value, CREDENTIAL_ACCEPTED_FLAG)
  }

  /** A modification of an accepted object that does not say that it was accepted before. */
  predicate IsQuiet(before: CredentialFields, node: NormalizedNode) {
    IsAccepted(before) && !ReportsAccepted(node.previousFlags)
  }

  /** The acceptances that the nodes of an object amount to: the real one, if it came after creation, and the quiet ones. */
  function Acceptances(o: LiveObject): nat {
    (if IsAccepted(o.fields) && o.fields.issuer != o.fields.subject then 1 else 0) + o.quiet
  }

  function Modified(o: LiveObject, node: NormalizedNode): LiveObject {
    o.(fields := node.fields, quiet := o.quiet + if IsQuiet(o.fields, node) then 1 else 0)
  }

  /**
   The objects after one normalized Credential node, or None when the ledger cannot produce it. `emits` says whether
   the node is read as an event of a schema known at its position.
   */
  function ObjectAdvance(o: Objects, node: NormalizedNode, hash: string, emits: bool): Option<Objects> {
    var id, fields := node.objectId, node.fields;
    if !OptionalUint32(fields.flags) || !OptionalUint32(node.previousFlags) then None
    else
      match node.kind
      case CreatedNode =>
        if id !in o.live && (IsAccepted(fields) <==> fields.issuer == fields.subject)
           && (forall x :: x in o.live ==> !SameKey(o.live[x].fields, fields))
        then Some(o.(live := o.live[id := LiveObject(fields, hash, emits, 0)])) else None
      case ModifiedNode =>
        if id in o.live && SameIdentity(o.live[id].fields, fields)
           && (IsAccepted(o.live[id].fields) ==> IsAccepted(fields))
           && (ReportsAccepted(node.previousFlags) ==> IsAccepted(o.live[id].fields))
        then Some(o.(live := o.live[id := Modified(o.live[id], node)],
                     stranded := o.stranded || (emits && !o.live[id].followed)))
        else None
      case DeletedNode =>
        if id in o.live && SameIdentity(o.live[id].fields, fields)
           && (IsAccepted(o.live[id].fields) <==> IsAccepted(fields))
        then Some(Objects(o.live - {id},
                          if o.live[id].followed then o.ended[o.live[id].born := o.live[id]] else o.ended,
                          o.stranded || (emits && !o.live[id].followed)))
        else None
  }

  function NodeAdvance(o: Objects, tx: Transaction, j: nat, closeTime: nat, known: set<string>, codec: Codec): Option<Objects>
    requires j < |tx.nodes|
  {
    if !ContainsCredential(tx.nodes[j]) then Some(o)
    else
      match NormalizeNode(tx.nodes[j])
      case None => None
      case Some(node) => ObjectAdvance(o, node, tx.hash, NodeOutcomeOf(tx, j, closeTime, known, codec).Emits?)
  }

  function NodesAdvance(o: Objects, tx: Transaction, closeTime: nat, known: set<string>, codec: Codec, j: nat): Option<Objects>
    requires j <= |tx.nodes|
  {
    if j == 0 then Some(o)
    else
      match NodesAdvance(o, tx, closeTime, known, codec, j - 1)
      case None => None
      case Some(before) => NodeAdvance(before, tx, j - 1, closeTime, known, codec)
  }

  predicate Creates(tx: Transaction, j: nat, closeTime: nat, known: set<string>, codec: Codec)
    requires j < |tx.nodes|
  {
    var outcome := NodeOutcomeOf(tx, j, closeTime, known, codec);
    outcome.Emits? && outcome.mutation.eventType.CreatedEvent?
  }

  /** One transaction creates at most one indexed Credential. */
  predicate OneCreation(tx: Transaction, closeTime: nat, known: set<string>, codec: Codec) {
    forall i, j :: 0 <= i < j < |tx.nodes| && Creates(tx, i, closeTime, known, codec) ==>
      !Creates(tx, j, closeTime, known, codec)
  }

  function TransactionAdvance(
    o: Objects, tx: Transaction, ledger: Ledger, profile: Profile, catalog: IndexCatalog, codec: Codec): Option<Objects>
  {
    var known := CatalogAfter(tx, ledger, profile, catalog, codec).Keys;
    if OneCreation(tx, ledger.closeTime, known, codec)
    then NodesAdvance(o, tx, ledger.closeTime, known, codec, |tx.nodes|)
    else None
  }

  function LedgerAdvance(o: Objects, ledger: Ledger, profile: Profile, catalog: IndexCatalog, codec: Codec, k: nat)
    : Option<Objects>
    requires k <= |ledger.transactions|
  {
    if k == 0 then Some(o)
    else
      match LedgerAdvance(o, ledger, profile, catalog, codec, k - 1)
      case None => None
      case Some(before) =>
        TransactionAdvance(before, ledger.transactions[k - 1], ledger, profile,
                           ProjectUpTo(ledger, profile, catalog, codec, k - 1).catalog, codec)
  }

  function HistoryAdvance(s: Setting, n: nat): Option<Objects> {
    if n == 0 then Some(OlderObjects(s.existing))
    else
      match HistoryAdvance(s, n - 1)
      case None => None
      case Some(o) =>
        var ledger := LedgerAt(s, n - 1);
        LedgerAdvance(o, ledger, s.profile, CatalogBefore(s, n - 1), s.codec, |ledger.transactions|)
  }

  const MAX_NODE_INDEX := INT32_MAX

  /** Hashes are lowercase hexadecimal and indexes fit the ledger's own integer widths. */
  predicate HasLedgerShape(ledger: Ledger) {
    && IsHash(ledger.hash) && IsHash(ledger.parentHash) && IsHash(ledger.transactionRoot)
    && IsUint32(ledger.index) && IsUint32(ledger.closeTime)
    && |ledger.transactions| <= MAX_NODE_INDEX
    && forall k :: 0 <= k < |ledger.transactions| ==>
         IsHash(ledger.transactions[k].hash) && |ledger.transactions[k].nodes| <= MAX_NODE_INDEX
  }

  predicate IsHexBytes(s: string) {
    |s| % 2 == 0 && forall i :: 0 <= i < |s| ==> IsHexChar(s[i])
  }

  ghost predicate HasShape(s: Setting, n: nat) {
    forall m: nat :: m < n ==> HasLedgerShape(LedgerAt(s, m))
  }

  /** No two of the first n ledgers have the same hash. */
  ghost predicate DistinctLedgers(s: Setting, n: nat) {
    forall i: nat, j: nat :: i < j < n ==> LedgerAt(s, i).hash != LedgerAt(s, j).hash
  }

  /** The histories the XRPL can produce, up to ledger n. */
  ghost predicate Plausible(s: Setting, n: nat) {
    && Sound(s)
    && (forall uri :: s.codec.isPayloadUriHex(uri) ==> IsHexBytes(uri))
    && HasShape(s, n) && DistinctLedgers(s, n) && UidsAreHashes(s, n)
    && HistoryAdvance(s, n).Some?
  }

  /** No followed object was ever modified quietly. */
  predicate AllReported(o: Objects) {
    && (forall id :: id in o.live && o.live[id].followed ==> o.live[id].quiet == 0)
    && (forall hash :: hash in o.ended ==> o.ended[hash].quiet == 0)
  }

  /** The histories on which the indexer keeps all its promises. */
  ghost predicate WellFormed(s: Setting, n: nat) {
    && Plausible(s, n)
    && !HistoryAdvance(s, n).value.stranded
    && AllReported(HistoryAdvance(s, n).value)
  }

  lemma PlausibleIsSound(s: Setting, n: nat)
    requires Plausible(s, n)
    ensures Sound(s) && IsHistory(s)
  {
  }
}
