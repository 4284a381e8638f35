/**
 The wallet and the indexer agree on registrations: the stored registration of a transaction confirms the wallet's
 operation exactly when its schema is stored, and refutes it exactly when it was refused.
 */
module RegistrationAgreement {
  import opened Base
  import opened LedgerModel
  import opened Registration
  import opened ProjectionStore
  import opened Replay
  import opened SchemaHistory
  import opened SchemaAgreement
  import BusinessContext
  import Journal

  /** A stored registration as the API hands it to the wallet, whose own checks pass its reason on. */
  function EvidenceOfRegistration(row: SchemaEventRow): Journal.Evidence {
    Journal.Evidence(row.transactionHash, row.ledgerIndex, row.ledgerHash, row.transactionIndex, row.uid, None,
                     row.reason, None, None, Journal.NoCause)
  }

  /** The position of a stored registration, and its columns. */
  lemma StoredRegistration(s: Setting, n: nat, hash: string) returns (m: nat, k: nat)
    requires Sound(s) && ReplayOf(s, n).Ok? && hash in ReplayOf(s, n).value.tables.schemaEvents
    ensures m < n && IsTransaction(s, m, k) && TransactionAt(s, m, k).hash == hash && RegistrationAt(s, m, k).Some?
    ensures var row, r := ReplayOf(s, n).value.tables.schemaEvents[hash], RegistrationAt(s, m, k).value;
            && row.transactionHash == hash && row.ledgerIndex == s.profile.activationIndex + m
            && row.ledgerHash == LedgerAt(s, m).hash && row.transactionIndex == k && row.publisher == r.publisher
            && row.accepted == r.Accepted?
            && (r.Accepted? ==> row.uid == Some(r.uid) && row.reason.None? && row.memo == Some(r.memo))
            && (r.Rejected? ==> row.uid.None? && row.reason == Some(r.reason))
  {
    hide ReplayOf, RegistrationAt, IsStored, IsSchemaOf;
    SchemaRowsAreExact(s, n);
    var row := ReplayOf(s, n).value.tables.schemaEvents[hash];
    assert IsEventOf(s, n, 0, hash, row);
    m, k := row.ledgerIndex - s.profile.activationIndex, row.transactionIndex;
    PositionOfLedger(s, m);
    PositionOfRow(s, m, k);
  }

  /** A schema is stored under the transaction that registered it. */
  lemma RegisteredByItsTransaction(s: Setting, n: nat, hash: string, uid: string)
    requires Sound(s) && ReplayOf(s, n).Ok?
    requires var t := ReplayOf(s, n).value.tables;
             hash in t.schemaEvents && uid in t.schemas && t.schemas[uid].registrationHash == hash
    ensures ReplayOf(s, n).value.tables.schemaEvents[hash].uid == Some(uid)
  {
    hide ReplayOf, RegistrationAt, SoundUid, IsHistory;
    var m, k := StoredRegistration(s, n, hash);
    var i, j := SchemaPosition(s, n, uid);
    assert SameHash(s, m, k, i, j);
  }

  lemma AcceptedIsStored(s: Setting, n: nat, m: nat, k: nat)
    requires Sound(s) && ReplayOf(s, n).Ok? && m < n && IsTransaction(s, m, k)
    requires RegistrationAt(s, m, k).Some? && RegistrationAt(s, m, k).value.Accepted?
    ensures var uid := RegistrationAt(s, m, k).value.uid;
            var schemas := ReplayOf(s, n).value.tables.schemas;
            uid in schemas && schemas[uid].registrationHash == TransactionAt(s, m, k).hash
  {
    hide ReplayOf, RegistrationAt, UniqueHashes;
    SchemaRowsAreExact(s, n);
    assert IsStored(s, m, k, ReplayOf(s, n).value.tables);
    var uid := RegistrationAt(s, m, k).value.uid;
    var i, j := SchemaPosition(s, n, uid);
    SameUidSamePlace(s, m, k, i, j);
  }

  /** Identifiers tell positions apart. */
  lemma SameUidSamePlace(s: Setting, m: nat, k: nat, i: nat, j: nat)
    requires Sound(s) && IsTransaction(s, m, k) && IsTransaction(s, i, j)
    requires RegistrationAt(s, m, k).Some? && RegistrationAt(s, m, k).value.Accepted?
    requires RegistrationAt(s, i, j).Some? && RegistrationAt(s, i, j).value.Accepted?
    requires RegistrationAt(s, m, k).value.uid == RegistrationAt(s, i, j).value.uid
    ensures m == i && k == j
  {
    hide Interpret, UniqueHashes, SoundUid;
    AcceptedFacts(TransactionAt(s, m, k), LedgerAt(s, m), s.profile, CatalogAt(s, m, k), s.codec);
    AcceptedFacts(TransactionAt(s, i, j), LedgerAt(s, i), s.profile, CatalogAt(s, i, j), s.codec);
    PositionOfLedger(s, m);
    PositionOfLedger(s, i);
    PositionOfRow(s, m, k);
    PositionOfRow(s, i, j);
    var a, b := RegistrationAt(s, m, k).value, RegistrationAt(s, i, j).value;
    UidsTellPositions(s.codec, UidInputOf(s.profile, LedgerAt(s, m).hash, LedgerAt(s, m).index, k, a.publisher, a.definition),
                      UidInputOf(s.profile, LedgerAt(s, i).hash, LedgerAt(s, i).index, j, b.publisher, b.definition));
  }

  lemma UidsTellPositions(codec: Codec, a: UidInput, b: UidInput)
    requires SoundUid(codec) && codec.schemaUid(a) == codec.schemaUid(b)
    ensures a.ledgerIndex == b.ledgerIndex && a.transactionIndex == b.transactionIndex
  {
    assert SameUid(codec, a, b);
  }

  /**
   For every registration of the wallet: the stored row of its transaction confirms it exactly when a schema is stored
   that this transaction registered, and refutes it exactly when none is, which is when the row gives a reason.
   */
  lemma StoredRegistrationDecides(s: Setting, n: nat, hash: string, c: BusinessContext.Context)
    requires Sound(s) && ReplayOf(s, n).Ok? && hash in ReplayOf(s, n).value.tables.schemaEvents && c.SchemaRegister?
    ensures var t := ReplayOf(s, n).value.tables;
            var row := t.schemaEvents[hash];
            var isRegistered := exists uid :: uid in t.schemas && t.schemas[uid].registrationHash == hash;
            && (Journal.Supports(c, Journal.Confirmed, EvidenceOfRegistration(row), hash) <==> isRegistered)
            && (Journal.Supports(c, Journal.Refuted, EvidenceOfRegistration(row), hash) <==> !isRegistered)
            && (row.reason.Some? <==> !isRegistered)
  {
    hide ReplayOf, RegistrationAt, Sound;
    var t := ReplayOf(s, n).value.tables;
    var row := t.schemaEvents[hash];
    var m, k := StoredRegistration(s, n, hash);
    if RegistrationAt(s, m, k).value.Accepted? { AcceptedIsStored(s, n, m, k); }
    if uid :| uid in t.schemas && t.schemas[uid].registrationHash == hash {
      RegisteredByItsTransaction(s, n, hash, uid);
    }
  }
}
