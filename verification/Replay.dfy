/**
 The projection as a pure left fold over the validated ledgers, with the schema catalog threaded in
 memory, and the fact that this catalog is the one the stored schemas rebuild.
 */
module Replay {
  import opened Base
  import opened SchemaLanguage
  import opened LedgerModel
  import opened Registration
  import opened ProjectLedger
  import opened ProjectionStore

  /**
   What one deployment indexes: the validated ledgers, the profile and the library functions, and the Credentials that
   exist on the ledger before activation. The indexer is told nothing of these.
   */
  datatype Setting = Setting(
    history: nat -> Ledger,
    profile: Profile,
    codec: Codec,
    existing: map<string, CredentialFields>)

  /** The n-th ledger counted from activation. */
  function LedgerAt(s: Setting, n: nat): Ledger {
    s.history(s.profile.activationIndex + n)
  }

  predicate IsTransaction(s: Setting, n: nat, k: nat) {
    k < |LedgerAt(s, n).transactions|
  }

  function TransactionAt(s: Setting, n: nat, k: nat): Transaction
    requires IsTransaction(s, n, k)
  {
    LedgerAt(s, n).transactions[k]
  }

  predicate SameHash(s: Setting, n: nat, k: nat, m: nat, j: nat) {
    && IsTransaction(s, n, k) && IsTransaction(s, m, j)
    && TransactionAt(s, n, k).hash == TransactionAt(s, m, j).hash
  }

  /** Transaction hashes are unique across ledgers. */
  ghost predicate UniqueHashes(s: Setting) {
    forall n: nat, k: nat, m: nat, j: nat :: SameHash(s, n, k, m, j) ==> n == m && k == j
  }

  predicate FitsChain(s: Setting, n: nat) {
    var ledger := LedgerAt(s, n);
    && ledger.index == s.profile.activationIndex + n
    && InOrder(ledger)
    && (if n == 0 then ledger.hash == Lower(s.profile.activationHash)
        else ledger.parentHash == LedgerAt(s, n - 1).hash)
  }

  /** The validated ledgers form one chain from the activation ledger, with ordered transactions. */
  ghost predicate IsHistory(s: Setting) {
    forall n: nat :: FitsChain(s, n)
  }

  ghost predicate Sound(s: Setting) {
    SoundUid(s.codec) && UniqueHashes(s) && IsHistory(s)
  }

  /** A ledger of the history fits after the one before it. */
  lemma PositionOfLedger(s: Setting, n: nat)
    requires Sound(s)
    ensures LedgerAt(s, n).index == s.profile.activationIndex + n && InOrder(LedgerAt(s, n))
    ensures Continuity(s.profile, if n == 0 then None else Some(CheckpointOf(LedgerAt(s, n - 1))), LedgerAt(s, n)).None?
  {
    assert FitsChain(s, n);
    if n > 0 { assert FitsChain(s, n - 1); }
  }

  /** The state of the fold: the catalog kept in memory and the tables. */
  datatype Fold = Fold(catalog: IndexCatalog, tables: Tables)

  /** The fold over the first n ledgers; an error is a ledger that the tables refuse. */
  function ReplayOf(s: Setting, n: nat): Result<Fold, PersistError> {
    if n == 0 then Ok(Fold(map[], EmptyTables))
    else
      match ReplayOf(s, n - 1)
      case Err(e) => Err(e)
      case Ok(before) =>
        var ledger := LedgerAt(s, n - 1);
        var p := Project(ledger, s.profile, before.catalog, s.codec);
        match ApplyRows(before.tables, ProjectionOf(ledger, p))
        case Err(e) => Err(e)
        case Ok(rows) =>
          var after := AddCheckpoint(rows, ledger);
          if MeetsConstraints(after) then Ok(Fold(p.catalog, after)) else Err(CheckViolation)
  }

  /** The catalog before ledger n, threaded through the ledgers alone. */
  function CatalogBefore(s: Setting, n: nat): IndexCatalog {
    if n == 0 then map[]
    else Project(LedgerAt(s, n - 1), s.profile, CatalogBefore(s, n - 1), s.codec).catalog
  }

  lemma {:induction false} FoldCatalog(s: Setting, n: nat)
    requires ReplayOf(s, n).Ok?
    ensures ReplayOf(s, n).value.catalog == CatalogBefore(s, n)
    decreases n
  {
    hide MeetsConstraints, ApplyRows, ProjectUpTo;
    if n > 0 { FoldCatalog(s, n - 1); }
  }

  // ---- The catalog in memory is the stored catalog ------------------------------------

  /** Entries of the catalog come from transactions before position (n, k). */
  ghost predicate EntriesBefore(s: Setting, catalog: IndexCatalog, n: nat, k: nat) {
    forall uid :: uid in catalog ==> EntryBefore(s, uid, catalog[uid], n, k)
  }

  ghost predicate EntryBefore(s: Setting, uid: string, e: CatalogEntry, n: nat, k: nat) {
    var at := e.schema.at;
    var ledger := at.ledgerIndex - s.profile.activationIndex;
    && 0 <= at.transactionIndex && 0 <= ledger
    && (ledger < n || (ledger == n && at.transactionIndex < k))
    && IsTransaction(s, ledger, at.transactionIndex)
    && e.transactionHash == TransactionAt(s, ledger, at.transactionIndex).hash
    && e.schema.uid == uid
    && uid == s.codec.schemaUid(
                UidInputOf(s.profile, LedgerAt(s, ledger).hash, at.ledgerIndex, at.transactionIndex,
                           at.publisher, e.schema.definition))
  }

  /** Every registration event stored so far comes from a transaction before position (n, k). */
  ghost predicate EventsBefore(s: Setting, events: map<string, SchemaEventRow>, n: nat, k: nat) {
    forall hash :: hash in events ==> HashBefore(s, hash, n, k)
  }

  ghost predicate HashBefore(s: Setting, hash: string, n: nat, k: nat) {
    exists m: nat, j: nat {:trigger TransactionAt(s, m, j)} ::
      (m < n || (m == n && j < k)) && IsTransaction(s, m, j) && TransactionAt(s, m, j).hash == hash
  }

  lemma HashIsOlder(s: Setting, hash: string, n: nat, k: nat)
    requires UniqueHashes(s) && IsTransaction(s, n, k) && HashBefore(s, hash, n, k)
    ensures hash != TransactionAt(s, n, k).hash
  {
    var m: nat, j: nat :| (m < n || (m == n && j < k)) && IsTransaction(s, m, j) && TransactionAt(s, m, j).hash == hash;
    assert !SameHash(s, n, k, m, j);
  }

  lemma EntryIsOlder(s: Setting, uid: string, e: CatalogEntry, n: nat, k: nat, publisher: string, definition:
                     SchemaDefinition)
    requires Sound(s) && IsTransaction(s, n, k) && EntryBefore(s, uid, e, n, k)
    ensures e.transactionHash != TransactionAt(s, n, k).hash
    ensures uid != s.codec.schemaUid(
                     UidInputOf(s.profile, LedgerAt(s, n).hash, LedgerAt(s, n).index, k, publisher, definition))
  {
    var at := e.schema.at;
    var m := at.ledgerIndex - s.profile.activationIndex;
    assert FitsChain(s, n);
    assert !SameHash(s, n, k, m, at.transactionIndex);
    var a := UidInputOf(s.profile, LedgerAt(s, m).hash, at.ledgerIndex, at.transactionIndex, at.publisher, e.schema.definition);
    var b := UidInputOf(s.profile, LedgerAt(s, n).hash, LedgerAt(s, n).index, k, publisher, definition);
    assert SameUid(s.codec, a, b) ==> SamePosition(a, b);
  }

  /** Stored rows and catalog agree, and all of both is older than position (n, k). */
  ghost predicate Agree(s: Setting, n: nat, k: nat, catalog: IndexCatalog, t: Tables) {
    && CatalogOf(t.schemas, s.profile.networkId) == catalog
    && EntriesBefore(s, catalog, n, k)
    && EventsBefore(s, t.schemaEvents, n, k)
  }

  /** A registration at position (n, k) is new to both tables. */
  lemma RegistrationIsNew(s: Setting, n: nat, k: nat, catalog: IndexCatalog, t: Tables, r: SchemaRegistration)
    requires Sound(s) && IsTransaction(s, n, k) && Agree(s, n, k, catalog, t)
    requires Interpret(TransactionAt(s, n, k), LedgerAt(s, n), s.profile, catalog, s.codec) == Some(r)
    ensures r.transactionHash == TransactionAt(s, n, k).hash && r.transactionHash !in t.schemaEvents
    ensures r.Accepted? ==> r.uid !in catalog && !SchemaConflicts(t.schemas, SchemaRowOf(LedgerAt(s, n), r))
  {
    var tx := TransactionAt(s, n, k);
    forall hash | hash in t.schemaEvents ensures hash != tx.hash { HashIsOlder(s, hash, n, k); }
    if r.Accepted? {
      AcceptedFacts(tx, LedgerAt(s, n), s.profile, catalog, s.codec);
      assert FitsChain(s, n);
      assert tx.index == k;
      forall uid | uid in catalog ensures uid != r.uid && catalog[uid].transactionHash != tx.hash {
        EntryIsOlder(s, uid, catalog[uid], n, k, r.publisher, r.definition);
      }
      assert forall uid :: uid in t.schemas ==> uid in catalog && t.schemas[uid].registrationHash == catalog[uid].transactionHash;
    }
  }

  lemma LaterPosition(s: Setting, n: nat, k: nat, catalog: IndexCatalog, t: Tables)
    requires Agree(s, n, k, catalog, t)
    ensures Agree(s, n, k + 1, catalog, t)
    ensures k == |LedgerAt(s, n).transactions| ==> Agree(s, n + 1, 0, catalog, t)
  {
    forall uid | uid in catalog
      ensures EntryBefore(s, uid, catalog[uid], n, k + 1)
      ensures k == |LedgerAt(s, n).transactions| ==> EntryBefore(s, uid, catalog[uid], n + 1, 0)
    {
      assert EntryBefore(s, uid, catalog[uid], n, k);
    }
    forall hash | hash in t.schemaEvents ensures HashBefore(s, hash, n, k + 1) && HashBefore(s, hash, n + 1, 0) {
      assert HashBefore(s, hash, n, k);
    }
  }

  /** An accepted registration becomes the catalog entry of its own position. */
  lemma EntryOfRegistration(s: Setting, n: nat, k: nat, catalog: IndexCatalog, r: SchemaRegistration)
    requires Sound(s) && IsTransaction(s, n, k) && r.Accepted?
    requires Interpret(TransactionAt(s, n, k), LedgerAt(s, n), s.profile, catalog, s.codec) == Some(r)
    ensures EntryBefore(s, r.uid, EntryOf(r, s.profile.networkId, LedgerAt(s, n).index), n, k + 1)
    ensures LedgerAt(s, n).index == s.profile.activationIndex + n && r.transactionIndex == k
  {
    hide Interpret;
    AcceptedFacts(TransactionAt(s, n, k), LedgerAt(s, n), s.profile, catalog, s.codec);
    assert FitsChain(s, n);
  }

  lemma OwnHash(s: Setting, n: nat, k: nat)
    requires IsTransaction(s, n, k)
    ensures HashBefore(s, TransactionAt(s, n, k).hash, n, k + 1)
  {
    assert IsTransaction(s, n, k) && TransactionAt(s, n, k).hash == TransactionAt(s, n, k).hash;
  }

  /** One registration keeps the agreement. */
  lemma RegistrationStep(s: Setting, n: nat, k: nat, catalog: IndexCatalog, t: Tables, r: SchemaRegistration)
    requires Sound(s) && IsTransaction(s, n, k) && Agree(s, n, k, catalog, t)
    requires Interpret(TransactionAt(s, n, k), LedgerAt(s, n), s.profile, catalog, s.codec) == Some(r)
    ensures var ledger := LedgerAt(s, n);
            var after := AddRegistration(catalog, r, s.profile.networkId, ledger.index);
            && Agree(s, n, k + 1, after, ApplyRegistration(t, ledger, r))
            && GrowsFrom(s, catalog, after, n, k)
  {
    hide Interpret, EntryBefore, Sound, SchemaConflicts, HashBefore;
    var ledger := LedgerAt(s, n);
    var after := AddRegistration(catalog, r, s.profile.networkId, ledger.index);
    var stored := ApplyRegistration(t, ledger, r);
    RegistrationIsNew(s, n, k, catalog, t, r);
    LaterPosition(s, n, k, catalog, t);
    OwnHash(s, n, k);
    if r.Accepted? {
      EntryOfRegistration(s, n, k, catalog, r);
      assert EntryOfRow(SchemaRowOf(ledger, r), s.profile.networkId) == EntryOf(r, s.profile.networkId, ledger.index);
      assert stored.schemas == t.schemas[r.uid := SchemaRowOf(ledger, r)];
      assert CatalogOf(stored.schemas, s.profile.networkId) == after;
    }
  }

  /** `after` keeps every entry of `before` and adds only entries at or after position (n, k). */
  ghost predicate GrowsFrom(s: Setting, before: IndexCatalog, after: IndexCatalog, n: nat, k: nat) {
    && (forall uid :: uid in before ==> uid in after && after[uid] == before[uid])
    && (forall uid :: uid in after && uid !in before ==>
          var at := after[uid].schema.at;
          at.ledgerIndex > s.profile.activationIndex + n
          || (at.ledgerIndex == s.profile.activationIndex + n && at.transactionIndex >= k))
  }

  /** The same after the first k transactions of a ledger. */
  lemma {:induction false} CatalogWithinLedger(s: Setting, n: nat, k: nat, catalog: IndexCatalog, t: Tables)
    requires Sound(s) && k <= |LedgerAt(s, n).transactions|
    requires Agree(s, n, 0, catalog, t)
    ensures var p := ProjectUpTo(LedgerAt(s, n), s.profile, catalog, s.codec, k);
            Agree(s, n, k, p.catalog, ApplyRegistrations(t, LedgerAt(s, n), p.registrations))
    decreases k
  {
    hide Agree, Step, ApplyRegistrations;
    if k == 0 {
      NoRegistrations(t, LedgerAt(s, n));
    } else {
      CatalogWithinLedger(s, n, k - 1, catalog, t);
      var ledger := LedgerAt(s, n);
      var before := ProjectUpTo(ledger, s.profile, catalog, s.codec, k - 1);
      RegistrationAdded(s, n, k - 1, before, t);
    }
  }

  /** One step of the fold within a ledger, as the tables see its registration. */
  lemma RegistrationAdded(s: Setting, n: nat, k: nat, before: Partial, t: Tables)
    requires Sound(s) && IsTransaction(s, n, k)
    requires Agree(s, n, k, before.catalog, ApplyRegistrations(t, LedgerAt(s, n), before.registrations))
    ensures var after := Step(before, TransactionAt(s, n, k), LedgerAt(s, n), s.profile, s.codec);
            && Agree(s, n, k + 1, after.catalog, ApplyRegistrations(t, LedgerAt(s, n), after.registrations))
            && GrowsFrom(s, before.catalog, after.catalog, n, k)
  {
    var ledger := LedgerAt(s, n);
    var stored := ApplyRegistrations(t, ledger, before.registrations);
    var after := Step(before, TransactionAt(s, n, k), ledger, s.profile, s.codec);
    var r := Interpret(TransactionAt(s, n, k), ledger, s.profile, before.catalog, s.codec);
    if r.Some? {
      RegistrationStep(s, n, k, before.catalog, stored, r.value);
      assert after.registrations == before.registrations + [r.value];
      assert after.registrations[..|after.registrations| - 1] == before.registrations;
    } else {
      LaterPosition(s, n, k, before.catalog, stored);
      assert after.registrations == before.registrations;
    }
  }

  /** At every point of the fold, the catalog in memory equals the one rebuilt from the stored schemas. */
  lemma {:induction false} CatalogAgrees(s: Setting, n: nat)
    requires Sound(s) && ReplayOf(s, n).Ok?
    ensures Agree(s, n, 0, ReplayOf(s, n).value.catalog, ReplayOf(s, n).value.tables)
    decreases n
  {
    hide Sound, ApplyRegistrations, ApplyMutations, ProjectUpTo, MeetsConstraints;
    if n > 0 {
      CatalogAgrees(s, n - 1);
      var before, ledger := ReplayOf(s, n - 1).value, LedgerAt(s, n - 1);
      var all := |ledger.transactions|;
      CatalogWithinLedger(s, n - 1, all, before.catalog, before.tables);
      var p := Project(ledger, s.profile, before.catalog, s.codec);
      var stored := ApplyRegistrations(before.tables, ledger, p.registrations);
      LaterPosition(s, n - 1, all, p.catalog, stored);
      MutationsKeepRest(stored, ledger, p.mutations);
    }
  }

  lemma AgreeIsCatalog(s: Setting, n: nat)
    requires Sound(s) && ReplayOf(s, n).Ok?
    ensures CatalogOf(ReplayOf(s, n).value.tables.schemas, s.profile.networkId) == ReplayOf(s, n).value.catalog
  {
    CatalogAgrees(s, n);
  }

  /** The checkpoints of the fold are the ledgers themselves, in order. */
  lemma {:induction false} ReplayCheckpoints(s: Setting, n: nat)
    requires ReplayOf(s, n).Ok?
    ensures ReplayOf(s, n).value.tables.checkpoints == seq(n, i requires 0 <= i < n => CheckpointOf(LedgerAt(s, i)))
    decreases n
  {
    hide ApplyRegistrations, ApplyMutations, ProjectUpTo, MeetsConstraints;
    if n > 0 {
      ReplayCheckpoints(s, n - 1);
      var before, ledger := ReplayOf(s, n - 1).value, LedgerAt(s, n - 1);
      var p := Project(ledger, s.profile, before.catalog, s.codec);
      RegistrationsKeepRest(before.tables, ledger, p.registrations);
      MutationsKeepRest(ApplyRegistrations(before.tables, ledger, p.registrations), ledger, p.mutations);
    }
  }

  lemma ReplayIsChain(s: Setting, n: nat)
    requires IsHistory(s) && ReplayOf(s, n).Ok?
    ensures IsChain(ReplayOf(s, n).value.tables.checkpoints, s.profile)
    ensures |ReplayOf(s, n).value.tables.checkpoints| == n
  {
    hide ReplayOf;
    ReplayCheckpoints(s, n);
    var rows := ReplayOf(s, n).value.tables.checkpoints;
    assert FitsChain(s, 0);
    forall i: nat | i < n
      ensures rows[i].ledgerIndex == s.profile.activationIndex + i
      ensures i > 0 ==> rows[i].parentHash == rows[i - 1].ledgerHash
    {
      assert FitsChain(s, i);
    }
  }

  /**
   Persisting the next ledger, projected against the catalog that the tables rebuild, is one step of the fold:
   it is accepted exactly when the fold goes on, and the tables after it are the next tables of the fold.
   */
  lemma PersistIsReplayStep(s: Setting, n: nat)
    requires Sound(s) && ReplayOf(s, n).Ok?
    ensures var tables := ReplayOf(s, n).value.tables;
            var ledger := LedgerAt(s, n);
            var p := ProjectionOf(ledger, Project(ledger, s.profile, CatalogOf(tables.schemas, s.profile.networkId), s.codec));
            match ReplayOf(s, n + 1)
            case Err(e) => Persist(tables, s.profile, p) == Err(e)
            case Ok(f) => Persist(tables, s.profile, p) == Ok((f.tables, Inserted))
  {
    hide Project, ApplyRows, Agree, MeetsConstraints;
    AgreeIsCatalog(s, n);
    ReplayIsChain(s, n);
    ReplayCheckpoints(s, n);
    var tables, ledger := ReplayOf(s, n).value.tables, LedgerAt(s, n);
    assert FitsChain(s, n);
    ChainCovers(tables.checkpoints, s.profile, ledger.index);
    if n > 0 { ChainNewest(tables.checkpoints, s.profile); }
    assert Continuity(s.profile, Newest(tables.checkpoints), ledger).None?;
  }

  // ---- Verdicts are final ---------------------------------------------------------------

  lemma {:induction false} EarlierReplay(s: Setting, n: nat, later: nat)
    requires n <= later && ReplayOf(s, later).Ok?
    ensures ReplayOf(s, n).Ok?
    decreases later
  {
    hide ApplyRows, Project, MeetsConstraints;
    if n < later { EarlierReplay(s, n, later - 1); }
  }

  lemma {:induction false} CatalogGrowsWithin(s: Setting, n: nat, lo: nat, hi: nat, catalog: IndexCatalog, t: Tables)
    requires Sound(s) && lo <= hi <= |LedgerAt(s, n).transactions| && Agree(s, n, 0, catalog, t)
    ensures GrowsFrom(s, ProjectUpTo(LedgerAt(s, n), s.profile, catalog, s.codec, lo).catalog,
                      ProjectUpTo(LedgerAt(s, n), s.profile, catalog, s.codec, hi).catalog, n, lo)
    decreases hi
  {
    hide Agree, Step, ApplyRegistrations;
    if lo < hi {
      CatalogGrowsWithin(s, n, lo, hi - 1, catalog, t);
      CatalogWithinLedger(s, n, hi - 1, catalog, t);
      RegistrationAdded(s, n, hi - 1, ProjectUpTo(LedgerAt(s, n), s.profile, catalog, s.codec, hi - 1), t);
    }
  }

  lemma {:induction false} CatalogOnlyGrows(s: Setting, n: nat, k: nat, later: nat)
    requires Sound(s) && k <= |LedgerAt(s, n).transactions| && n < later && ReplayOf(s, later).Ok?
    ensures ReplayOf(s, n).Ok?
    ensures GrowsFrom(s, ProjectUpTo(LedgerAt(s, n), s.profile, ReplayOf(s, n).value.catalog, s.codec, k).catalog,
                      ReplayOf(s, later).value.catalog, n, k)
    decreases later
  {
    hide Agree, Step, ApplyRegistrations, ApplyRows, MeetsConstraints;
    EarlierReplay(s, n, later);
    var before := ReplayOf(s, later - 1).value;
    CatalogAgrees(s, later - 1);
    var all := |LedgerAt(s, later - 1).transactions|;
    if n == later - 1 {
      CatalogGrowsWithin(s, n, k, all, before.catalog, before.tables);
    } else {
      CatalogOnlyGrows(s, n, k, later - 1);
      CatalogGrowsWithin(s, later - 1, 0, all, before.catalog, before.tables);
    }
  }

  /**
   Schema verdicts are final in the ledger's own terms: a registration interpreted at its position gets the same
   verdict, error code included, against the catalog of any later point of the fold.
   */
  lemma StoredVerdictIsFinal(s: Setting, n: nat, k: nat, later: nat)
    requires Sound(s) && IsTransaction(s, n, k) && n < later && ReplayOf(s, later).Ok?
    ensures ReplayOf(s, n).Ok?
    ensures var ledger, tx := LedgerAt(s, n), TransactionAt(s, n, k);
            var atPosition := ProjectUpTo(ledger, s.profile, ReplayOf(s, n).value.catalog, s.codec, k).catalog;
            Interpret(tx, ledger, s.profile, ReplayOf(s, later).value.catalog, s.codec)
            == Interpret(tx, ledger, s.profile, atPosition, s.codec)
  {
    hide Interpret, ReplayOf, ProjectUpTo;
    CatalogOnlyGrows(s, n, k, later);
    var ledger, tx := LedgerAt(s, n), TransactionAt(s, n, k);
    assert FitsChain(s, n);
    var atPosition := ProjectUpTo(ledger, s.profile, ReplayOf(s, n).value.catalog, s.codec, k).catalog;
    RegistrationIsFinal(tx, ledger, s.profile, atPosition, ReplayOf(s, later).value.catalog, s.codec);
  }
}
