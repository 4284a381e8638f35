/**
 Where the stored schema rows come from: after any prefix of the ledgers they are exactly the registrations read at
 their own positions, each against the catalog of that position.
 */
module SchemaHistory {
  import opened Base
  import opened SchemaLanguage
  import opened SchemaResolution
  import opened LedgerModel
  import opened Registration
  import opened ProjectLedger
  import opened ProjectionStore
  import opened Replay

  /** The catalog that transaction k of ledger m is read against. */
  function CatalogAt(s: Setting, m: nat, k: nat): IndexCatalog
    requires k <= |LedgerAt(s, m).transactions|
  {
    ProjectUpTo(LedgerAt(s, m), s.profile, CatalogBefore(s, m), s.codec, k).catalog
  }

  function RegistrationAt(s: Setting, m: nat, k: nat): Option<SchemaRegistration>
    requires IsTransaction(s, m, k)
  {
    Interpret(TransactionAt(s, m, k), LedgerAt(s, m), s.profile, CatalogAt(s, m, k), s.codec)
  }

  /** The identifiers of the registrations accepted so far are hashes in lowercase hexadecimal. */
  ghost predicate UidsAreHashes(s: Setting, n: nat) {
    forall m: nat, k: nat :: m < n && IsTransaction(s, m, k) ==> UidIsHash(s, m, k)
  }

  predicate UidIsHash(s: Setting, m: nat, k: nat)
    requires IsTransaction(s, m, k)
  {
    RegistrationAt(s, m, k).Some? && RegistrationAt(s, m, k).value.Accepted? ==> IsHash(RegistrationAt(s, m, k).value.uid)
  }

  predicate Earlier(m: nat, j: nat, n: nat, k: nat) {
    m < n || (m == n && j < k)
  }

  /** A registration event row is the registration of its own position. */
  predicate IsEventOf(s: Setting, n: nat, k: nat, hash: string, row: SchemaEventRow) {
    var m := row.ledgerIndex - s.profile.activationIndex;
    && 0 <= m && Earlier(m, row.transactionIndex, n, k)
    && IsTransaction(s, m, row.transactionIndex)
    && TransactionAt(s, m, row.transactionIndex).hash == hash
    && RegistrationAt(s, m, row.transactionIndex).Some?
    && row == SchemaEventOf(LedgerAt(s, m), RegistrationAt(s, m, row.transactionIndex).value)
  }

  /** A schema row is the accepted registration of its own position. */
  predicate IsSchemaOf(s: Setting, n: nat, k: nat, uid: string, row: SchemaRow) {
    var m := row.ledgerIndex - s.profile.activationIndex;
    && 0 <= m && Earlier(m, row.transactionIndex, n, k)
    && IsTransaction(s, m, row.transactionIndex)
    && RegistrationAt(s, m, row.transactionIndex).Some?
    && var r := RegistrationAt(s, m, row.transactionIndex).value;
    r.Accepted? && r.uid == uid && row == SchemaRowOf(LedgerAt(s, m), r)
  }

  /** The registration of a position is in the tables. */
  predicate IsStored(s: Setting, m: nat, j: nat, t: Tables) {
    IsTransaction(s, m, j) && RegistrationAt(s, m, j).Some? ==>
      && TransactionAt(s, m, j).hash in t.schemaEvents
      && (RegistrationAt(s, m, j).value.Accepted? ==> RegistrationAt(s, m, j).value.uid in t.schemas)
  }

  ghost predicate Exact(s: Setting, n: nat, k: nat, t: Tables) {
    && (forall hash :: hash in t.schemaEvents ==> IsEventOf(s, n, k, hash, t.schemaEvents[hash]))
    && (forall uid :: uid in t.schemas ==> IsSchemaOf(s, n, k, uid, t.schemas[uid]))
    && (forall m: nat, j: nat :: Earlier(m, j, n, k) ==> IsStored(s, m, j, t))
  }

  lemma ExactLater(s: Setting, n: nat, k: nat, t: Tables)
    requires Exact(s, n, k, t)
    requires k < |LedgerAt(s, n).transactions| ==> RegistrationAt(s, n, k).None?
    ensures Exact(s, n, k + 1, t)
    ensures k == |LedgerAt(s, n).transactions| ==> Exact(s, n + 1, 0, t)
  {
    hide RegistrationAt, SchemaEventOf, SchemaRowOf;
    forall hash | hash in t.schemaEvents
      ensures IsEventOf(s, n, k + 1, hash, t.schemaEvents[hash])
      ensures IsEventOf(s, n + 1, 0, hash, t.schemaEvents[hash])
    {
      assert IsEventOf(s, n, k, hash, t.schemaEvents[hash]);
    }
    forall uid | uid in t.schemas
      ensures IsSchemaOf(s, n, k + 1, uid, t.schemas[uid])
      ensures IsSchemaOf(s, n + 1, 0, uid, t.schemas[uid])
    {
      assert IsSchemaOf(s, n, k, uid, t.schemas[uid]);
    }
    forall m: nat, j: nat | Earlier(m, j, n, k + 1) ensures IsStored(s, m, j, t) {
      assert Earlier(m, j, n, k) || (m == n && j == k);
    }
    if k == |LedgerAt(s, n).transactions| {
      forall m: nat, j: nat | Earlier(m, j, n + 1, 0) ensures IsStored(s, m, j, t) {
        assert Earlier(m, j, n, k) || !IsTransaction(s, m, j);
      }
    }
  }

  /** A registration at its own position is added to both tables. */
  lemma RegistrationAdds(s: Setting, n: nat, k: nat, catalog: IndexCatalog, t: Tables, r: SchemaRegistration)
    requires Sound(s) && IsTransaction(s, n, k) && Agree(s, n, k, catalog, t)
    requires catalog == CatalogAt(s, n, k) && RegistrationAt(s, n, k) == Some(r)
    ensures var ledger := LedgerAt(s, n);
            var after := ApplyRegistration(t, ledger, r);
            && after.schemaEvents == t.schemaEvents[TransactionAt(s, n, k).hash := SchemaEventOf(ledger, r)]
            && after.schemas == (if r.Accepted? then t.schemas[r.uid := SchemaRowOf(ledger, r)] else t.schemas)
            && TransactionAt(s, n, k).hash !in t.schemaEvents
            && (r.Accepted? ==> r.uid !in t.schemas)
  {
    hide Interpret, CatalogAt, EntryBefore, Sound, HashBefore;
    RegistrationIsNew(s, n, k, catalog, t, r);
    SchemaKeys(s, n, k, catalog, t);
  }

  lemma StaysExact(s: Setting, n: nat, k: nat, t: Tables)
    requires Exact(s, n, k, t)
    ensures forall hash :: hash in t.schemaEvents ==> IsEventOf(s, n, k + 1, hash, t.schemaEvents[hash])
    ensures forall uid :: uid in t.schemas ==> IsSchemaOf(s, n, k + 1, uid, t.schemas[uid])
  {
    hide RegistrationAt, SchemaEventOf, SchemaRowOf, IsStored;
    forall hash | hash in t.schemaEvents ensures IsEventOf(s, n, k + 1, hash, t.schemaEvents[hash]) {
      assert IsEventOf(s, n, k, hash, t.schemaEvents[hash]);
    }
    forall uid | uid in t.schemas ensures IsSchemaOf(s, n, k + 1, uid, t.schemas[uid]) {
      assert IsSchemaOf(s, n, k, uid, t.schemas[uid]);
    }
  }

  lemma NewRows(s: Setting, n: nat, k: nat, r: SchemaRegistration)
    requires IsTransaction(s, n, k) && FitsChain(s, n) && RegistrationAt(s, n, k) == Some(r)
    ensures IsEventOf(s, n, k + 1, TransactionAt(s, n, k).hash, SchemaEventOf(LedgerAt(s, n), r))
    ensures r.Accepted? ==> IsSchemaOf(s, n, k + 1, r.uid, SchemaRowOf(LedgerAt(s, n), r))
  {
    hide RegistrationAt;
    PositionOf(s, n, k, r);
  }

  lemma RegistrationStored(s: Setting, n: nat, k: nat, catalog: IndexCatalog, t: Tables, r: SchemaRegistration)
    requires Sound(s) && IsTransaction(s, n, k) && Agree(s, n, k, catalog, t) && Exact(s, n, k, t)
    requires catalog == CatalogAt(s, n, k) && RegistrationAt(s, n, k) == Some(r)
    ensures Exact(s, n, k + 1, ApplyRegistration(t, LedgerAt(s, n), r))
  {
    hide RegistrationAt, CatalogAt, Agree, ApplyRegistration, IsEventOf, IsSchemaOf, FitsChain, SchemaEventOf,
         SchemaRowOf;
    var ledger := LedgerAt(s, n);
    var after := ApplyRegistration(t, ledger, r);
    assert FitsChain(s, n);
    hide Sound, IsHistory;
    RegistrationAdds(s, n, k, catalog, t, r);
    NewRows(s, n, k, r);
    StaysExact(s, n, k, t);
    forall m: nat, j: nat | Earlier(m, j, n, k + 1) ensures IsStored(s, m, j, after) {
      if Earlier(m, j, n, k) { assert IsStored(s, m, j, t); }
    }
  }

  lemma PositionOf(s: Setting, n: nat, k: nat, r: SchemaRegistration)
    requires IsTransaction(s, n, k) && FitsChain(s, n) && RegistrationAt(s, n, k) == Some(r)
    ensures r.transactionHash == TransactionAt(s, n, k).hash && r.transactionIndex == k
  {
    hide SchemaOf, ResolveSchema, ExtractEnvelope, ProjectUpTo;
  }

  lemma SchemaKeys(s: Setting, n: nat, k: nat, catalog: IndexCatalog, t: Tables)
    requires Agree(s, n, k, catalog, t)
    ensures catalog.Keys == t.schemas.Keys
  {
    assert CatalogOf(t.schemas, s.profile.networkId).Keys == t.schemas.Keys;
  }

  lemma ExactStep(s: Setting, n: nat, k: nat, before: Partial, t: Tables)
    requires Sound(s) && IsTransaction(s, n, k)
    requires before == ProjectUpTo(LedgerAt(s, n), s.profile, CatalogBefore(s, n), s.codec, k)
    requires Agree(s, n, k, before.catalog, ApplyRegistrations(t, LedgerAt(s, n), before.registrations))
    requires Exact(s, n, k, ApplyRegistrations(t, LedgerAt(s, n), before.registrations))
    ensures var after := Step(before, TransactionAt(s, n, k), LedgerAt(s, n), s.profile, s.codec);
            Exact(s, n, k + 1, ApplyRegistrations(t, LedgerAt(s, n), after.registrations))
  {
    hide Exact, Agree, Sound, Interpret, ApplyRegistration, CatalogAfter;
    var ledger := LedgerAt(s, n);
    var stored := ApplyRegistrations(t, ledger, before.registrations);
    var r := RegistrationAt(s, n, k);
    if r.Some? {
      RegistrationStored(s, n, k, before.catalog, stored, r.value);
      assert (before.registrations + [r.value])[..|before.registrations|] == before.registrations;
    } else {
      ExactLater(s, n, k, stored);
      assert before.registrations + [] == before.registrations;
    }
  }

  lemma {:induction false} ExactWithinLedger(s: Setting, n: nat, k: nat, t: Tables)
    requires Sound(s) && k <= |LedgerAt(s, n).transactions|
    requires Agree(s, n, 0, CatalogBefore(s, n), t) && Exact(s, n, 0, t)
    ensures Exact(s, n, k, ApplyRegistrations(t, LedgerAt(s, n),
                                              ProjectUpTo(LedgerAt(s, n), s.profile, CatalogBefore(s, n), s.codec, k).registrations))
    decreases k
  {
    hide Exact, Agree, Sound, Step, ApplyRegistrations, CatalogBefore;
    if k == 0 {
      NoRegistrations(t, LedgerAt(s, n));
    } else {
      ExactWithinLedger(s, n, k - 1, t);
      CatalogWithinLedger(s, n, k - 1, CatalogBefore(s, n), t);
      ExactStep(s, n, k - 1, ProjectUpTo(LedgerAt(s, n), s.profile, CatalogBefore(s, n), s.codec, k - 1), t);
    }
  }

  /** After any number of ledgers the schema tables hold exactly the registrations of those ledgers. */
  lemma {:induction false} SchemaRowsAreExact(s: Setting, n: nat)
    requires Sound(s) && ReplayOf(s, n).Ok?
    ensures Exact(s, n, 0, ReplayOf(s, n).value.tables)
    decreases n
  {
    hide Exact, Agree, Sound, ProjectUpTo, ApplyRegistrations, ApplyMutations, MeetsConstraints;
    if n == 0 {
      NothingStored(s);
    } else {
      SchemaRowsAreExact(s, n - 1);
      var before, ledger := ReplayOf(s, n - 1).value, LedgerAt(s, n - 1);
      var all := |ledger.transactions|;
      FoldCatalog(s, n - 1);
      CatalogAgrees(s, n - 1);
      ExactWithinLedger(s, n - 1, all, before.tables);
      var p := Project(ledger, s.profile, before.catalog, s.codec);
      var stored := ApplyRegistrations(before.tables, ledger, p.registrations);
      ExactLater(s, n - 1, all, stored);
      MutationsKeepRest(stored, ledger, p.mutations);
      SameSchemas(s, n, 0, stored, ReplayOf(s, n).value.tables);
    }
  }

  lemma NothingStored(s: Setting)
    ensures Exact(s, 0, 0, EmptyTables)
  {
  }

  lemma SameSchemas(s: Setting, n: nat, k: nat, a: Tables, b: Tables)
    requires Exact(s, n, k, a) && a.schemas == b.schemas && a.schemaEvents == b.schemaEvents
    ensures Exact(s, n, k, b)
  {
    hide IsEventOf, IsSchemaOf, RegistrationAt;
    forall m: nat, j: nat | Earlier(m, j, n, k) ensures IsStored(s, m, j, b) {
      assert IsStored(s, m, j, a);
    }
  }
}
