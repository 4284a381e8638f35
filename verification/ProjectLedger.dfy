/** Projecting one ledger: its continuity, and the fold over its transactions with a growing catalog. */
module ProjectLedger {
  import opened Base
  import opened LedgerModel
  import opened Registration
  import opened CredentialMutations

  datatype ContinuityError =
    | LEDGER_BEFORE_ACTIVATION
    | LEDGER_GAP
    | LEDGER_PARENT_MISMATCH
    | ACTIVATION_HASH_MISMATCH

  /** A stored checkpoint. Rows written before transaction roots were kept have None. */
  datatype Checkpoint = Checkpoint(
    ledgerIndex: nat,
    ledgerHash: string,
    parentHash: string,
    closeTime: nat,
    transactionCount: nat,
    transactionRoot: Option<string>)

  function CheckpointOf(ledger: Ledger): Checkpoint {
    Checkpoint(ledger.index, ledger.hash, ledger.parentHash, ledger.closeTime,
               |ledger.transactions|, Some(ledger.transactionRoot))
  }

  function Continuity(profile: Profile, previous: Option<Checkpoint>, ledger: Ledger): Option<ContinuityError> {
    match previous
    case None =>
      if ledger.index != profile.activationIndex then
        Some(if ledger.index < profile.activationIndex then LEDGER_BEFORE_ACTIVATION else LEDGER_GAP)
      else if ledger.hash != Lower(profile.activationHash) then Some(ACTIVATION_HASH_MISMATCH)
      else None
    case Some(p) =>
      if ledger.index != p.ledgerIndex + 1 then Some(LEDGER_GAP)
      else if ledger.parentHash != p.ledgerHash then Some(LEDGER_PARENT_MISMATCH)
      else None
  }

  predicate InOrder(ledger: Ledger) {
    forall i :: 0 <= i < |ledger.transactions| ==> ledger.transactions[i].index == i
  }

  /** The state of the fold after some transactions: the catalog so far and what they contributed. */
  datatype Partial = Partial(
    catalog: IndexCatalog,
    registrations: seq<SchemaRegistration>,
    mutations: seq<CredentialMutation>,
    malformedNodes: nat)

  function Start(catalog: IndexCatalog): Partial {
    Partial(catalog, [], [], 0)
  }

  function CatalogAfter(tx: Transaction, ledger: Ledger, profile: Profile, catalog: IndexCatalog, codec: Codec):
                        IndexCatalog {
    match Interpret(tx, ledger, profile, catalog, codec)
    case None => catalog
    case Some(r) => AddRegistration(catalog, r, profile.networkId, ledger.index)
  }

  /** One transaction: its registration first, then its credential nodes against the catalog just extended. */
  function Step(p: Partial, tx: Transaction, ledger: Ledger, profile: Profile, codec: Codec): Partial {
    var registration := Interpret(tx, ledger, profile, p.catalog, codec);
    var catalog := CatalogAfter(tx, ledger, profile, p.catalog, codec);
    Partial(
      catalog,
      p.registrations + (if registration.Some? then [registration.value] else []),
      p.mutations + MutationsUpTo(tx, ledger.closeTime, catalog.Keys, codec, |tx.nodes|),
      p.malformedNodes + MalformedUpTo(tx, ledger.closeTime, catalog.Keys, codec, |tx.nodes|))
  }

  function ProjectUpTo(ledger: Ledger, profile: Profile, catalog: IndexCatalog, codec: Codec, n: nat): Partial
    requires n <= |ledger.transactions|
  {
    if n == 0 then Start(catalog)
    else Step(ProjectUpTo(ledger, profile, catalog, codec, n - 1), ledger.transactions[n - 1], ledger, profile, codec)
  }

  function Project(ledger: Ledger, profile: Profile, catalog: IndexCatalog, codec: Codec): Partial {
    ProjectUpTo(ledger, profile, catalog, codec, |ledger.transactions|)
  }

  function ProjectionOf(ledger: Ledger, p: Partial): Projection {
    Projection(ledger, p.registrations, p.mutations, p.malformedNodes)
  }

  method ProjectLedger(ledger: Ledger, profile: Profile, initial: IndexCatalog, codec: Codec)
    returns (r: Result<Projection, ContinuityError>)
    ensures r == if InOrder(ledger) then Ok(ProjectionOf(ledger, Project(ledger, profile, initial, codec)))
                 else Err(LEDGER_GAP)
    ensures r.Ok? <==> forall i :: 0 <= i < |ledger.transactions| ==> ledger.transactions[i].index == i
  {
    hide Interpret, MutationsUpTo, MalformedUpTo;
    for i := 0 to |ledger.transactions|
      invariant forall k :: 0 <= k < i ==> ledger.transactions[k].index == k
    {
      if ledger.transactions[i].index != i { return Err(LEDGER_GAP); }
    }
    var catalog := initial;
    var registrations: seq<SchemaRegistration> := [];
    var mutations: seq<CredentialMutation> := [];
    var malformedNodes := 0;
    for i := 0 to |ledger.transactions|
      invariant Partial(catalog, registrations, mutations, malformedNodes)
                == ProjectUpTo(ledger, profile, initial, codec, i)
    {
      var tx := ledger.transactions[i];
      var registration := Interpret(tx, ledger, profile, catalog, codec);
      if registration.Some? {
        registrations := registrations + [registration.value];
        catalog := AddRegistration(catalog, registration.value, profile.networkId, ledger.index);
      }
      var extracted, malformed := ExtractMutations(tx, ledger.closeTime, catalog.Keys, codec);
      mutations := mutations + extracted;
      malformedNodes := malformedNodes + malformed;
    }
    return Ok(Projection(ledger, registrations, mutations, malformedNodes));
  }
}
