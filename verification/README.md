# XCS: ledger projection, schema language and reliable submission

A Dafny model of the core of XCS, a schema and verification layer over XRP Ledger Credentials, with proofs of what its
parts promise. `dafny verify dfyconfig.toml` checks the whole project.

## What is modelled

**The schema language and inheritance** (`SchemaLanguage`, `SchemaDocuments`, `SchemaResolution`). The parser that threads a counter and a
depth through its recursion is proved against an unlimited reading of the same documents. Resolution along `extends` is
proved equivalent to a declarative notion of an admissible lineage.

**The projection** (`LedgerModel`, `Registration`, `CredentialMutations`, `ProjectLedger`, `ProjectionStore`, `Replay`,
`SchemaHistory`, `EventHistory`, `MutationChecks`, `PersistChecks`). One ledger becomes registrations and credential mutations, these become rows of five
tables, and a whole deployment is a pure left fold over the validated ledgers.

**The ledger's own rules** (`CredentialHistory`). Which histories the XRP Ledger can produce, from any set of
Credentials that exist before activation and that the indexer is told nothing of: an object is created once and deleted
at most once, its identifying fields never change, it is accepted at creation exactly when issuer and subject are one
account, acceptance is never withdrawn, and a transaction creates at most one indexed Credential. Transaction hashes are
unique, ledger hashes of the replayed range are distinct, and registrations at different positions get different
identifiers. Such a history is called plausible. It is called well-formed when, besides, no object is accepted or
deleted under a schema that was unknown when the object was created, and every modification of an accepted object
reports its previous flags. `ExampleHistory` has concrete histories of both kinds.

**Progress and lifecycles** (`Lifecycle`, `Progress`, `LateSchemas`). On every plausible history it is decided exactly
whether the tables accept all ledgers. As long as they do, live rows mirror the objects that exist and could be
followed, and the events of each generation tell one lifecycle whose acceptances are counted.

**The readers** (`Reader`, `SchemaReader`, `SchemaAgreement`, `TransactionReader`, `StatusReader`, `ReaderChecks`). The web API re-checks
stored rows before it answers. What the indexer writes passes these checks, and what passes them has the promised form.

**Writers** (`Fencing`, `FencingChecks`, `Fleet`, `Repository`, `LedgerSource`, `Worker`). Any number of workers share one database under
an expiring lease. `Fleet` is the log of their atomic operations; `Repository` and `Worker` are the imperative programs,
interrupted by foreign operations, lost connections and lost acknowledgements wherever they wait.

**Wallet operations** (`BusinessContext`, `Journal`, `JournalChecks`, `JournalExclusion`, `Submission`, `SubmissionChecks`,
`SubmissionSafety`, `SubmissionProgram`, `BusinessAgreement`, `RegistrationAgreement`). The browser journal and the signing and submission protocol, as a state machine
over all tabs with crashes at every await, and as the program that takes its steps.

**Four algorithms** (`LedgerRanges`, `PinQuota`, `RateLimiter`, `FixtureBundle` with `BundleChecks` and `Publish`).

The conditions that these modules name, what a registration, a signed blob, a lease request or a stored row must look like,
are each also proved equivalent to what they ask of the fields, characters and numbers of their input: in the lemmas whose
names end in `Exactly`, most of them in the modules named `...Checks`.

Library functions are parameters: address checksums, strict JSON reading, canonical JSON (section 3.2 of RFC 8785), payload
URI syntax, hashes, the XRPL binary codec and signatures, compression. Where a result needs that they round-trip or do
not collide, it says so in its `requires`. The network, the database clock, failures and other tabs are scripts or
functions that the results quantify over.

## Where the code does not keep a promise

Each of these has a lemma with a concrete input and one with the exact condition.

- The business lock is not exclusive by itself (`JournalExclusion.TwoHoldersAreReachable`): an operation found to mismatch
  gives its key up, another one takes it, and reconfirming the first as timed out makes both hold it. The exact condition
  is `JournalExclusion.LockIsExclusiveExactly`; exclusion of unfinished operations holds without exception.
- Stored refusals of registrations without a usable account make the registration reader answer that the evidence is
  invalid, although the row is what the indexer meant to store (`SchemaReader.ReaderAcceptsRegistrations` says exactly
  which, `ExampleHistory.NamelessRefusalIsRefused` is a history that stores one).
- The indexer stops when a Credential is accepted or deleted whose schema is known by then but was not registered yet when
  the Credential was created, before activation or later (`ExampleHistory.LateSchemaStops`). `Progress.StuckExactly` shows
  that this is the only way to get stuck, `LateSchemas.NobodyIsLate` that it takes a Credential that names a schema before
  its registration. The codec of the example allows that; a real identifier is a digest over the hash of the very ledger
  that registers the schema (`apps/indexer/src/registration.ts:158-165`), so naming it in advance means to guess it.
- A modification of an accepted Credential that does not report its previous flags is stored as one more acceptance. The
  reader refuses a timeline exactly when that makes two or more: for a Credential accepted by its subject one such
  modification is enough (`ExampleHistory.QuietModificationIsRefused`), for one that is accepted on creation, because
  issuer and subject are the same, it takes two. `Reader.ReaderAcceptsExactly` is the exact condition.
- An unsettled acceptance or deletion of a Credential that was journaled without a generation cannot be retried, although
  its blob may be on the network (`SubmissionSafety.SubmittedIsRecoverable` is exact,
  `ExampleSubmission.ContextlessCannotBeRetried` a run).
- The comment in `apps/web/server/xcs/rate-limit.ts:46-47` says that re-inserting a key moves it to the end of the map. A
  JavaScript map keeps the place of an existing key, so the entry evicted first need not be the oldest window
  (`RateLimiter.YoungerIsEvicted`; exactly when: `RateLimiter.OldestGoExactly` and `RateLimiter.RunAscends`). The model
  follows the code.
- Pruning reads the clock a second time, so a budget of exactly one hour can restart early
  (`RateLimiter.HourBudgetCanRestart`; exactly when: `RateLimiter.SameWindowExactly`).
- A publication whose changes of permissions fail after the manifest was linked, and that cannot remove the manifest
  again, goes on removing the evidence behind it (`Publish.ManifestCanStick`). So does one whose manifest was linked
  although the link was reported as failed (`Publish.LostReplyIsEnough`, `Publish.ManifestWithoutEvidence`). Exactly when:
  `Publish.PublishBundleNoClobber`.

The worker and the repository also handle checkpoints without a transaction root, which the table definition no longer
allows; that branch is modelled and never taken.


## Model

| member | source | states |
|---|---|---|
| `SchemaLanguage.ParseDescriptor` | packages/core/src/schema.ts:93-136 | the depth- and counter-threading parse accepts exactly the documents whose unlimited reading fits the depth and count still left, and adds exactly their nodes to the counter |
| `SchemaLanguage.ParseFields` | packages/core/src/schema.ts:144-161 | the same for a map of named fields |
| `SchemaLanguage.ParseSchema` | packages/core/src/schema.ts:171-192 | a parse succeeds exactly on the documents of the schema language; its result has 1 to 256 descriptor nodes and at most 16 levels |
| `SchemaLanguage.CountSchemaFields` | packages/core/src/schema.ts:202-210 | the recount over a parsed map equals the count the parser threaded |
| `SchemaLanguage.DescriptorReadBack` | packages/core/src/schema.ts:93-136 | a descriptor that is printed reads back as itself exactly when it is valid |
| `SchemaLanguage.SchemaReadBack` | packages/core/src/schema.ts:171-192 | the same for whole schemas, without any limit |
| `SchemaLanguage.ParseIsIdempotent` | packages/core/src/schema.ts:171-192 | parsing the printed result of a parse gives that result again |
| `SchemaLanguage.ParseIsOntoValidSchemas` | packages/core/src/schema.ts:82-192 | the possible results of a parse are exactly the valid schemas within both limits |
| `SchemaDocuments.DescriptorsExactly` | packages/core/src/schema.ts:93-136 | which documents a descriptor can be read from, entry by entry: its type by name, a boolean `optional`, the items of an array or the non-empty map of fields of an object, and no other entry |
| `SchemaDocuments.SchemasExactly` | packages/core/src/schema.ts:171-192 | the same for schemas: version 0.1, name and description by their bytes and characters, different lowercase hashes as references, fields within both limits, and no other entry |
| `SchemaDocuments.FieldNamesExactly` | packages/core/src/schema.ts:144-161 | a field name is 1 to 64 ASCII letters, digits and underscores and does not start with a digit |
| `SchemaDocuments.TextIsMeasuredInBytes` | packages/core/src/schema.ts:82-91 | the length of a text is the number of bytes of its UTF-8 encoding, which reads back (`SchemaDocuments.EncodedReadsBack`) |
| `SchemaDocuments.LimitsCountTypes` | packages/core/src/schema.ts:138-161 | the two limits count the typed objects of the printed document and how deeply they nest |
| `SchemaResolution.AddOwnFields` | packages/core/src/schema-resolution.ts:100-109 | own fields join the inherited ones exactly when all names stay distinct |
| `SchemaResolution.ResolveVisiting` | packages/core/src/schema-resolution.ts:66-127 | the walk with its shared, growing and shrinking visiting set computes the declarative outcome and gives the set back unchanged on success |
| `SchemaResolution.ResolveIsSound` | packages/core/src/schema-resolution.ts:66-127 | a successful resolution yields a lineage, root first, of at most 15 earlier registered ancestors at strictly increasing positions, each naming the one before it, whose fields together with the own ones are disjoint and at most 256 |
| `SchemaResolution.ResolveIsComplete` | packages/core/src/schema-resolution.ts:66-127 | every such lineage is found, on any catalog, cyclic ones included |
| `SchemaResolution.ResolutionIsExact` | packages/core/src/schema-resolution.ts:66-127 | both directions as one equivalence |
| `SchemaResolution.ResolvedLineage` | packages/core/src/schema-resolution.ts:37-127 | what resolves, in the entries of the catalog: at most 15 ancestors of the same network, each registered before the next, and at every level a predecessor only if it is an earlier schema of the same publisher and network |
| `SchemaResolution.SuccessionIsExact` | packages/core/src/schema-resolution.ts:115-123 | a schema that resolves without its predecessor resolves with it exactly when that is an earlier schema of the same publisher and network, and is refused as a reference otherwise |
| `SchemaResolution.UnusableParentIsRefused` | packages/core/src/schema-resolution.ts:37-64 | a parent that is missing, of another network or not earlier is refused as a reference |
| `SchemaResolution.CycleGuardIsImplied` | packages/core/src/schema-resolution.ts:75-81 | whatever the cycle guard refuses, the ordering rule refuses with the same code |
| `SchemaResolution.SameViewSameVerdict` | packages/core/src/schema-resolution.ts:27-64 | catalogs that agree on all earlier schemas give the same outcome, error code included |
| `SchemaResolution.VerdictIsFinal` | packages/core/src/schema-resolution.ts:129-143 | no later registration changes the outcome of a resolution |
| `Registration.AcceptedExactly` | apps/indexer/src/registration.ts:71-176 | a transaction registers a schema exactly when it is a Payment with result tesSUCCESS to the registry, every amount field present is the exact amount, there are no paths, SendMax, DeliverMin or partial payment flag, the account is an address, and the only registration memo carries canonical JSON of a schema that resolves |
| `Registration.RegistrationsExactly` | apps/indexer/src/registration.ts:71-99 | a transaction is a registration at all exactly under the conditions on the payment and with a registration memo; anything else is passed over |
| `Registration.SeveralMemosAreRefused` | apps/indexer/src/registration.ts:101-106 | two registration memos are refused for their count, unless the account has no name |
| `Registration.VerdictExactly` | apps/indexer/src/registration.ts:101-192 | the verdict on a registration with one memo: which reason each refusal carries, in the order of the checks, and what an acceptance records |
| `Registration.AcceptedFacts` | apps/indexer/src/registration.ts:137-176 | an accepted registration has a valid publisher, carries its memo's own schema, and its identifier is that of its position |
| `Registration.RegistrationIsFinal` | apps/indexer/src/registration.ts:119-192 | a registration keeps its verdict against any catalog grown by later entries |
| `CredentialMutations.ExtractMutations` | apps/indexer/src/credential-mutations.ts:85-194 | the loop emits the outcomes of all nodes in node order and counts the malformed ones |
| `MutationChecks.OutcomeExactly` | apps/indexer/src/credential-mutations.ts:96-191 | what one node is read as, in its own fields: whose wrapper and which fields count, what is passed over, what is malformed, and the columns of an event |
| `MutationChecks.CauseExactly` | apps/indexer/src/credential-mutations.ts:66-83 | the cause of a deletion by transaction type, account, acceptance bit and expiration |
| `MutationChecks.KnownExactly` | apps/indexer/src/project-ledger.ts:22-40 | at a transaction exactly the schemas are known that were registered by an earlier one, in this ledger or before |
| `MutationChecks.StoredEventColumns` | apps/indexer/src/repository.ts:470-490 | every stored event is a node of the replayed ledgers: position, hashes, Credential, flags, expiration and cause are those of the node, and its schema was registered by then |
| `MutationChecks.WellFormedNodeIsStored` | apps/indexer/src/repository.ts:470-490 | and every well-formed node of a schema registered by its own transaction or before, if a modification only one that turns acceptance on, is stored in exactly one row |
| `BusinessAgreement.StoredEventConfirms` | apps/web/app/utils/operationJournal.ts:386-428 | for every credential action of the wallet and every stored event of a transaction that performs it, the row confirms the operation exactly when the action had its effect, on the generation it was meant for |
| `BusinessAgreement.ActionIsStored` | apps/indexer/src/repository.ts:470-490 | wherever the indexer reads an event at all, the row of it is stored at its own position |
| `RegistrationAgreement.StoredRegistration` | apps/indexer/src/repository.ts:313-365 | every stored registration has the columns of the registration read at its own position |
| `RegistrationAgreement.StoredRegistrationDecides` | apps/web/app/utils/operationJournal.ts:386-397 | for every schema registration of the wallet the stored row of its transaction confirms it exactly when a schema is stored that this transaction registered, and refutes it exactly when none is, which is when the row gives a reason |
| `Lifecycle.SkipDecisionsAgree` | apps/indexer/src/credential-mutations.ts:109-146 | whether a node is skipped depends only on fields that never change, so the decision is the same for all nodes of an object |
| `Lifecycle.OutcomeOfNode` | apps/indexer/src/credential-mutations.ts:96-191 | a well-formed node emits exactly when its object is followed and the node stands for an event |
| `ProjectLedger.ProjectLedger` | apps/indexer/src/project-ledger.ts:11-57 | ordered ledgers are folded transaction by transaction with a catalog that grows inside the ledger; unordered ones are refused |
| `ProjectionStore.Newest` | apps/indexer/src/repository.ts:214-222 | the query returns a stored checkpoint with the greatest index |
| `ProjectionStore.CheckpointAt` | apps/indexer/src/repository.ts:265-274 | the stored checkpoint of an index, if there is one |
| `ProjectionStore.LiveIndex` | apps/indexer/src/repository.ts:417-433 | a live generation of the object with the latest creation, or none exists |
| `ProjectionStore.PersistCheckpoints` | apps/indexer/src/repository.ts:275-299 | a repeated ledger changes no row; a new one adds exactly its checkpoint |
| `ProjectionStore.PersistKeepsChain` | apps/indexer/src/repository.ts:265-311 | any successful persist of anything keeps the gapless hash chain and all its rows |
| `ProjectionStore.ChainCovers` | apps/indexer/src/repository.ts:265-299 | the already-processed path is taken exactly for the indexes the chain covers |
| `PersistChecks.ContinuousExactly` | apps/indexer/src/continuity.ts:17-54 | which ledger may come next, and the code of every other one |
| `PersistChecks.RepeatedExactly` | apps/indexer/src/repository.ts:265-299 | a ledger that the chain covers changes nothing, and is refused exactly when its hash, root or transaction count is not the stored one, or no root is stored |
| `PersistChecks.NextExactly` | apps/indexer/src/repository.ts:300-384 | any other ledger must be the one after the newest checkpoint, with its hash as parent; then rows, checkpoint and constraints decide together |
| `PersistChecks.RegistrationExactly` | apps/indexer/src/repository.ts:313-365 | the columns a registration writes, unless its keys are taken |
| `PersistChecks.CreationExactly` | apps/indexer/src/repository.ts:400-415 | the columns a creation writes, and the rows that make it fail |
| `PersistChecks.ChangeNeedsGeneration` | apps/indexer/src/repository.ts:417-433 | any other event fails for want of a generation exactly when its object has no live one |
| `PersistChecks.ChangeExactly` | apps/indexer/src/repository.ts:434-490 | it changes acceptance, last ledger, deletion and cause of the live generation and nothing else, and adds its event once |
| `PersistChecks.CommittedExactly` | apps/indexer/src/repository.ts:251-390 | rows and status commit together exactly for the current token before its lease ends, if the rows are accepted and the status may be written |
| `PersistChecks.ConstraintsExactly` | db/schema/credentials.ts:42-183 | the check constraints in hexadecimal digits and 32-bit bounds |
| `Replay.RegistrationStep` | apps/indexer/src/repository.ts:313-365 | a registration is new to both schema tables, and tables and catalog stay in agreement |
| `Replay.CatalogWithinLedger` | apps/indexer/src/project-ledger.ts:22-40 | at every transaction of a ledger the catalog in memory equals the one the stored schemas rebuild |
| `Replay.CatalogAgrees` | apps/indexer/src/repository.ts:224-249 | after any number of ledgers the threaded catalog equals the rebuilt one |
| `Replay.ReplayIsChain` | apps/indexer/src/continuity.ts:17-54 | the checkpoints of the fold are a gapless chain from the activation ledger |
| `Replay.PersistIsReplayStep` | apps/indexer/src/repository.ts:251-390 | persisting the next ledger, projected against the rebuilt catalog, is exactly one step of the pure fold, errors included |
| `Replay.StoredVerdictIsFinal` | apps/indexer/src/registration.ts:119-192 | a registration gets the verdict of its own position against the catalog of any later point |
| `SchemaHistory.SchemaRowsAreExact` | apps/indexer/src/repository.ts:313-365 | the schema tables hold exactly the registrations of the replayed ledgers, each read against the catalog of its own position |
| `EventHistory.EventRowsAreExact` | apps/indexer/src/repository.ts:392-490 | the events table holds exactly the events of the replayed ledgers, each as its own node is read against the catalog of its own transaction, and each once |
| `Lifecycle.CreatedStep` | apps/indexer/src/repository.ts:400-415 | a new generation keeps one live row per object and breaks no live-tuple uniqueness |
| `Lifecycle.ChangedStep` | apps/indexer/src/repository.ts:416-466 | an acceptance or deletion leaves the live rows mirroring the objects that exist |
| `Lifecycle.StoryGoesOn` | apps/indexer/src/repository.ts:436-490 | the row update and the event appended to it continue the lifecycle the events tell |
| `Lifecycle.CreatedTold` | apps/indexer/src/repository.ts:400-490 | a creation starts one lifecycle under a new identifier and leaves all others as they were |
| `Lifecycle.ChangedTold` | apps/indexer/src/repository.ts:434-490 | an update continues exactly one lifecycle |
| `Lifecycle.ChangedCounted` | apps/indexer/src/repository.ts:434-490 | an update adds an acceptance to exactly the generation whose object has one more real or quiet acceptance |
| `Progress.NodeStep` | apps/indexer/src/credential-mutations.ts:96-191 | whatever a node is, its mutation is accepted by the tables and the invariant moves on, or it is the first event of an object that could not be followed and is refused |
| `Progress.TransactionSteps` | apps/indexer/src/credential-mutations.ts:85-194 | the same for all nodes of a transaction |
| `Progress.LedgerSteps` | apps/indexer/src/repository.ts:367-374 | the same for all mutations of a ledger |
| `Progress.NextMeetsConstraints` | db/schema/credentials.ts:42-183 | what a plausible ledger stores meets the check constraints of all tables and the uniqueness of checkpoint hashes |
| `Progress.StuckExactly` | apps/indexer/src/repository.ts:392-490 | on every history the ledger can produce, the tables accept all ledgers exactly unless some object is accepted or deleted under a schema that was unknown when the object was created; the only error is the missing live generation, and the invariant holds as long as the fold goes on |
| `Progress.NeverStuck` | apps/indexer/src/repository.ts:392-490 | so on every history in which each object heard of could be followed from its creation, the tables accept every ledger |
| `LateSchemas.NobodyIsLate` | apps/indexer/src/repository.ts:429-433 | a condition on the ledger alone: where no Credential, older ones included, names a schema that is registered after its creation, the tables accept every ledger |
| `Reader.QueryResultIsStored` | apps/web/server/xcs/repository.ts:385-403 | whatever the database does with equal sort keys, the timeline query returns the first rows as stored, as many as its limit allows |
| `Reader.StoryEventShape` | apps/web/server/xcs/presenters.ts:154-213 | every event of a stored lifecycle has the shape the reader asks for |
| `Reader.StoryIsTimeline` | apps/web/server/xcs/presenters.ts:360-424 | a stored lifecycle passes the timeline rules exactly when it holds at most one acceptance |
| `Reader.StoryIsEvidence` | apps/web/server/xcs/credential-generation-evidence.ts:42-87 | its summary row passes every row check |
| `Reader.ReaderAcceptsExactly` | apps/web/server/xcs/presenters.ts:360-424 | for every history the ledger can produce and any generation: the row passes every check, its stored events hold one acceptance for the real one unless the object was accepted on creation and one for each modification that did not report the flag as on before, and what the limited query returns passes exactly when that makes at most one |
| `Reader.ReaderAcceptsGenerations` | apps/web/server/xcs/presenters.ts:360-424 | where every modification reports its previous flags, all timelines pass, with one to three events |
| `Reader.TimelineIsLifecycle` | apps/web/server/xcs/presenters.ts:398-423 | whoever wrote them, rows that pass are one lifecycle: created, perhaps accepted, perhaps deleted and then last, with the summary its events say |
| `TransactionReader.ReaderAcceptsTransactions` | apps/web/server/xcs/presenters.ts:311-358 | whatever summary the three queries return, its count is zero exactly without a first event and all coordinates agree; it passes exactly when a stored registration has a usable account |
| `ReaderChecks.GenerationPassesExactly` | apps/web/server/xcs/credential-generation-evidence.ts:42-87 | which generation rows pass, column by column |
| `ReaderChecks.EventPassesExactly` | apps/web/server/xcs/presenters.ts:154-213 | which event rows pass, column by column |
| `ReaderChecks.TimelinePassesExactly` | apps/web/server/xcs/presenters.ts:360-424 | a timeline passes exactly when it is one lifecycle, created, perhaps accepted, perhaps deleted, of passing rows in ledger order whose first and last events are what the generation row says |
| `ReaderChecks.RegistrationPassesExactly` | apps/web/server/xcs/presenters.ts:237-309 | which registration events pass, the identifier recomputed from the memo |
| `ReaderChecks.SummaryPassesExactly` | apps/web/server/xcs/presenters.ts:311-358 | which transaction summaries pass |
| `ReaderChecks.SchemaRowPassesExactly` | apps/web/server/xcs/schema-projection.ts:61-104 | which schema rows pass by themselves |
| `ReaderChecks.SchemaEvidencePassesExactly` | apps/web/server/xcs/schema-projection.ts:150-205 | which pass against their registration event |
| `ReaderChecks.AnsweredExactly` | apps/web/server/xcs/schema-projection.ts:223-283 | a resolved schema is answered exactly when every level passes, names the one before it, comes after it, adds new names within the limits and has stored what that makes; the answer is then the stored one |
| `ReaderChecks.GateOpensExactly` | apps/web/server/xcs/indexer-status.ts:53-155 | the gate opens exactly for a ready status under a running lease that agrees with the newest checkpoint at the lower tip, for rows between the minimum and that checkpoint, while it is fresh |
| `ReaderChecks.GateRefusesExactly` | apps/web/server/xcs/indexer-status.ts:53-155 | which first reason it gives otherwise |
| `SchemaReader.ReaderAcceptsRegistrations` | apps/web/server/xcs/presenters.ts:237-309 | every accepted registration recomputes its identifier; of all stored registration events the reader refuses exactly those without a classic publisher address |
| `SchemaReader.AuthoritativeResolvedSchema` | apps/web/server/xcs/schema-projection.ts:223-283 | the loop that rebuilds a schema from its ancestors computes the level-by-level definition |
| `SchemaReader.AnswersAreRebuilt` | apps/web/server/xcs/schema-projection.ts:223-283 | an answer is the stored resolution, equals the merge of all definitions from the root, and every level is linked, later than its parent and identified by its own registration |
| `SchemaAgreement.KnownProjection` | apps/web/server/xcs/schema-projection.ts:61-104 | every stored schema row passes the checks on a row by itself |
| `SchemaAgreement.KnownEvidence` | apps/web/server/xcs/schema-projection.ts:150-205 | every stored schema row passes the checks against its registration event |
| `SchemaAgreement.ReaderRebuildsSchemas` | apps/web/server/xcs/schema-projection.ts:223-283 | for every stored schema the reader answers exactly the resolution stored at its registration |
| `SchemaAgreement.StoredReferencesAreEarlier` | packages/core/src/schema-resolution.ts:77-123 | references of stored schemas point backwards: a parent is stored at an earlier position, a predecessor too and by the same publisher |
| `StatusReader.StoredIndexesAreCovered` | apps/web/server/xcs/indexer-status.ts:138-153 | every ledger index in any table lies between activation and the newest checkpoint |
| `StatusReader.ReadyIsAuthoritative` | apps/web/server/xcs/indexer-status.ts:53-155 | after any honest run the gate answers by state, lease and clock alone; stored evidence never makes it refuse |
| `StatusReader.CurrentWriterFailsExactly` | apps/indexer/src/repository.ts:251-390 | a current writer's next ledger is accepted exactly when its status is acceptable and no object was touched that could not be followed; the missing live generation is the answer exactly in the latter case |
| `ExampleHistory.PlainIsWellFormed` | apps/indexer/src/credential-mutations.ts:85-194 | a concrete history with a Credential issued, accepted and revoked meets all assumptions |
| `ExampleHistory.OlderIsWellFormed` | apps/indexer/src/credential-mutations.ts:96-146 | so does a concrete history in which a Credential older than activation, of a type that is no schema, is deleted |
| `ExampleHistory.LateSchemaStops` | apps/indexer/src/repository.ts:429-433 | a concrete history, a Credential issued before its schema is registered and revoked afterwards, on which the projection stops |
| `ExampleHistory.QuietModificationIsRefused` | apps/web/server/xcs/presenters.ts:398-411 | a concrete history, an accepted Credential modified without previous flags, whose stored timeline no reader accepts |
| `ExampleHistory.NamelessRefusalIsRefused` | apps/indexer/src/registration.ts:93-117 | a concrete history, a registration payment without an account, whose stored refusal the registration reader refuses |
| `Fencing.ActiveLeaseExcludes` | apps/indexer/src/lib/db/indexer-fencing.ts:242-331 | while a lease runs nobody takes it over and no other token renews, publishes, releases or halts |
| `Fencing.LeaseRuns` | apps/indexer/src/lib/db/indexer-fencing.ts:266-361 | an acquired or renewed lease is active for its whole duration, under a new epoch when taken over |
| `Fencing.EndedLeaseIsFree` | apps/indexer/src/lib/db/indexer-fencing.ts:318-434 | a lease can be taken over exactly when it has ended; released and halted ones at once |
| `FencingChecks.AcquiredExactly` | apps/indexer/src/lib/db/indexer-fencing.ts:266-331 | when a lease can be taken over, and the row it starts with |
| `FencingChecks.RenewedExactly` | apps/indexer/src/lib/db/indexer-fencing.ts:333-361 | only the current token renews, before the end, and only the end moves |
| `FencingChecks.AcceptableExactly` | apps/indexer/src/lib/db/indexer-fencing.ts:119-181 | which status may be written |
| `FencingChecks.UpdatedExactly` | apps/indexer/src/lib/db/indexer-fencing.ts:363-379 | who may write it, and the row it leaves |
| `FencingChecks.ReleasedExactly` | apps/indexer/src/lib/db/indexer-fencing.ts:381-401 | the current token releases even after the end, and the agreement stays readable |
| `FencingChecks.HaltedExactly` | apps/indexer/src/lib/db/indexer-fencing.ts:403-438 | the same for a halt, which needs a code |
| `FencingChecks.NamesExactly` | apps/indexer/src/lib/db/indexer-fencing.ts:112-117 | which writer names and error codes there are |
| `Fleet.ForeignStep` | apps/indexer/src/lib/db/indexer-fencing.ts:242-252 | while an epoch is current no other token's operation changes anything except by taking over |
| `Fleet.EpochStep` | apps/indexer/src/lib/db/indexer-fencing.ts:311-326 | epochs only grow, by one, and only by acquisition |
| `Fleet.HonestStep` | apps/indexer/src/repository.ts:251-390 | each operation of an honest writer keeps tables equal to the fold and the status truthful |
| `Fleet.EveryRunIsConsistent` | apps/indexer/src/worker.ts:156-262 | after any interleaving of any number of writers the tables are the pure fold of the first ledgers, a ready status names the newest checkpoint and the lower tip, and no status but a halted one is ahead of a tip |
| `Fleet.EveryStatusIsTruthful` | apps/indexer/src/lib/db/indexer-fencing.ts:119-181 | so in any honest run the published status, column by column, is one that a reader may rely on: holder and lease go together, a code with a halt, and a ready status has a holder and names the newest checkpoint, which is the lower tip |
| `Fleet.ReplayIsDeterministic` | apps/indexer/src/worker.ts:156-262 | two databases with equally many checkpoints hold the same rows |
| `Fleet.ChainForEver` | apps/indexer/src/repository.ts:265-384 | in any run, honest or not, the checkpoints are a gapless hash chain and no row of it ever changes |
| `Fleet.CheckpointsAreLinked` | apps/indexer/src/continuity.ts:17-54 | these checkpoints, column by column: indexes without a gap from activation with its hash, each with the hash of the one before as parent |
| `Repository.ProjectionRepository.AcquireLease` | apps/indexer/src/repository.ts:169-175 | success returns the token that holds the row, which was taken over at some reading of the database clock and is held for the whole duration from then on; without interference the outcome is exactly that of the lease rules |
| `Repository.ProjectionRepository.RenewLease` | apps/indexer/src/repository.ts:177-182 | success means that the epoch is still current and the tables are untouched |
| `Repository.ProjectionRepository.UpdateIndexerStatus` | apps/indexer/src/repository.ts:184-200 | publishes exactly the given status, under a current token only, and leaves the tables alone |
| `Repository.ProjectionRepository.ReleaseLease` | apps/indexer/src/repository.ts:202-204 | success leaves a free lease, a catching-up status and all tables as they were |
| `Repository.ProjectionRepository.HaltIndexer` | apps/indexer/src/repository.ts:206-212 | success leaves a halted status with its error code and tips, and no holder |
| `Repository.ProjectionRepository.GetLastCheckpoint` | apps/indexer/src/repository.ts:214-222 | the newest checkpoint, unchanged since as long as the epoch is |
| `Repository.ProjectionRepository.GetSchemaCatalog` | apps/indexer/src/repository.ts:224-249 | the catalog the stored schemas rebuild |
| `Repository.ProjectionRepository.InsertRegistration` | apps/indexer/src/repository.ts:313-364 | both inserts leave existing rows alone |
| `Repository.ProjectionRepository.PersistCredentialMutation` | apps/indexer/src/repository.ts:392-490 | one mutation, row by row, has the effect of its table function or reports its error |
| `Repository.ProjectionRepository.Transact` | apps/indexer/src/repository.ts:260-389 | the transaction commits all rows, the checkpoint and the status together, or changes nothing |
| `Repository.ProjectionRepository.PersistLedger` | apps/indexer/src/repository.ts:251-390 | under any interference, success means that this very call added the ledger under a current token; already processed cannot be the answer |
| `LedgerSource.QuorumLedgerSource.RecordTips` | apps/indexer/src/quorum-ledger-source.ts:50-65 | tips move on together or not at all, and never back |
| `LedgerSource.QuorumLedgerSource.Preflight` | apps/indexer/src/quorum-ledger-source.ts:101-142 | success means that both sources name the profile's network and the same activation ledger |
| `LedgerSource.QuorumLedgerSource.GetValidatedLedgerTips` | apps/indexer/src/quorum-ledger-source.ts:156-166 | succeeds exactly when both sources name a tip and neither regresses; the effective tip is the lower of both |
| `LedgerSource.QuorumLedgerSource.GetLedger` | apps/indexer/src/quorum-ledger-source.ts:168-191 | succeeds exactly when both sources report the same ledger, which is hence the validated one |
| `Worker.AddedAfterwards` | apps/indexer/src/worker.ts:224-238 | adding accepted registrations after persisting gives the catalog the projection had |
| `Worker.CatalogStaysInStep` | apps/indexer/src/worker.ts:224-238 | the in-memory catalog stays the one the tables rebuild |
| `Worker.NextIsAccepted` | apps/indexer/src/worker.ts:210-254 | where the fold accepts the next ledger, the transaction accepts it together with the status the worker publishes for it |
| `Worker.IndexerWorker.Observe` | apps/indexer/src/worker.ts:164-193 | what a round reads is still true when the lease is renewed afterwards |
| `Worker.IndexerWorker.PublishBeforeBatch` | apps/indexer/src/worker.ts:194-207 | a ready status before a batch names the newest checkpoint |
| `Worker.IndexerWorker.NewestIsPublishable` | apps/indexer/src/worker.ts:194-207 | a status that names the newest checkpoint is never refused while the tips have reached it |
| `Worker.IndexerWorker.ProcessLedger` | apps/indexer/src/worker.ts:210-254 | one ledger is fetched, projected against an up-to-date catalog and persisted, or the round fails; with a running lease, an answering quorum and nobody interfering it fails only if the fold does |
| `Worker.IndexerWorker.RunBatch` | apps/indexer/src/worker.ts:209-255 | the batch persists exactly the next ledgers up to batch size and limit; undisturbed it fails only if the fold does |
| `Worker.IndexerWorker.RunOnce` | apps/indexer/src/worker.ts:156-262 | one round more is counted; on success exactly that many ledgers, consecutive and its own, were added, nothing else changed, with a replay target no ready status and nothing beyond the target was written, and without one the status is ready exactly when the checkpoints have caught up with the lower tip; undisturbed, with tips that have reached checkpoint and target, the round succeeds exactly when the fold accepts its ledgers |
| `Worker.IndexerWorker.VerifySources` | apps/indexer/src/worker.ts:280-306 | a replay target counts as checked only when its hash is the validated one |
| `Worker.IndexerWorker.VerifyCheckpoint` | apps/indexer/src/worker.ts:308-336 | the newest checkpoint is that of the quorum's ledger, not beyond the lower tip or the target, and is what will be published as agreed |
| `Worker.IndexerWorker.Prepare` | apps/indexer/src/worker.ts:264-337 | success hands over a current lease, a checkpoint checked like that, a catching-up status that names it, and the verified target |
| `Worker.IndexerWorker.RunRounds` | apps/indexer/src/worker.ts:339-343 | the signal is looked at between rounds; a replay reaches its target exactly when it may run as many rounds as the remaining ledgers need, max(1, ceil(remaining / batch size)), and then runs exactly that many |
| `Worker.RoundsNeeded` | apps/indexer/src/worker.ts:209-255 | the number of rounds is the ceiling of ledgers by batch size, and one for none |
| `Worker.IndexerWorker.Conclude` | apps/indexer/src/worker.ts:344-376 | what failed before stays the failure, a failed release becomes one; the tables stay as they are while the token is current, success leaves the lease released, and without interference the status is exactly the halted or released one |
| `Worker.HaltFailsForTheLease` | apps/indexer/src/worker.ts:344-376 | every failure of a worker has a code that a halted status may carry, so halting fails exactly when the token is no longer current |
| `Worker.IndexerWorker.Finish` | apps/indexer/src/worker.ts:344-388 | whatever the run has reached is still stored after the lease is given back and others may write again |
| `Worker.IndexerWorker.Start` | apps/indexer/src/worker.ts:264-388 | a replay that is allowed as many rounds as the ledgers left at its beginning need, and does not fail, has stored its target with the configured hash; it ran exactly as many rounds as the ledgers it persisted itself need, and wrote nothing beyond the target and no ready status |
| `BusinessContext.NormalizeIsIdempotent` | apps/web/app/utils/operationJournal.ts:150-236 | a normalized context normalizes to itself |
| `BusinessContext.SplitOfJoined` | apps/web/app/utils/operationJournal.ts:254-270 | a business key splits back into its parts |
| `BusinessContext.KeyIdentifiesBusiness` | apps/web/app/utils/operationJournal.ts:254-270 | two normalized contexts have the same key exactly when profile and kind agree and, for registrations, publisher and digest, for issues issuer, subject and schema, whatever the payload, and for the other actions the generation as well, whatever the action |
| `BusinessContext.KeyExistsExactly` | apps/web/app/utils/operationJournal.ts:254-270 | every readable context has a key but a registration without publisher or digest |
| `BusinessContext.NormalFormExactly` | apps/web/app/utils/operationJournal.ts:150-236 | which contexts are valid, in hexadecimal digits and library checks, and their normal form |
| `Journal.IndexedDbOperationJournal.Create` | apps/web/app/utils/operationJournal.ts:626-672 | creates a prepared operation unless the identifier is taken or the business is locked |
| `Journal.IndexedDbOperationJournal.PersistSigned` | apps/web/app/utils/operationJournal.ts:674-723 | journals the signed blob only for a prepared operation without rival |
| `Journal.IndexedDbOperationJournal.Append` | apps/web/app/utils/operationJournal.ts:805-810 | applies an entry; terminal operations stay as they are |
| `Journal.IndexedDbOperationJournal.SetBusinessConfirmation` | apps/web/app/utils/operationJournal.ts:725-779 | stores a confirmation only with the evidence it needs |
| `Journal.IndexedDbOperationJournal.Abandon` | apps/web/app/utils/operationJournal.ts:781-803 | removes an operation only while nothing was signed |
| `Journal.IndexedDbOperationJournal.AssertBusinessLockOwned` | apps/web/app/utils/operationJournal.ts:827-849 | true exactly for a holder without rival |
| `Journal.EvidenceIsIdempotent` | apps/web/app/utils/operationJournal.ts:307-376 | normalized evidence normalizes to itself |
| `JournalChecks.CreatedExactly` | apps/web/app/utils/operationJournal.ts:626-672 | what a new operation is stored as, and the four reasons against it |
| `JournalChecks.SignedExactly` | apps/web/app/utils/operationJournal.ts:674-723 | what journaling a signature asks for and changes |
| `JournalChecks.AppendedExactly` | apps/web/app/utils/operationJournal.ts:518-535 | what an entry changes, field by field |
| `JournalChecks.AbandonedExactly` | apps/web/app/utils/operationJournal.ts:781-803 | what may be abandoned |
| `JournalChecks.EvidenceFormExactly` | apps/web/app/utils/operationJournal.ts:307-376 | which evidence is well formed, and its normal form |
| `JournalChecks.SupportExactly` | apps/web/app/utils/operationJournal.ts:386-428 | what evidence must show for each action |
| `JournalChecks.ShownExactly` | apps/web/app/utils/operationJournal.ts:430-475 | which confirmation is shown, and counts for the lock |
| `JournalChecks.ConfirmedExactly` | apps/web/app/utils/operationJournal.ts:725-779 | when a confirmation is stored, as what, and which reason is given otherwise |
| `JournalChecks.ConfirmedMeansDone` | apps/web/app/utils/operationJournal.ts:725-779 | in every interleaving, an operation with a hash that is shown as confirmed succeeded on the ledger, with evidence of that very transaction and of the event its action is for |
| `JournalExclusion.OneUnfinishedForEver` | apps/web/app/utils/operationJournal.ts:626-723 | over all interleavings at most one operation per business key is prepared, signed, submitted or pending |
| `JournalExclusion.UnfinishedAreDifferent` | apps/web/app/utils/operationJournal.ts:626-723 | so two unfinished operations of one profile are about different schemas, Credentials or generations |
| `JournalExclusion.SecondIssueIsLockedOut` | apps/web/app/utils/operationJournal.ts:254-270 | a second issue of one Credential is refused while the first is unfinished, whatever payload, URI and expiration are |
| `JournalExclusion.TerminalForEver` | apps/web/app/utils/operationJournal.ts:518-535 | a terminal operation keeps its stage, hash, ledger and result for ever |
| `JournalExclusion.HoldsAfterConfirmation` | apps/web/app/utils/operationJournal.ts:610-615 | after an accepted confirmation holding the lock depends exactly on the confirmation and on a stored hash |
| `JournalExclusion.LockIsExclusiveExactly` | apps/web/app/utils/operationJournal.ts:610-779 | the lock stays exclusive exactly unless a reclaiming confirmation meets an operation that took the key meanwhile |
| `JournalExclusion.TwoHoldersAreReachable` | apps/web/app/utils/operationJournal.ts:725-779 | such a state is reachable from an empty store |
| `SubmissionSafety.EveryPlanFits` | packages/sdk/src/submission.ts:160-357 | every journal entry of a run concerns its own operation and repeats exactly its blob's hash and last ledger |
| `SubmissionSafety.EveryWorldIsSafe` | packages/sdk/src/submission.ts:160-357 | the invariant of all tabs holds in every reachable world |
| `SubmissionSafety.SubmittedIsRecorded` | packages/sdk/src/submission.ts:275-344 | whatever was submitted is on record with exactly its blob, hash and last ledger in a recoverable stage, or is settled |
| `SubmissionSafety.SubmittedIsReviewed` | packages/sdk/src/submission.ts:502-536 | every submitted blob, retried ones included, carries one valid signature, and for every field name but the signature ones it has the field exactly if the reviewed transaction has, with the same value; the last ledger may differ only where a refresh is allowed, and is then positive |
| `SubmissionSafety.SignatureIsAcceptedExactly` | packages/sdk/src/submission.ts:502-568 | a signed blob is taken for a prepared transaction exactly under these conditions |
| `SubmissionSafety.SubmittedIsRecoverable` | apps/web/app/utils/walletSubmission.ts:24-69 | after a crash a recovery goes on with the very blob of an unsettled submission, exactly unless it is a credential acceptance or deletion whose stored context names no generation |
| `SubmissionChecks.PreparedExactly` | packages/sdk/src/submission.ts:160-202 | which transactions are journaled as prepared and signed |
| `SubmissionChecks.SigningExactly` | packages/sdk/src/submission.ts:204-236 | which of the wallet's answers are used |
| `SubmissionChecks.SubmittableExactly` | packages/sdk/src/submission.ts:238-275 | which blobs can be submitted |
| `SubmissionChecks.SubmittingExactly` | packages/sdk/src/submission.ts:266-281 | hash and last ledger are journaled before anything is sent |
| `SubmissionChecks.RecoveringExactly` | apps/web/app/composables/useWallet.ts:475-520 | which stored operations a recovery takes up |
| `SubmissionChecks.CheckingExactly` | apps/web/app/composables/useWallet.ts:493-533 | a settled status ends a recovery, any other one leads to the guards |
| `SubmissionChecks.GuardingExactly` | apps/web/app/composables/useWallet.ts:534-539 | each guard passes exactly while the operation holds its key and no other one does |
| `SubmissionChecks.AcknowledgingExactly` | packages/sdk/src/submission.ts:304-336 | what an acknowledgement journals; only results that start with `tem` end the run |
| `SubmissionChecks.ReportingExactly` | packages/sdk/src/submission.ts:346-356 | what a reported status journals; only validated and expired ones settle the operation |
| `ExampleSubmission.ContextlessCannotBeRetried` | apps/web/app/composables/useWallet.ts:484-492 | a concrete run after which an unsettled acceptance is on the network, on record with valid recovery material, and cannot be retried |
| `SubmissionProgram.Tabs.CreateOperation` | apps/web/app/composables/useWallet.ts:380-389 | creation is one journal transaction before anything is signed, and the answer says whether it went through |
| `SubmissionProgram.Tabs.SignPreparedAndSubmit` | packages/sdk/src/submission.ts:160-236 | the run takes only steps of the protocol and submits once at most; a status is returned only after a submission and only as the last journal entry tells it; not prepared, not signed, not submittable and held back mean that nothing was submitted, and not prepared is answered exactly for transactions that are not |
| `SubmissionProgram.Tabs.GiveUp` | packages/sdk/src/submission.ts:222-230 | a failure before submission ends with the attempt to journal the operation as failed |
| `SubmissionProgram.Tabs.SubmitSignedTransaction` | packages/sdk/src/submission.ts:238-357 | the same for the submission: at most one, a status only as journaled last, and not submittable exactly for blobs that are not |
| `SubmissionProgram.Tabs.PassBeforeSubmit` | packages/sdk/src/submission.ts:283-303 | the caller's guard passes before anything is submitted, or the run ends |
| `SubmissionProgram.Tabs.JournaledIsStored` | packages/sdk/src/submission.ts:346-356 | a settled status or a refusal that is returned leaves the stored operation terminal, a pending one leaves it pending unless it was terminal before |
| `SubmissionProgram.Tabs.Submit` | packages/sdk/src/submission.ts:304-310 | the one step after which the blob may be on the network, and the one submission of the run |
| `SubmissionProgram.Tabs.Acknowledge` | packages/sdk/src/submission.ts:310-344 | a lost acknowledgement leads to reconciliation with a submitted or pending entry journaled last, a malformed transaction to a failed one, and nothing else ends the run but a refused journal transaction |
| `SubmissionProgram.Tabs.WaitForTransaction` | packages/sdk/src/submission.ts:441-461 | the first poll that fails or is settled decides the answer; the last one is told as pending exactly when there is none |
| `SubmissionProgram.Tabs.Reconcile` | packages/sdk/src/submission.ts:346-356 | a status is returned only as the last journal entry tells it |
| `SubmissionProgram.Tabs.PassGuards` | apps/web/app/composables/useWallet.ts:534-539 | the lock is owned before and after the readiness check |
| `SubmissionProgram.Tabs.RetryOperation` | apps/web/app/composables/useWallet.ts:475-544 | a retry submits once at most; a status is returned only as journaled last, and without a submission only when it is settled |
| `SubmissionProgram.Tabs.StateIsSafe` | packages/sdk/src/submission.ts:160-357 | after every statement of every program the shared state is safe |
| `LedgerRanges.MergeRanges` | apps/indexer/src/profile-preflight.ts:70-82 | the merge keeps the set of covered indexes and leaves a real gap between neighbours |
| `LedgerRanges.ParseCompleteLedgers` | apps/indexer/src/profile-preflight.ts:46-83 | the ranges that the text lists are read and merged; a text that lists none is refused, as no history when it is empty or says so, as an invalid answer otherwise |
| `LedgerRanges.ListedAreReported` | apps/indexer/src/profile-preflight.ts:54-68 | read-back: every non-empty list of 32-bit ranges, printed in decimal as one number or two with a dash, with commas between and blanks and zeros around, is read as that list |
| `LedgerRanges.ReportedAreListed` | apps/indexer/src/profile-preflight.ts:54-68 | and every text that is read is such a print of what was read |
| `LedgerRanges.OtherTextsAreRefused` | apps/indexer/src/profile-preflight.ts:46-68 | every other text is refused with its code |
| `LedgerRanges.OneRangeHoldsRun` | apps/indexer/src/profile-preflight.ts:118-121 | in separated ranges an unbroken run lies in one range |
| `LedgerRanges.AssertSourceCoversProfile` | apps/indexer/src/profile-preflight.ts:97-132 | for every list of ranges and every text that lists it: accepted exactly when the network fits, the tip is not before activation and every index from activation to the tip is in a range; otherwise the code of the first reason |
| `PinQuota.PinningRepository.ReservePin` | apps/web/server/xcs/pinning-repository.ts:27-87 | a reservation commits all its rows or reports the first reason against it |
| `PinQuota.PinningRepository.SetStatus` | apps/web/server/xcs/pinning-repository.ts:89-133 | a status update touches one pin in the allowed states |
| `PinQuota.PinningRepository.DeleteExpiredUnreferencedChallenges` | apps/web/server/xcs/pinning-repository.ts:135-175 | only expired challenges without pins go |
| `PinQuota.RollingQuota` | apps/web/server/xcs/pinning-repository.ts:46-62 | in every window of 24 hours, for any order and skew of clocks, no wallet and no requester exceeds the daily limit |
| `PinQuota.ChallengesAreSingleUse` | apps/web/server/xcs/pinning-repository.ts:29-67 | no challenge ever backs two pins, however challenges are swept and created |
| `PinQuota.PinsOnlyAdvance` | apps/web/server/xcs/pinning-repository.ts:89-133 | pins are never removed or rewritten, and failed and unpinned are final |
| `PinQuota.ReservedExactly` | apps/web/server/xcs/pinning-repository.ts:27-87 | the answer to a reservation by challenge, clock, wallet, requester and the number of rows of the last 24 hours, and the rows it writes |
| `PinQuota.QuotaPerDay` | apps/web/server/xcs/pinning-repository.ts:46-62 | the rolling quota as a number of rows, for wallets and requesters |
| `PinQuota.EveryPinIsBacked` | apps/web/server/xcs/pinning-repository.ts:29-67 | every pin of every run keeps a challenge of the same profile, wallet and requester that was spent when the pin was created and not expired by then |
| `PinQuota.MarkedExactly` | apps/web/server/xcs/pinning-repository.ts:89-133 | a status update changes the status of the pin it names, in an allowed state, and nothing else |
| `PinQuota.SweptExactly` | apps/web/server/xcs/pinning-repository.ts:135-175 | which challenges a sweep may delete |
| `RateLimiter.Limiter.DeleteStale` | apps/web/server/xcs/rate-limit.ts:51-57 | the deletion during iteration keeps exactly the windows younger than an hour, in order |
| `RateLimiter.Limiter.MakeRoom` | apps/web/server/xcs/rate-limit.ts:66-75 | room is made by dropping stale entries, then the first ones |
| `RateLimiter.Limiter.HitKey` | apps/web/server/xcs/rate-limit.ts:77-97 | a hit has the effect and the answer of its state function |
| `RateLimiter.RunIsBounded` | apps/web/server/xcs/rate-limit.ts:61-75 | the map never exceeds its cap, or one entry when the cap is zero |
| `RateLimiter.HitRefines` | apps/web/server/xcs/rate-limit.ts:77-97 | while nothing that still counts is forgotten or evicted a hit decides as in a limiter that forgets nothing |
| `RateLimiter.SameWindowExactly` | apps/web/server/xcs/rate-limit.ts:51-59 | a hit is counted in the remembered window exactly unless the prune before it, reading the clock again, forgets the key's own open window; for budgets above an hour a window forgotten earlier is the other exception |
| `RateLimiter.RunRefines` | apps/web/server/xcs/rate-limit.ts:77-97 | the same for whole runs |
| `RateLimiter.BudgetPerWindow` | apps/web/server/xcs/rate-limit.ts:83-92 | each window allows at most its budget |
| `RateLimiter.BudgetPerInterval` | apps/web/server/xcs/rate-limit.ts:83-92 | an interval as long as a window allows at most twice the budget |
| `RateLimiter.LimiterKeepsBudget` | apps/web/server/xcs/rate-limit.ts:45-102 | the bounded limiter keeps that too |
| `RateLimiter.FittingRunIsExact` | apps/web/server/xcs/rate-limit.ts:45-102 | in terms of the requests alone: with no more keys than the map has room for and budgets that leave room in the hour, every decision is that of a limiter that forgets nothing, and the doubled budget holds |
| `RateLimiter.DecidedExactly` | apps/web/server/xcs/rate-limit.ts:77-97 | the decisions of the limiter that forgets nothing, from the requests alone: how many have been counted since the one that opened the window, and what the client is told |
| `RateLimiter.AnswerIsExact` | apps/web/server/xcs/rate-limit.ts:89-96 | the announced wait and remainder are exact: the window restarts after the wait and not a second earlier |
| `RateLimiter.HourBudgetCanRestart` | apps/web/server/xcs/rate-limit.ts:51-59 | a concrete run from a new limiter in which a budget of exactly an hour restarts early |
| `RateLimiter.OldestGoExactly` | apps/web/server/xcs/rate-limit.ts:66-75 | for every number of entries to drop the oldest go first exactly when the starts ascend along the map |
| `RateLimiter.RunAscends` | apps/web/server/xcs/rate-limit.ts:46-47 | in a run from an empty map the starts ascend all along exactly as long as no hit restarts a window in front of one that started earlier |
| `RateLimiter.YoungerIsEvicted` | apps/web/server/xcs/rate-limit.ts:71-74 | a concrete run after which a full map evicts a window younger than the one it keeps |
| `FixtureBundle.FixtureCapture.WriteIndexChunk` | apps/indexer/src/fixture-bundle.ts:700-728 | a chunk file and its descriptor list the same entries |
| `FixtureBundle.FixtureCapture.Capture` | apps/indexer/src/fixture-bundle.ts:1032-1055 | a capture succeeds exactly when every ledger of the range is answered, continues the one before and fits its limits, and every index chunk fits its own; then the chunks meet the manifest rules and the files hold exactly the captured ledgers |
| `FixtureBundle.AlignedAt` | apps/indexer/src/fixture-bundle.ts:440-450 | aligned manifests have their chunks at fixed positions |
| `FixtureBundle.PositionIsExact` | apps/indexer/src/fixture-bundle.ts:1162-1168 | the floor division selects the one chunk that holds a ledger |
| `FixtureBundle.LedgerFixtureBundleSource.GetLedger` | apps/indexer/src/fixture-bundle.ts:1155-1181 | the cached answer is that of a fresh read whenever a fresh read succeeds |
| `FixtureBundle.ChunkReadsAlike` | apps/indexer/src/fixture-bundle.ts:730-803 | a chunk that reads at all reads alike, whatever happened to its file |
| `FixtureBundle.ServedIsCaptured` | apps/indexer/src/fixture-bundle.ts:805-872 | whatever is served is the captured ledger, even when files were replaced between calls |
| `FixtureBundle.CapturedIsServed` | apps/indexer/src/fixture-bundle.ts:1155-1181 | from the captured files every ledger of the range is served |
| `BundleChecks.FreshlyReadExactly` | apps/indexer/src/fixture-bundle.ts:1155-1181 | a read selects chunk and entry by the distance to the first ledger |
| `BundleChecks.LedgerReadsExactly` | apps/indexer/src/fixture-bundle.ts:805-872 | which ledger files are read, by digests and header |
| `BundleChecks.ChunkReadsExactly` | apps/indexer/src/fixture-bundle.ts:730-803 | which index chunks are read |
| `BundleChecks.AlignedExactly` | apps/indexer/src/fixture-bundle.ts:415-455 | the chunks of a manifest are exactly the runs of 4096 ledgers from the first one to the end of the range |
| `BundleChecks.CapturedExactly` | apps/indexer/src/fixture-bundle.ts:1032-1055 | a range can be captured exactly when its ledgers are served, form one chain from the activation hash and fit the limits |
| `BundleChecks.LimitsExactly` | apps/indexer/src/fixture-bundle.ts:676-728 | the limits in bytes |
| `Publish.MakeDirectories` | apps/indexer/src/fixture-bundle.ts:617-629 | an existing destination is never touched; the directories stand up to the first step that fails, which may have left one more |
| `Publish.LinkChunks` | apps/indexer/src/fixture-bundle.ts:631-635 | index chunks are linked in order up to the first step that fails, which may have left one more |
| `Publish.LinkLedgers` | apps/indexer/src/fixture-bundle.ts:636-644 | ledgers follow likewise |
| `Publish.RollBack` | apps/indexer/src/fixture-bundle.ts:653-671 | nothing is left exactly when there is no stray file and all removals take effect; the states on the way stay complete exactly unless the manifest stands, irremovable or unknown, while some of its evidence goes |
| `Publish.PublishBundleNoClobber` | apps/indexer/src/fixture-bundle.ts:605-675 | for every pattern of steps that fail or lose their reply: success exactly when all work, and then exactly the bundle; an existing destination is untouched; after a failure nothing is left exactly when the failed step left no stray and all removals took effect; no state shows a manifest without its evidence exactly unless the manifest sticks |
| `Publish.ManifestCanStick` | apps/indexer/src/fixture-bundle.ts:650-657 | a concrete pattern of two failing steps with which the manifest sticks |
| `Publish.LostReplyIsEnough` | apps/indexer/src/fixture-bundle.ts:646-649 | so is a single lost reply, the one to linking the manifest |
| `Publish.ManifestWithoutEvidence` | apps/indexer/src/fixture-bundle.ts:605-675 | what a publication leaves on the disk then |

## Left out

- Several profiles in one database: the model is one profile, and its network profile row and scope checks are not modelled.
- The incident rows written when an indexer halts; the halted status itself is modelled.
- Timestamps of rows, wall-clock freshness of checkpoints (a parameter of `StatusReader.AuthoritativeEvidence`) and observer callbacks.
- JSON documents with duplicate keys and the tokenizer's own limits: documents are what the strict reader returns.
- JSON columns are stored and read back as equal values; their encoding in the database is not modelled.
- The repeated attempts at a serialisable database transaction: each transaction is one step.
- The order of fields inside stored schema JSON: fields keep the order of the document, as the program's objects do.
- Source checks behind one endpoint (amendments, registry account, signer lists) except the coverage of complete ledgers.
- The disconnection of sources at the end of a worker run, whose failure only changes the reported error.
- Worker.IndexerWorker.Prepare: the profile row that initializeProfile writes is not modelled.
- Submission.SubmitPlan: a run is told one final status; the polls behind it are in SubmissionProgram.Tabs.WaitForTransaction.
- Whether an expired verdict is final on the network: it is a reported status.
- The confirmation of an operation against the index after submission, beyond storing its outcome.
- Session and profile checks of the wallet between its steps: each is a guard that may fail.
- PinQuota.RollingQuota: all reservations of a run use limits up to the one named; a deployment that raises its limit starts a new run.
- RateLimiter.BudgetPerInterval: a key keeps one budget for the whole run, as routes do.
- Publish.PublishBundleNoClobber: other programs writing into the destination meanwhile are not modelled.
- FixtureBundle.FixtureCapture.Capture: the temporary directory starts empty and belongs to the capture alone.
- CredentialHistory.Plausible: asks every Credential node of a ledger to be well formed, not only those of indexed schemas.
- HTTP routing, OpenAPI, metrics, configuration, the command line and the user interface.
- Payload URIs, content identifiers and payload verification.
