/** What every interleaving of journal transactions, from any number of tabs, keeps. */
module JournalExclusion {
  import opened Base
  import opened BusinessContext
  import opened Journal

  datatype Change =
    | Create(seed: Seed)
    | PersistSigned(record: SignedRecord)
    | Append(entry: JournalEntry)
    | SetConfirmation(id: string, confirmation: Confirmation, at: string, evidence: Option<Evidence>)
    | Abandon(operationId: string)

  function Attempt(store: Store, change: Change, rules: Rules): Result<Store, JournalError> {
    match change
    case Create(seed) => CreateIn(store, seed, rules)
    case PersistSigned(record) => PersistSignedIn(store, record, rules)
    case Append(entry) => AppendIn(store, entry)
    case SetConfirmation(id, confirmation, at, evidence) => ConfirmIn(store, id, confirmation, at, evidence, rules)
    case Abandon(id) => AbandonIn(store, id)
  }

  /** A refused transaction aborts and changes nothing. */
  function Apply(store: Store, change: Change, rules: Rules): Store {
    var r := Attempt(store, change, rules);
    if r.Ok? then r.value else store
  }

  /** The store after a sequence of transactions, in the order they committed or aborted. */
  function Then(store: Store, changes: seq<Change>, rules: Rules): Store {
    if changes == [] then store
    else Apply(Then(store, changes[..|changes| - 1], rules), changes[|changes| - 1], rules)
  }

  // ---- At most one unfinished operation per business ---------------------------------------------

  predicate Rivals(a: Operation, b: Operation, rules: Rules) {
    IsPreTerminal(a) && IsPreTerminal(b) && KeyOf(a, rules).Some? && KeyOf(a, rules) == KeyOf(b, rules)
  }

  ghost predicate OneUnfinished(store: Store, rules: Rules) {
    forall x, y :: x in store && y in store && x != y ==> !Rivals(store[x], store[y], rules)
  }

  /** The key of a new operation is the key its creation was checked for. */
  lemma KeyOfNew(seed: Seed, c: Option<Context>, rules: Rules)
    requires seed.business.Some? <==> c.Some?
    requires seed.business.Some? ==> Normalize(seed.business.value, rules) == c
    ensures KeyOf(NewOperation(seed, c), rules) == BusinessKey(seed.profileId, c)
  {
    hide Normalize, BusinessKey;
    if seed.business.Some? { NormalizeIsIdempotent(seed.business.value, rules); }
  }

  lemma {:induction false} ChangeKeepsOneUnfinished(store: Store, change: Change, rules: Rules)
    requires OneUnfinished(store, rules)
    ensures OneUnfinished(Apply(store, change, rules), rules)
  {
    hide Normalize, BusinessKey, NormalizeEvidence, Supports, ConfirmationOf;
    var after := Apply(store, change, rules);
    if change.Create? && Attempt(store, change, rules).Ok? {
      var seed := change.seed;
      KeyOfNew(seed, if seed.business.None? then None else Normalize(seed.business.value, rules), rules);
    }
    forall x, y | x in after && y in after && x != y ensures !Rivals(after[x], after[y], rules) {
      if x in store && y in store { assert !Rivals(store[x], store[y], rules); }
    }
  }

  /** Over all interleavings at most one operation per business key is prepared, signed, submitted or pending. */
  lemma {:induction false} OneUnfinishedForEver(changes: seq<Change>, rules: Rules)
    ensures OneUnfinished(Then(map[], changes, rules), rules)
    decreases |changes|
  {
    hide Apply;
    if changes != [] {
      OneUnfinishedForEver(changes[..|changes| - 1], rules);
      ChangeKeepsOneUnfinished(Then(map[], changes[..|changes| - 1], rules), changes[|changes| - 1], rules);
    }
  }

  /** So two unfinished operations of one profile are about different schemas, Credentials or generations. */
  lemma UnfinishedAreDifferent(changes: seq<Change>, rules: Rules, x: string, y: string, a: Context, b: Context)
    requires var store := Then(map[], changes, rules);
             && x != y && x in store && y in store && store[x].seed.profileId == store[y].seed.profileId
             && store[x].stage in {Prepared, Signed, Submitted, Pending}
             && store[y].stage in {Prepared, Signed, Submitted, Pending}
             && store[x].seed.business == Some(a) && store[y].seed.business == Some(b)
    requires Normalize(a, rules) == Some(a) && Normalize(b, rules) == Some(b)
    ensures a.CredentialIssue? && b.CredentialIssue? ==>
              a.issuer != b.issuer || a.subject != b.subject || a.schemaUid != b.schemaUid
    ensures a.GenerationBound? && b.GenerationBound? ==>
              a.issuer != b.issuer || a.subject != b.subject || a.schemaUid != b.schemaUid
              || a.generationId != b.generationId
    ensures a.SchemaRegister? && b.SchemaRegister? && a.publisher.Some? && a.publisher.value != ""
            && a.schemaDigest.Some? && a.schemaDigest.value != "" ==>
              a.publisher != b.publisher || a.schemaDigest != b.schemaDigest
  {
    hide Then, Normalize;
    OneUnfinishedForEver(changes, rules);
    var store := Then(map[], changes, rules);
    assert !Rivals(store[x], store[y], rules);
  }

  /**
   A second issue of one Credential is refused while the first is unfinished, whatever the two payloads, URIs and
   expirations are and however the schema identifiers are written.
   */
  lemma SecondIssueIsLockedOut(store: Store, x: string, first: Context, seed: Seed, second: Context, rules: Rules)
    requires x in store && store[x].seed.business == Some(first) && first.CredentialIssue?
    requires store[x].stage in {Prepared, Signed, Submitted, Pending}
    requires seed.business == Some(second) && second.CredentialIssue? && seed.operationId !in store
    requires Normalize(first, rules).Some? && Normalize(second, rules).Some?
    requires second.credentialUri.Some? && second.payloadDigest.Some?
    requires seed.profileId == store[x].seed.profileId && second.issuer == first.issuer
    requires second.subject == first.subject && Lower(second.schemaUid) == Lower(first.schemaUid)
    ensures CreateIn(store, seed, rules) == Err(BusinessLocked)
  {
    hide ConfirmationOf;
    NormalFormExactly(first, rules);
    NormalFormExactly(second, rules);
    assert HoldsLock(store[x], rules) && KeyOf(store[x], rules) == BusinessKey(seed.profileId, Normalize(second, rules));
  }

  // ---- Terminal for ever -----------------------------------------------------------------------------

  /** A terminal operation stays, keeps its stage, hash, blob and result, and cannot be recreated or abandoned. */
  lemma TerminalStays(store: Store, change: Change, rules: Rules, id: string)
    requires id in store && IsTerminal(store[id].stage)
    ensures var after := Apply(store, change, rules);
            && id in after
            && after[id] == store[id].(updatedAt := after[id].updatedAt, confirmation := after[id].confirmation,
                                       evidence := after[id].evidence)
  {
    hide Normalize, BusinessKey, NormalizeEvidence, Supports, ConfirmationOf;
  }

  lemma {:induction false} TerminalForEver(store: Store, changes: seq<Change>, rules: Rules, id: string)
    requires id in store && IsTerminal(store[id].stage)
    ensures var after := Then(store, changes, rules);
            id in after && after[id].stage == store[id].stage && after[id].txHash == store[id].txHash
            && after[id].ledgerIndex == store[id].ledgerIndex && after[id].engineResult == store[id].engineResult
    decreases |changes|
  {
    hide Apply;
    if changes != [] {
      TerminalForEver(store, changes[..|changes| - 1], rules, id);
      TerminalStays(Then(store, changes[..|changes| - 1], rules), changes[|changes| - 1], rules, id);
    }
  }

  // ---- The lock as the journal itself counts it ---------------------------------------------------------

  predicate BothHold(a: Operation, b: Operation, rules: Rules) {
    HoldsLock(a, rules) && HoldsLock(b, rules) && KeyOf(a, rules).Some? && KeyOf(a, rules) == KeyOf(b, rules)
  }

  ghost predicate OneHolder(store: Store, rules: Rules) {
    forall x, y :: x in store && y in store && x != y ==> !BothHold(store[x], store[y], rules)
  }

  /** When a stored confirmation makes a validated operation a holder of its lock. */
  predicate Reclaims(op: Operation, confirmation: Confirmation) {
    confirmation.Timeout? || ((confirmation.Confirmed? || confirmation.Refuted?) && !HasHash(op))
  }

  /** After an accepted confirmation, holding the lock depends on the confirmation and on a stored hash alone. */
  lemma HoldsAfterConfirmation(store: Store, id: string, confirmation: Confirmation, at: string,
                               evidence: Option<Evidence>, rules: Rules)
    requires !confirmation.PendingConfirmation?
    requires ConfirmIn(store, id, confirmation, at, evidence, rules).Ok?
    ensures id in store
    ensures var after := ConfirmIn(store, id, confirmation, at, evidence, rules).value;
            && after.Keys == store.Keys
            && KeyOf(after[id], rules) == KeyOf(store[id], rules)
            && (HoldsLock(after[id], rules) <==> Reclaims(store[id], confirmation))
  {
    hide Normalize, BusinessKey, NormalizeEvidence, Supports;
    if evidence.Some? { EvidenceIsIdempotent(evidence.value); }
  }

  /** A change that gives the lock back to a validated operation while another one holds it. */
  predicate Collides(store: Store, change: Change, rules: Rules) {
    && change.SetConfirmation? && Attempt(store, change, rules).Ok?
    && Reclaims(store[change.id], change.confirmation)
    && HasRival(store, change.id, KeyOf(store[change.id], rules), rules)
  }

  lemma OtherChangesKeepOneHolder(store: Store, change: Change, rules: Rules)
    requires OneHolder(store, rules) && !change.SetConfirmation?
    ensures OneHolder(Apply(store, change, rules), rules)
  {
    hide Normalize, BusinessKey, NormalizeEvidence, Supports, ConfirmationOf;
    var after := Apply(store, change, rules);
    if change.Create? && Attempt(store, change, rules).Ok? {
      var seed := change.seed;
      KeyOfNew(seed, if seed.business.None? then None else Normalize(seed.business.value, rules), rules);
    }
    forall x, y | x in after && y in after && x != y ensures !BothHold(after[x], after[y], rules) {
      if x in store && y in store { assert !BothHold(store[x], store[y], rules); }
    }
  }

  lemma ConfirmationAndOneHolder(store: Store, change: Change, rules: Rules)
    requires OneHolder(store, rules) && change.SetConfirmation? && !change.confirmation.PendingConfirmation?
    ensures OneHolder(Apply(store, change, rules), rules) <==> !Collides(store, change, rules)
  {
    hide KeyOf, HoldsLock, ConfirmIn;
    var after := Apply(store, change, rules);
    var id := change.id;
    if Attempt(store, change, rules).Ok? {
      HoldsAfterConfirmation(store, id, change.confirmation, change.at, change.evidence, rules);
      OthersUnchanged(store, change, rules);
      if Collides(store, change, rules) {
        var x :| x in store && x != id && HoldsLock(store[x], rules) && KeyOf(store[x], rules) == KeyOf(store[id], rules);
        assert BothHold(after[x], after[id], rules);
      } else {
        forall x, y | x in after && y in after && x != y ensures !BothHold(after[x], after[y], rules) {
          assert !BothHold(store[x], store[y], rules);
          assert !Reclaims(store[id], change.confirmation) || !HasRival(store, id, KeyOf(store[id], rules), rules);
        }
      }
    }
  }

  lemma OthersUnchanged(store: Store, change: Change, rules: Rules)
    requires change.SetConfirmation? && Attempt(store, change, rules).Ok?
    ensures forall x :: x in store && x != change.id ==>
              x in Apply(store, change, rules) && Apply(store, change, rules)[x] == store[x]
  {
    hide Normalize, BusinessKey, NormalizeEvidence, Supports;
  }

  /**
   The lock itself is exclusive step by step, except in exactly one family of steps: a confirmation stored as timed
   out, or as decided without a stored hash, for an operation whose key another operation has taken meanwhile.
   */
  lemma LockIsExclusiveExactly(store: Store, change: Change, rules: Rules)
    requires OneHolder(store, rules)
    requires change.SetConfirmation? ==> !change.confirmation.PendingConfirmation?
    ensures OneHolder(Apply(store, change, rules), rules) <==> !Collides(store, change, rules)
  {
    hide Apply, Attempt;
    if change.SetConfirmation? {
      ConfirmationAndOneHolder(store, change, rules);
    } else {
      OtherChangesKeepOneHolder(store, change, rules);
    }
  }

  // ---- Two holders of one lock ---------------------------------------------------------------------------

  const Anyone := Rules(_ => true, _ => true, _ => true)

  function Zeros(): string {
    seq(64, i => '0')
  }

  function ExampleContext(): Context {
    GenerationBound(AcceptCredential, "i", "s", Zeros(), Zeros(), None)
  }

  function ExampleSeed(id: string): Seed {
    Seed(id, "s", "p", 0, "CredentialAccept", "0", Some(ExampleContext()))
  }

  function ExampleOperation(id: string): Operation {
    NewOperation(ExampleSeed(id), Some(ExampleContext()))
  }

  const ValidatedEntry := JournalEntry("1", "1", Validated, Some("h"), Some(1), Some("tesSUCCESS"), Some(1), None)

  /** The first operation, validated, with the given confirmation. */
  function ExampleValidated(confirmation: Confirmation): Operation {
    AppliedEntry(ExampleOperation("1"), ValidatedEntry).(updatedAt := "2", confirmation := Some(confirmation))
  }

  lemma ExampleFacts(op: Operation)
    requires op.seed == ExampleSeed("1") || op.seed == ExampleSeed("2")
    ensures ContextOf(op, Anyone) == Some(ExampleContext())
    ensures KeyOf(op, Anyone) == BusinessKey("p", Some(ExampleContext()))
    ensures KeyOf(op, Anyone).Some?
  {
    assert Lower(Zeros()) == Zeros() && IsHash(Zeros());
  }

  lemma ExampleStart()
    ensures Then(map[], [Create(ExampleSeed("1")), Append(ValidatedEntry)], Anyone)
            == map["1" := AppliedEntry(ExampleOperation("1"), ValidatedEntry)]
  {
    hide Normalize, BusinessKey;
    ExampleFacts(ExampleOperation("1"));
    var changes := [Create(ExampleSeed("1")), Append(ValidatedEntry)];
    assert changes[..1] == [changes[0]] && changes[..1][..0] == [];
    assert Then(map[], changes[..1], Anyone) == map["1" := ExampleOperation("1")];
  }

  lemma ExampleMismatch()
    ensures Apply(map["1" := AppliedEntry(ExampleOperation("1"), ValidatedEntry)],
                  SetConfirmation("1", Mismatch, "2", None), Anyone)
            == map["1" := ExampleValidated(Mismatch)]
    ensures !HoldsLock(ExampleValidated(Mismatch), Anyone)
  {
    hide Normalize, BusinessKey;
    ExampleFacts(AppliedEntry(ExampleOperation("1"), ValidatedEntry));
    ExampleFacts(ExampleValidated(Mismatch));
  }

  lemma ExampleRival()
    ensures Apply(map["1" := ExampleValidated(Mismatch)], Create(ExampleSeed("2")), Anyone)
            == map["1" := ExampleValidated(Mismatch), "2" := ExampleOperation("2")]
  {
    hide Normalize, BusinessKey, HoldsLock;
    ExampleMismatch();
    ExampleFacts(ExampleOperation("2"));
  }

  lemma ExampleReclaimed()
    ensures Apply(map["1" := ExampleValidated(Mismatch), "2" := ExampleOperation("2")],
                  SetConfirmation("1", Timeout, "2", None), Anyone)
            == map["1" := ExampleValidated(Timeout), "2" := ExampleOperation("2")]
    ensures BothHold(ExampleValidated(Timeout), ExampleOperation("2"), Anyone)
  {
    hide Normalize, BusinessKey;
    ExampleFacts(ExampleValidated(Mismatch));
    ExampleFacts(ExampleValidated(Timeout));
    ExampleFacts(ExampleOperation("2"));
  }

  /**
   Two holders of one lock, reached from an empty store: the first operation is validated and found to mismatch,
   the second is created, and then the first one is reconfirmed as timed out.
   */
  lemma TwoHoldersAreReachable()
    ensures exists changes :: !OneHolder(Then(map[], changes, Anyone), Anyone)
  {
    hide Apply, ExampleValidated, ExampleOperation, BothHold;
    var c2 := [Create(ExampleSeed("1")), Append(ValidatedEntry)];
    var c3 := c2 + [SetConfirmation("1", Mismatch, "2", None)];
    var c4 := c3 + [Create(ExampleSeed("2"))];
    var c5 := c4 + [SetConfirmation("1", Timeout, "2", None)];
    ExampleStart();
    ExampleMismatch();
    ExampleRival();
    ExampleReclaimed();
    assert c3[..2] == c2 && c4[..3] == c3 && c5[..4] == c4;
    assert Then(map[], c3, Anyone) == map["1" := ExampleValidated(Mismatch)];
    assert Then(map[], c4, Anyone) == map["1" := ExampleValidated(Mismatch), "2" := ExampleOperation("2")];
    var end := Then(map[], c5, Anyone);
    assert end == map["1" := ExampleValidated(Timeout), "2" := ExampleOperation("2")];
    assert BothHold(end["1"], end["2"], Anyone);
  }
}
