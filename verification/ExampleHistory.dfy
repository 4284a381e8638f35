/**
 Small histories, one transaction in each ledger: one that meets every assumption, and one for each promise that the
 indexer and its reader do not keep on all histories.
 */
module ExampleHistory {
  import opened Base
  import opened SchemaLanguage
  import opened SchemaResolution
  import opened LedgerModel
  import opened Registration
  import opened CredentialMutations
  import opened ProjectLedger
  import opened ProjectionStore
  import opened Replay
  import opened SchemaHistory
  import opened CredentialHistory
  import opened Lifecycle
  import opened Progress
  import opened Reader
  import opened SchemaReader

  /** What the one transaction of a ledger does. */
  datatype Act = Register(account: Value) | Issue | Accept | Touch | Revoke(accepted: bool) | RevokeOlder

  /** The acts of the first ledgers; the one in ledger `at` is the registration of the schema. */
  datatype Example = Example(acts: seq<Act>, at: nat, existing: map<string, CredentialFields>)

  predicate IsExample(x: Example) {
    && 1 <= x.at <= |x.acts| <= 4
    && (x.acts[x.at - 1] == Register(Str("p")) || x.acts[x.at - 1] == Register(Absent))
    && forall i :: 0 <= i < |x.acts| && x.acts[i].Register? ==> i == x.at - 1
  }

  function Digits(c: char): string {
    seq(64, _ => c)
  }

  const Definition := SchemaDefinition("n", "d", [Field("f", Scalar(BoolType, false))], None, None)

  /** Identifiers that tell positions apart; the one of the registration is a hash. */
  function Identifier(at: nat, ledgerIndex: nat, transactionIndex: nat): string {
    if ledgerIndex == at && transactionIndex == 0 then Digits('a')
    else seq(ledgerIndex, _ => 'x') + "y" + seq(transactionIndex, _ => 'x')
  }

  function CodecOf(at: nat): Codec {
    Codec(
      (s: string) => s == "p" || s == "q",
      (s: string) => Ok(SchemaJson(Definition)),
      (j: Json) => "j",
      (s: string) => s == "00",
      (i: UidInput) => Identifier(at, i.ledgerIndex, i.transactionIndex))
  }

  /** A hash of its own for each of the first ledgers. */
  function Numbered(ledgerIndex: nat): string {
    Digits(if ledgerIndex < 10 then '0' + (ledgerIndex as char) else '0')
  }

  const ExampleProfile := Profile("e", 1, "r", "1", 1, Numbered(1))

  const ObjectId := Digits('b')

  function FieldsOf(accepted: bool): CredentialFields {
    CredentialFields(Str("p"), Str("q"), Str(Digits('a')), if accepted then Num(CREDENTIAL_ACCEPTED_FLAG) else Absent,
                     Absent, Str("00"))
  }

  /** A Credential of a type that is no schema. */
  const OlderId := Digits('c')
  const OlderFields := FieldsOf(false).(credentialType := Str(Digits('c')))

  /** The Credential node of an act, as the indexer reads it; the modification of a Touch does not report its flags. */
  function NodeOf(act: Act): NormalizedNode
    requires !act.Register?
  {
    match act
    case Issue => NormalizedNode(CreatedNode, ObjectId, FieldsOf(false), Absent)
    case Accept => NormalizedNode(ModifiedNode, ObjectId, FieldsOf(true), Num(0))
    case Touch => NormalizedNode(ModifiedNode, ObjectId, FieldsOf(true), Absent)
    case Revoke(accepted) => NormalizedNode(DeletedNode, ObjectId, FieldsOf(accepted), Absent)
    case RevokeOlder => NormalizedNode(DeletedNode, OlderId, OlderFields, Absent)
  }

  function BodyOf(id: string, newFields: Option<CredentialFields>, finalFields: Option<CredentialFields>,
                  previousFields: Option<CredentialFields>): Option<NodeBody>
  {
    Some(NodeBody(true, Str(id), newFields, finalFields, previousFields))
  }

  function NodesOf(act: Act): seq<AffectedNode> {
    match act
    case Register(_) => []
    case Issue => [AffectedNode(BodyOf(ObjectId, Some(FieldsOf(false)), None, None), None, None)]
    case Accept =>
      [AffectedNode(None, BodyOf(ObjectId, None, Some(FieldsOf(true)), Some(FieldsOf(false).(flags := Num(0)))), None)]
    case Touch => [AffectedNode(None, BodyOf(ObjectId, None, Some(FieldsOf(true)), None), None)]
    case Revoke(accepted) => [AffectedNode(None, None, BodyOf(ObjectId, None, Some(FieldsOf(accepted)), None))]
    case RevokeOlder => [AffectedNode(None, None, BodyOf(OlderId, None, Some(OlderFields), None))]
  }

  function MemosOf(act: Act): seq<Memo> {
    if act.Register? then [Memo(Some("xcs:schema_register"), Some("application/json"), Some("j"))] else []
  }

  function TransactionOf(i: nat, act: Act): Transaction {
    var account := match act case Register(account) => account case Accept => Str("q") case _ => Str("p");
    var name := match act case Register(_) => "Payment" case Issue => "CredentialCreate" case Accept => "CredentialAccept"
                          case Touch => "CredentialAccept" case _ => "CredentialDelete";
    Transaction(Numbered(i), 0, account, Str(name), Str("tesSUCCESS"), Str("r"), Str("1"), Absent,
                false, false, false, Absent, MemosOf(act), NodesOf(act))
  }

  function TransactionsOf(x: Example, i: nat): seq<Transaction> {
    if 1 <= i <= |x.acts| then [TransactionOf(i, x.acts[i - 1])] else []
  }

  function LedgerOf(x: Example, i: nat): Ledger {
    Ledger(i, Numbered(i), Numbered(Max(0, i - 1)), 0, Digits('0'), TransactionsOf(x, i))
  }

  function SettingOf(x: Example): Setting {
    Setting((i: nat) => LedgerOf(x, i), ExampleProfile, CodecOf(x.at), x.existing)
  }

  // ---- All of them are sound -------------------------------------------------------------------

  function LeadingX(s: string): nat {
    if s == "" || s[0] != 'x' then 0 else 1 + LeadingX(s[1..])
  }

  lemma {:induction false} LeadingXOf(n: nat, rest: string)
    requires rest != "" && rest[0] != 'x'
    ensures LeadingX(seq(n, _ => 'x') + rest) == n
    decreases n
  {
    if n > 0 {
      assert (seq(n, _ => 'x') + rest)[1..] == seq(n - 1, _ => 'x') + rest;
      LeadingXOf(n - 1, rest);
    } else {
      assert seq(n, _ => 'x') + rest == rest;
    }
  }

  lemma ShapeOfIdentifier(at: nat, a: nat, b: nat)
    ensures var s := Identifier(at, a, b);
            && s != "" && (s[0] == 'a' <==> a == at && b == 0)
            && (s[0] != 'a' ==> LeadingX(s) == a && |s| == a + 1 + b)
  {
    var tail := seq(b, _ => 'x');
    LeadingXOf(a, "y" + tail);
    assert seq(a, _ => 'x') + "y" + tail == seq(a, _ => 'x') + ("y" + tail);
  }

  lemma IdentifiersDiffer(at: nat, a: nat, b: nat, c: nat, d: nat)
    requires Identifier(at, a, b) == Identifier(at, c, d)
    ensures a == c && b == d
  {
    ShapeOfIdentifier(at, a, b);
    ShapeOfIdentifier(at, c, d);
  }

  lemma ExamplesAreSound(x: Example)
    requires IsExample(x)
    ensures Sound(SettingOf(x))
  {
    var s := SettingOf(x);
    forall a, b | SameUid(s.codec, a, b) ensures SamePosition(a, b) {
      IdentifiersDiffer(x.at, a.ledgerIndex, a.transactionIndex, b.ledgerIndex, b.transactionIndex);
    }
    forall n: nat, k: nat, m: nat, j: nat | SameHash(s, n, k, m, j) ensures n == m && k == j {
      assert TransactionAt(s, n, k).hash[0] == TransactionAt(s, m, j).hash[0];
    }
    forall n: nat ensures FitsChain(s, n) {
      assert Lower(Numbered(1)) == Numbered(1);
    }
  }

  // ---- The schema -------------------------------------------------------------------------------

  lemma DefinitionIsValid()
    ensures SchemaOf(SchemaJson(Definition)) == Some(Definition)
  {
    var f := Definition.fields[0];
    assert Definition.fields[..0] == [];
    assert CountFields(Definition.fields) == 1 && FieldsNesting(Definition.fields) == 1;
    assert Utf8Length("n") == 1 && Utf8Length("d") == 1;
    assert IsFieldName(f.name) && ValidFields(Definition.fields);
    SchemaReadBack(Definition);
  }

  lemma OneField()
    ensures [] + Definition.fields == Definition.fields
    ensures DistinctNames(Definition.fields) && CountFields(Definition.fields) <= MAX_SCHEMA_FIELDS
  {
    assert Definition.fields[..0] == [];
  }

  predicate Registers(x: Example)
    requires IsExample(x)
  {
    x.acts[x.at - 1].account == Str("p")
  }

  /** What the registration is read as: a schema, or a refusal of a payment from nobody. */
  function RegistrationOf(x: Example): SchemaRegistration
    requires IsExample(x)
  {
    if Registers(x)
    then Accepted(Numbered(x.at), 0, "p", Digits('a'), SchemaJson(Definition), Definition,
                  ResolvedSchema(Definition, Definition.fields, []))
    else Rejected(Numbered(x.at), 0, "", "REGISTRATION_ACCOUNT_INVALID", None)
  }

  lemma RegistrationIsRead(x: Example)
    requires IsExample(x)
    ensures Interpret(TransactionOf(x.at, x.acts[x.at - 1]), LedgerOf(x, x.at), ExampleProfile, map[], CodecOf(x.at))
            == Some(RegistrationOf(x))
  {
    hide SchemaOf, SchemaJson, CountFields;
    DefinitionIsValid();
    var tx := TransactionOf(x.at, x.acts[x.at - 1]);
    assert tx.memos[1..] == [];
    assert XcsMemos(tx.memos) == [tx.memos[0]];
    if Registers(x) {
      assert ExtractEnvelope(tx, ExampleProfile) == Candidate("p", "j");
      var at := Coordinates(1, "p", x.at, 0);
      assert Resolve(Definition, at, map[], {}) == Ok(ResolvedSchema(Definition, Definition.fields, [])) by {
        OneField();
      }
    } else {
      assert ExtractEnvelope(tx, ExampleProfile) == Refused("", "REGISTRATION_ACCOUNT_INVALID");
    }
  }

  /** Transactions without memos register nothing. */
  lemma NoRegistration(tx: Transaction, ledger: Ledger, catalog: IndexCatalog, codec: Codec)
    requires tx.memos == []
    ensures Interpret(tx, ledger, ExampleProfile, catalog, codec) == None
    ensures CatalogAfter(tx, ledger, ExampleProfile, catalog, codec) == catalog
  {
  }

  /** The schemas known before ledger n, counted from zero. */
  predicate Knows(x: Example, n: nat)
    requires IsExample(x)
  {
    x.at <= n && Registers(x)
  }

  function CatalogOfExample(x: Example, n: nat): IndexCatalog
    requires IsExample(x)
  {
    if Knows(x, n) then map[Digits('a') := EntryOf(RegistrationOf(x), 1, x.at)] else map[]
  }

  lemma CatalogStep(x: Example, n: nat)
    requires IsExample(x) && n < |x.acts|
    ensures CatalogAfter(TransactionOf(n + 1, x.acts[n]), LedgerOf(x, n + 1), ExampleProfile, CatalogOfExample(x, n),
                         CodecOf(x.at))
            == CatalogOfExample(x, n + 1)
  {
    hide Interpret;
    if n + 1 == x.at {
      RegistrationIsRead(x);
    } else {
      NoRegistration(TransactionOf(n + 1, x.acts[n]), LedgerOf(x, n + 1), CatalogOfExample(x, n), CodecOf(x.at));
    }
  }

  lemma {:induction false} CatalogsOfExample(x: Example, n: nat)
    requires IsExample(x) && n <= |x.acts|
    ensures CatalogBefore(SettingOf(x), n) == CatalogOfExample(x, n)
    decreases n
  {
    hide CatalogAfter, CatalogOfExample, TransactionOf, MutationsUpTo, MalformedUpTo, Interpret;
    if n == 0 {
      assert CatalogOfExample(x, 0) == map[] by { NothingKnown(x); }
    } else {
      CatalogsOfExample(x, n - 1);
      CatalogStep(x, n - 1);
      var s := SettingOf(x);
      assert ProjectUpTo(LedgerOf(x, n), s.profile, CatalogOfExample(x, n - 1), s.codec, 0)
             == ProjectLedger.Start(CatalogOfExample(x, n - 1));
    }
  }

  lemma NothingKnown(x: Example)
    requires IsExample(x)
    ensures CatalogOfExample(x, 0) == map[]
  {
  }

  // ---- The objects -------------------------------------------------------------------------------

  /** The act of ledger n, counted from zero, is read as an event. */
  predicate Reads(x: Example, n: nat)
    requires IsExample(x) && n < |x.acts| && !x.acts[n].Register?
  {
    Knows(x, n + 1) && !x.acts[n].RevokeOlder? && EventOf(NodeOf(x.acts[n])).Some?
  }

  lemma NodeIsRead(act: Act)
    requires !act.Register?
    ensures |NodesOf(act)| == 1 && ContainsCredential(NodesOf(act)[0])
    ensures NormalizeNode(NodesOf(act)[0]) == Some(NodeOf(act))
  {
    assert Lower(Digits('b')) == Digits('b') && Lower(Digits('c')) == Digits('c');
    assert IsAnyCaseHash(Digits('b')) && IsAnyCaseHash(Digits('c'));
  }

  /** A Credential of the schema emits exactly once the schema is known, the older one never. */
  lemma NodeEmits(x: Example, n: nat)
    requires IsExample(x) && n < |x.acts| && !x.acts[n].Register?
    ensures var tx := TransactionOf(n + 1, x.acts[n]);
            |tx.nodes| == 1
            && (NodeOutcomeOf(tx, 0, 0, CatalogOfExample(x, n + 1).Keys, CodecOf(x.at)).Emits? <==> Reads(x, n))
  {
    hide NormalizeNode, NodesOf, NodeOutcomeOf, NodeOf, Tracked, CatalogOfExample, CodecOf;
    var tx := TransactionOf(n + 1, x.acts[n]);
    NodeIsRead(x.acts[n]);
    NodeIsTracked(x, n);
    OutcomeOfNode(tx, 0, 0, CatalogOfExample(x, n + 1).Keys, CodecOf(x.at));
  }

  lemma NodeIsTracked(x: Example, n: nat)
    requires IsExample(x) && n < |x.acts| && !x.acts[n].Register?
    ensures var node := NodeOf(x.acts[n]);
            && OptionalUint32(node.fields.flags) && OptionalUint32(node.previousFlags)
            && (Tracked(node.fields, CatalogOfExample(x, n + 1).Keys, CodecOf(x.at))
                <==> Knows(x, n + 1) && !x.acts[n].RevokeOlder?)
  {
    hide RegistrationOf;
    assert IsAnyCaseHash(Digits('a')) && Lower(Digits('a')) == Digits('a');
    assert IsAnyCaseHash(Digits('c')) && Lower(Digits('c')) == Digits('c') && Digits('c')[0] != Digits('a')[0];
  }

  /** The objects after ledger n, in terms of those before. */
  lemma NextObjects(x: Example, n: nat)
    requires IsExample(x) && n < |x.acts| && HistoryAdvance(SettingOf(x), n).Some?
    ensures HistoryAdvance(SettingOf(x), n + 1)
            == if x.acts[n].Register? then HistoryAdvance(SettingOf(x), n)
               else ObjectAdvance(HistoryAdvance(SettingOf(x), n).value, NodeOf(x.acts[n]), Numbered(n + 1), Reads(x, n))
  {
    hide NodeOutcomeOf, ObjectAdvance, CatalogOfExample, CatalogAfter, CatalogBefore, ProjectUpTo, NormalizeNode, NodesOf,
         Reads;
    var s := SettingOf(x);
    var o, ledger := HistoryAdvance(s, n).value, LedgerOf(x, n + 1);
    var tx := TransactionOf(n + 1, x.acts[n]);
    CatalogsOfExample(x, n);
    CatalogStep(x, n);
    assert ledger.transactions == [tx] && LedgerAt(s, n) == ledger;
    StartOfLedger(ledger, s.profile, CatalogOfExample(x, n), s.codec);
    var known := CatalogOfExample(x, n + 1).Keys;
    assert NodesAdvance(o, tx, 0, known, s.codec, 0) == Some(o);
    if x.acts[n].Register? {
      assert tx.nodes == [] by { NoNodes(x.acts[n]); }
    } else {
      NodeIsRead(x.acts[n]);
      NodeEmits(x, n);
      assert NodesAdvance(o, tx, 0, known, s.codec, 1) == NodeAdvance(o, tx, 0, 0, known, s.codec);
    }
    assert TransactionAdvance(o, tx, ledger, s.profile, CatalogOfExample(x, n), s.codec)
           == NodesAdvance(o, tx, 0, known, s.codec, |tx.nodes|);
    assert LedgerAdvance(o, ledger, s.profile, CatalogOfExample(x, n), s.codec, 0) == Some(o);
  }

  lemma NoNodes(act: Act)
    requires act.Register?
    ensures NodesOf(act) == []
  {
  }

  lemma StartOfLedger(ledger: Ledger, profile: Profile, catalog: IndexCatalog, codec: Codec)
    ensures ProjectUpTo(ledger, profile, catalog, codec, 0).catalog == catalog
  {
  }

  // ---- Assumptions -------------------------------------------------------------------------------

  lemma NumberedHashes(i: nat)
    requires i < 10
    ensures IsHash(Numbered(i)) && forall j: nat :: j < i ==> Numbered(j)[0] != Numbered(i)[0]
  {
    assert IsLowerHexChar('0' + (i as char));
  }

  lemma ExamplesHaveShape(x: Example)
    requires IsExample(x)
    ensures HasShape(SettingOf(x), |x.acts|) && DistinctLedgers(SettingOf(x), |x.acts|)
    ensures forall uri :: CodecOf(x.at).isPayloadUriHex(uri) ==> IsHexBytes(uri)
  {
    hide IsHash, Numbered;
    var s := SettingOf(x);
    forall m: nat | m < |x.acts| ensures HasLedgerShape(LedgerAt(s, m)) {
      NumberedHashes(0);
      NumberedHashes(m);
      NumberedHashes(m + 1);
      assert Digits('0') == Numbered(0) by { Zero(); }
    }
    forall i: nat, j: nat | i < j < |x.acts| ensures LedgerAt(s, i).hash != LedgerAt(s, j).hash {
      NumberedHashes(j + 1);
    }
  }

  lemma Zero()
    ensures Digits('0') == Numbered(0)
  {
  }

  /** Only one transaction registers anything, under a hash. */
  lemma ExampleUids(x: Example)
    requires IsExample(x)
    ensures UidsAreHashes(SettingOf(x), |x.acts|)
  {
    hide Interpret, CatalogBefore;
    var s := SettingOf(x);
    forall m: nat, k: nat | m < |x.acts| && IsTransaction(s, m, k) ensures UidIsHash(s, m, k) {
      RegistrationInExample(x, m);
    }
  }

  lemma RegistrationInExample(x: Example, m: nat)
    requires IsExample(x) && m < |x.acts|
    ensures IsTransaction(SettingOf(x), m, 0) && |LedgerAt(SettingOf(x), m).transactions| == 1
    ensures RegistrationAt(SettingOf(x), m, 0) == if m + 1 == x.at then Some(RegistrationOf(x)) else None
  {
    hide Interpret, CatalogBefore;
    var s := SettingOf(x);
    CatalogsOfExample(x, m);
    assert CatalogAt(s, m, 0) == CatalogBefore(s, m);
    if m + 1 == x.at {
      RegistrationIsRead(x);
    } else {
      NoRegistration(TransactionAt(s, m, 0), LedgerAt(s, m), CatalogBefore(s, m), s.codec);
    }
  }

  lemma ExamplesArePlausible(x: Example)
    requires IsExample(x) && HistoryAdvance(SettingOf(x), |x.acts|).Some?
    ensures Plausible(SettingOf(x), |x.acts|)
  {
    hide HistoryAdvance, Sound, HasShape, DistinctLedgers, UidsAreHashes, IsHexBytes;
    ExampleUids(x);
    ExamplesAreSound(x);
    ExamplesHaveShape(x);
  }

  // ---- The examples ------------------------------------------------------------------------------

  const Plain := Example([Register(Str("p")), Issue, Accept, Revoke(true)], 1, map[])
  const Older := Example([Register(Str("p")), RevokeOlder, Issue], 1, map[OlderId := OlderFields])
  const Late := Example([Issue, Register(Str("p")), Revoke(false)], 2, map[])
  const Quiet := Example([Register(Str("p")), Issue, Accept, Touch], 1, map[])
  const Nameless := Example([Register(Absent)], 1, map[])

  /** A Credential that is followed from its creation on and accepted. */
  const AcceptedObject := LiveObject(FieldsOf(true), Numbered(2), true, 0)

  lemma IssuedAndAccepted(x: Example)
    requires IsExample(x) && x.existing == map[] && |x.acts| == 4 && x.acts[..3] == [Register(Str("p")), Issue, Accept] && x.at == 1
    ensures HistoryAdvance(SettingOf(x), 3) == Some(Objects(map[ObjectId := AcceptedObject], map[], false))
  {
    hide HistoryAdvance, Numbered;
    var s := SettingOf(x);
    assert x.acts[0] == Register(Str("p")) && x.acts[1] == Issue && x.acts[2] == Accept;
    assert HistoryAdvance(s, 0) == Some(Objects(map[], map[], false)) by { NoObjectsYet(s); }
    NextObjects(x, 0);
    NextObjects(x, 1);
    NextObjects(x, 2);
    assert HistoryAdvance(s, 3).value.live == map[ObjectId := AcceptedObject];
  }

  /** The assumptions on well-formed histories are met by a Credential issued, accepted and revoked. */
  lemma PlainIsWellFormed()
    ensures WellFormed(SettingOf(Plain), 4)
    ensures HistoryAdvance(SettingOf(Plain), 4).value.ended == map[Numbered(2) := AcceptedObject]
  {
    hide HistoryAdvance, Numbered, Plausible;
    IssuedAndAccepted(Plain);
    NextObjects(Plain, 3);
    ExamplesArePlausible(Plain);
  }

  lemma NoObjectsYet(s: Setting)
    requires s.existing == map[]
    ensures HistoryAdvance(s, 0) == Some(Objects(map[], map[], false))
  {
    assert OlderObjects(s.existing).live == map[];
  }

  /** A Credential older than activation, of a type that is no schema, comes and goes without the indexer minding. */
  lemma OlderIsWellFormed()
    ensures OlderId in Older.existing && Older.acts[1] == RevokeOlder
    ensures WellFormed(SettingOf(Older), 3)
    ensures HistoryAdvance(SettingOf(Older), 3).value.live
            == map[ObjectId := LiveObject(FieldsOf(false), Numbered(3), true, 0)]
  {
    hide HistoryAdvance, Numbered, Plausible;
    var s := SettingOf(Older);
    var first := Objects(map[OlderId := OlderObject(OlderFields)], map[], false);
    assert HistoryAdvance(s, 0) == Some(first) by { OneOlderObject(s); }
    NextObjects(Older, 0);
    NextObjects(Older, 1);
    assert HistoryAdvance(s, 2).value.live == map[];
    NextObjects(Older, 2);
    ExamplesArePlausible(Older);
  }

  lemma OneOlderObject(s: Setting)
    requires s.existing == map[OlderId := OlderFields]
    ensures HistoryAdvance(s, 0) == Some(Objects(map[OlderId := OlderObject(OlderFields)], map[], false))
  {
    assert OlderObjects(s.existing).live == map[OlderId := OlderObject(OlderFields)];
  }

  /** A Credential issued before its schema is registered stops the projection when it is revoked. */
  lemma LateSchemaStops()
    ensures Plausible(SettingOf(Late), 3)
    ensures ReplayOf(SettingOf(Late), 3) == Err(NoLiveGeneration)
  {
    hide HistoryAdvance, Numbered, Plausible, ReplayOf;
    var s, o := SettingOf(Late), LiveObject(FieldsOf(false), Numbered(1), false, 0);
    assert HistoryAdvance(s, 0) == Some(Objects(map[], map[], false)) by { NoObjectsYet(s); }
    NextObjects(Late, 0);
    assert HistoryAdvance(s, 1).value.live == map[ObjectId := o];
    NextObjects(Late, 1);
    NextObjects(Late, 2);
    ExamplesArePlausible(Late);
    StuckExactly(s, 3);
  }

  lemma QuietObjects()
    ensures HistoryAdvance(SettingOf(Quiet), 4) == Some(Objects(map[ObjectId := AcceptedObject.(quiet := 1)], map[], false))
  {
    hide HistoryAdvance, Numbered;
    IssuedAndAccepted(Quiet);
    NextObjects(Quiet, 3);
    assert HistoryAdvance(SettingOf(Quiet), 4).value.live == map[ObjectId := AcceptedObject.(quiet := 1)];
  }

  /** A modification that does not report its flags: the stored timeline of the Credential is refused ever after. */
  lemma QuietModificationIsRefused() returns (i: nat)
    ensures Plausible(SettingOf(Quiet), 4) && ReplayOf(SettingOf(Quiet), 4).Ok?
    ensures var t := ReplayOf(SettingOf(Quiet), 4).value.tables;
            && i < |t.generations| && t.generations[i].objectId == ObjectId
            && forall rows :: IsQueryResult(rows, EventsOf(t.events, t.generations[i].generationId), TIMELINE_LIMIT + 1) ==>
                 !IsTimeline(rows, t.generations[i], 1, SettingOf(Quiet).codec.isAddress)
  {
    hide HistoryAdvance, Numbered, Plausible, ReplayOf, EventsOf, IsQueryResult, IsTimeline, LiveIndex,
         IsGenerationEvidence, Mirrors, IsFollowed, Placed, AllCounted, Told, OneLivePerObject, OfType;
    var s := SettingOf(Quiet);
    QuietObjects();
    ExamplesArePlausible(Quiet);
    StuckExactly(s, 4);
    var t := ReplayOf(s, 4).value.tables;
    i := LiveIndex(t.generations, ObjectId).value;
    forall rows | IsQueryResult(rows, EventsOf(t.events, t.generations[i].generationId), TIMELINE_LIMIT + 1)
      ensures !IsTimeline(rows, t.generations[i], 1, s.codec.isAddress)
    {
      ReaderAcceptsExactly(s, 4, i, rows);
    }
  }

  /** A registration payment without an account: its refusal is stored, and no reader accepts the stored row. */
  lemma NamelessRefusalIsRefused()
    ensures Plausible(SettingOf(Nameless), 1) && ReplayOf(SettingOf(Nameless), 1).Ok?
    ensures var t := ReplayOf(SettingOf(Nameless), 1).value.tables;
            && Numbered(1) in t.schemaEvents && t.schemaEvents[Numbered(1)].publisher == ""
            && !IsRegistrationEvidence(t.schemaEvents[Numbered(1)], ExampleProfile, Numbered(1), CodecOf(1))
  {
    hide HistoryAdvance, Numbered, Plausible, ReplayOf, IsHash, Exact, RegistrationAt, Inv, Sound, IsHistory, SchemaOf,
         IsReasonCode;
    var s := SettingOf(Nameless);
    assert HistoryAdvance(s, 0) == Some(Objects(map[], map[], false)) by { NoObjectsYet(s); }
    NextObjects(Nameless, 0);
    ExamplesArePlausible(Nameless);
    StuckExactly(s, 1);
    PlausibleIsSound(s, 1);
    SchemaRowsAreExact(s, 1);
    NamelessRow(ReplayOf(s, 1).value.tables);
  }

  lemma NamelessRow(t: Tables)
    requires Exact(SettingOf(Nameless), 1, 0, t)
    ensures Numbered(1) in t.schemaEvents && t.schemaEvents[Numbered(1)].publisher == ""
  {
    hide Numbered, RegistrationAt, CatalogAt;
    var s := SettingOf(Nameless);
    RegistrationInExample(Nameless, 0);
    assert Earlier(0, 0, 1, 0);
    assert IsStored(s, 0, 0, t);
    assert IsEventOf(s, 1, 0, Numbered(1), t.schemaEvents[Numbered(1)]);
  }
}
