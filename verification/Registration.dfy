/** Reading a transaction as a schema registration. */
module Registration {
  import opened Base
  import opened SchemaLanguage
  import opened SchemaResolution
  import opened LedgerModel

  const PARTIAL_PAYMENT_FLAG := 0x2_0000

  datatype Envelope =
    | NotRegistration
    | Candidate(publisher: string, jsonText: string)
    | Refused(publisher: string, reason: string)

  /** Amount and DeliverMax name the same field; the ones present must all carry the exact amount. */
  predicate HasExactAmount(tx: Transaction, amount: string) {
    && (tx.amount != Absent || tx.deliverMax != Absent)
    && (tx.amount != Absent ==> tx.amount == Str(amount))
    && (tx.deliverMax != Absent ==> tx.deliverMax == Str(amount))
  }

  predicate IsExactPayment(tx: Transaction, profile: Profile) {
    && tx.transactionType == Str("Payment")
    && tx.result == Str("tesSUCCESS")
    && tx.destination == Str(profile.registryAddress)
    && HasExactAmount(tx, profile.registrationAmount)
    && !tx.hasPaths && !tx.hasSendMax && !tx.hasDeliverMin
    && !HasFlag(if tx.flags.Num? then tx.flags.n else 0, PARTIAL_PAYMENT_FLAG)
  }

  function XcsMemos(memos: seq<Memo>): seq<Memo> {
    if memos == [] then []
    else (if memos[0].memoType == Some("xcs:schema_register") then [memos[0]] else []) + XcsMemos(memos[1..])
  }

  function ExtractEnvelope(tx: Transaction, profile: Profile): Envelope {
    var publisher := if tx.account.Str? then tx.account.s else "";
    var memos := XcsMemos(tx.memos);
    if memos == [] || !IsExactPayment(tx, profile) then NotRegistration
    else if publisher == "" then Refused(publisher, "REGISTRATION_ACCOUNT_INVALID")
    else if |memos| != 1 then Refused(publisher, "REGISTRATION_MEMO_COUNT")
    else if memos[0].format != Some("application/json") then Refused(publisher, "REGISTRATION_MEMO_FORMAT")
    else if memos[0].data.None? then Refused(publisher, "REGISTRATION_MEMO_DATA")
    else Candidate(publisher, memos[0].data.value)
  }

  function CodeName(e: ErrorCode): string {
    match e
    case INVALID_SCHEMA => "INVALID_SCHEMA"
    case INVALID_SCHEMA_REFERENCE => "INVALID_SCHEMA_REFERENCE"
  }

  function UidInputOf(profile: Profile, ledgerHash: string, ledgerIndex: nat, transactionIndex: nat,
                      publisher: string, schema: SchemaDefinition): UidInput {
    UidInput(profile.networkId, ledgerHash, ledgerIndex, transactionIndex, publisher, schema)
  }

  function InterpretMemo(
    tx: Transaction, ledger: Ledger, profile: Profile, catalog: IndexCatalog, codec: Codec,
    publisher: string, jsonText: string): SchemaRegistration
  {
    match codec.parseJson(jsonText)
    case Err(code) => Rejected(tx.hash, tx.index, publisher, code, None)
    case Ok(parsed) =>
      if codec.canonicalJson(parsed) != jsonText then
        Rejected(tx.hash, tx.index, publisher, "REGISTRATION_NOT_CANONICAL", Some(parsed))
      else
        match SchemaOf(parsed)
        case None => Rejected(tx.hash, tx.index, publisher, "INVALID_SCHEMA", Some(parsed))
        case Some(definition) =>
          var at := Coordinates(profile.networkId, publisher, ledger.index, tx.index);
          match ResolveSchema(definition, at, SchemasOf(catalog), codec.isAddress)
          case Err(e) => Rejected(tx.hash, tx.index, publisher, CodeName(e), Some(parsed))
          case Ok(resolved) =>
            var uid := codec.schemaUid(UidInputOf(profile, ledger.hash, ledger.index, tx.index, publisher, definition));
            Accepted(tx.hash, tx.index, publisher, uid, parsed, definition, resolved)
  }

  function Interpret(tx: Transaction, ledger: Ledger, profile: Profile, catalog: IndexCatalog, codec: Codec)
    : (r: Option<SchemaRegistration>)
  {
    match ExtractEnvelope(tx, profile)
    case NotRegistration => None
    case Refused(publisher, reason) => Some(Rejected(tx.hash, tx.index, publisher, reason, None))
    case Candidate(publisher, jsonText) =>
      Some(InterpretMemo(tx, ledger, profile, catalog, codec, publisher, jsonText))
  }

  /** What the rest of the indexer may rely on in an accepted registration. */
  lemma AcceptedFacts(tx: Transaction, ledger: Ledger, profile: Profile, catalog: IndexCatalog, codec: Codec)
    requires Interpret(tx, ledger, profile, catalog, codec).Some?
    requires Interpret(tx, ledger, profile, catalog, codec).value.Accepted?
    ensures var r := Interpret(tx, ledger, profile, catalog, codec).value;
            && r.transactionHash == tx.hash && r.transactionIndex == tx.index
            && codec.isAddress(r.publisher)
            && SchemaOf(r.memo) == Some(r.definition)
            && r.resolved.definition == r.definition
            && r.uid == codec.schemaUid(UidInputOf(profile, ledger.hash, ledger.index, tx.index, r.publisher, r.definition))
  {
    hide Resolve, SchemaOf, SchemaJson, ExtractEnvelope;
    var r := Interpret(tx, ledger, profile, catalog, codec).value;
    ParseIsIdempotent(r.memo);
    var at := Coordinates(profile.networkId, r.publisher, ledger.index, tx.index);
    ResolveIsSound(r.definition, at, SchemasOf(catalog), {});
  }

  /** A registration keeps its verdict when the catalog has since grown by registrations that are not earlier. */
  lemma RegistrationIsFinal(
    tx: Transaction, ledger: Ledger, profile: Profile, before: IndexCatalog, after: IndexCatalog, codec: Codec)
    requires forall uid :: uid in before ==> uid in after && after[uid] == before[uid]
    requires forall uid :: uid in after && uid !in before ==>
               var at := after[uid].schema.at;
               at.ledgerIndex > ledger.index || (at.ledgerIndex == ledger.index && at.transactionIndex >= tx.index)
    ensures Interpret(tx, ledger, profile, after, codec) == Interpret(tx, ledger, profile, before, codec)
  {
    hide ResolveSchema, SchemaOf, ExtractEnvelope;
    var envelope := ExtractEnvelope(tx, profile);
    if envelope.Candidate? && codec.parseJson(envelope.jsonText).Ok? {
      var parsed := codec.parseJson(envelope.jsonText).value;
      if SchemaOf(parsed).Some? {
        var at := Coordinates(profile.networkId, envelope.publisher, ledger.index, tx.index);
        VerdictIsFinal(SchemaOf(parsed).value, at, SchemasOf(before), SchemasOf(after), codec.isAddress);
      }
    }
  }

  // ---- What is accepted, in one statement ---------------------------------------------------------

  predicate IsXcsMemo(memo: Memo) {
    memo.memoType == Some("xcs:schema_register")
  }

  lemma {:induction false} OneXcsMemo(memos: seq<Memo>, i: nat)
    requires i < |memos| && IsXcsMemo(memos[i]) && forall j :: 0 <= j < |memos| && IsXcsMemo(memos[j]) ==> j == i
    ensures XcsMemos(memos) == [memos[i]]
    decreases |memos|
  {
    if i > 0 {
      assert !IsXcsMemo(memos[0]);
      OneXcsMemo(memos[1..], i - 1);
    } else {
      forall j | 0 <= j < |memos[1..]| ensures !IsXcsMemo(memos[1..][j]) { assert memos[1..][j] == memos[j + 1]; }
      NoXcsMemo(memos[1..]);
    }
  }

  lemma {:induction false} NoXcsMemo(memos: seq<Memo>)
    requires forall j :: 0 <= j < |memos| ==> !IsXcsMemo(memos[j])
    ensures XcsMemos(memos) == []
    decreases |memos|
  {
    if memos != [] {
      assert !IsXcsMemo(memos[0]);
      forall j | 0 <= j < |memos[1..]| ensures !IsXcsMemo(memos[1..][j]) { assert memos[1..][j] == memos[j + 1]; }
      NoXcsMemo(memos[1..]);
    }
  }

  /** Two registration memos are never one. */
  lemma {:induction false} TwoXcsMemos(memos: seq<Memo>, i: nat, j: nat)
    requires i < j < |memos| && IsXcsMemo(memos[i]) && IsXcsMemo(memos[j])
    ensures |XcsMemos(memos)| > 1
    decreases |memos|
  {
    if i > 0 {
      TwoXcsMemos(memos[1..], i - 1, j - 1);
    } else {
      SomeXcsMemo(memos[1..], j - 1);
    }
  }

  lemma {:induction false} SomeXcsMemo(memos: seq<Memo>, i: nat)
    requires i < |memos| && IsXcsMemo(memos[i])
    ensures XcsMemos(memos) != []
    decreases |memos|
  {
    if i > 0 { SomeXcsMemo(memos[1..], i - 1); }
  }

  /**
   Which transactions are registrations at all: the successful, direct payments of the exact amount to the registry
   that carry a registration memo. Flags count only as a number, and their bit 17 must be clear.
   */
  lemma RegistrationsExactly(tx: Transaction, ledger: Ledger, profile: Profile, catalog: IndexCatalog, codec: Codec)
    ensures Interpret(tx, ledger, profile, catalog, codec).Some? <==>
              && tx.transactionType == Str("Payment") && tx.result == Str("tesSUCCESS")
              && tx.destination == Str(profile.registryAddress)
              && (tx.amount == Str(profile.registrationAmount) || tx.deliverMax == Str(profile.registrationAmount))
              && (tx.amount != Absent ==> tx.amount == Str(profile.registrationAmount))
              && (tx.deliverMax != Absent ==> tx.deliverMax == Str(profile.registrationAmount))
              && !tx.hasPaths && !tx.hasSendMax && !tx.hasDeliverMin
              && (tx.flags.Num? ==> (tx.flags.n / 0x2_0000) % 2 == 0)
              && exists i :: 0 <= i < |tx.memos| && tx.memos[i].memoType == Some("xcs:schema_register")
  {
    hide InterpretMemo;
    if i :| 0 <= i < |tx.memos| && tx.memos[i].memoType == Some("xcs:schema_register") {
      SomeXcsMemo(tx.memos, i);
    } else {
      NoXcsMemo(tx.memos);
    }
  }

  /** More than one registration memo is refused, if only the account has a name. */
  lemma SeveralMemosAreRefused(tx: Transaction, ledger: Ledger, profile: Profile, catalog: IndexCatalog, codec: Codec,
                               i: nat, j: nat)
    requires i < j < |tx.memos|
    requires tx.memos[i].memoType == tx.memos[j].memoType == Some("xcs:schema_register")
    requires Interpret(tx, ledger, profile, catalog, codec).Some?
    ensures Interpret(tx, ledger, profile, catalog, codec) == Some(
              if tx.account.Str? && tx.account.s != ""
              then Rejected(tx.hash, tx.index, tx.account.s, "REGISTRATION_MEMO_COUNT", None)
              else Rejected(tx.hash, tx.index, "", "REGISTRATION_ACCOUNT_INVALID", None))
  {
    hide IsExactPayment, InterpretMemo;
    TwoXcsMemos(tx.memos, i, j);
  }

  /**
   The verdict on a registration with one memo, case by case in the order of the checks: the account, the memo's
   format and data, its JSON, its canonical form, its schema, the place of registration, and the references.
   */
  lemma VerdictExactly(tx: Transaction, ledger: Ledger, profile: Profile, catalog: IndexCatalog, codec: Codec, i: nat)
    requires i < |tx.memos| && tx.memos[i].memoType == Some("xcs:schema_register")
    requires forall j :: 0 <= j < |tx.memos| && tx.memos[j].memoType == Some("xcs:schema_register") ==> j == i
    requires Interpret(tx, ledger, profile, catalog, codec).Some?
    ensures var memo := tx.memos[i];
            Interpret(tx, ledger, profile, catalog, codec) == Some(
              if !tx.account.Str? || tx.account.s == ""
              then Rejected(tx.hash, tx.index, "", "REGISTRATION_ACCOUNT_INVALID", None)
              else if memo.format != Some("application/json")
              then Rejected(tx.hash, tx.index, tx.account.s, "REGISTRATION_MEMO_FORMAT", None)
              else if memo.data.None?
              then Rejected(tx.hash, tx.index, tx.account.s, "REGISTRATION_MEMO_DATA", None)
              else if codec.parseJson(memo.data.value).Err?
              then Rejected(tx.hash, tx.index, tx.account.s, codec.parseJson(memo.data.value).error, None)
              else
                var json := codec.parseJson(memo.data.value).value;
                if codec.canonicalJson(json) != memo.data.value
                then Rejected(tx.hash, tx.index, tx.account.s, "REGISTRATION_NOT_CANONICAL", Some(json))
                else if SchemaOf(json).None?
                then Rejected(tx.hash, tx.index, tx.account.s, "INVALID_SCHEMA", Some(json))
                else if !(0 <= profile.networkId <= 0xFFFF_FFFF && ledger.index <= 0xFFFF_FFFF && tx.index <= 0xFFFF_FFFF
                          && codec.isAddress(tx.account.s))
                then Rejected(tx.hash, tx.index, tx.account.s, "INVALID_SCHEMA_REFERENCE", Some(json))
                else
                  var schema := SchemaOf(json).value;
                  match Resolve(schema, Coordinates(profile.networkId, tx.account.s, ledger.index, tx.index),
                                SchemasOf(catalog), {})
                  case Err(INVALID_SCHEMA) => Rejected(tx.hash, tx.index, tx.account.s, "INVALID_SCHEMA", Some(json))
                  case Err(INVALID_SCHEMA_REFERENCE) =>
                    Rejected(tx.hash, tx.index, tx.account.s, "INVALID_SCHEMA_REFERENCE", Some(json))
                  case Ok(resolved) =>
                    Accepted(tx.hash, tx.index, tx.account.s,
                             codec.schemaUid(UidInput(profile.networkId, ledger.hash, ledger.index, tx.index,
                                                      tx.account.s, schema)),
                             json, schema, resolved))
  {
    hide IsExactPayment, Resolve, SchemaOf, SchemaJson;
    OneXcsMemo(tx.memos, i);
    var memo := tx.memos[i];
    if memo.data.Some? && codec.parseJson(memo.data.value).Ok? && SchemaOf(codec.parseJson(memo.data.value).value).Some? {
      ParseIsIdempotent(codec.parseJson(memo.data.value).value);
    }
  }

  /**
   A transaction registers a schema exactly when it is a successful, direct payment of the exact amount to the
   registry by a named account, and its one registration memo carries canonical JSON of a schema that resolves.
   */
  lemma AcceptedExactly(tx: Transaction, ledger: Ledger, profile: Profile, catalog: IndexCatalog, codec: Codec)
    ensures var r := Interpret(tx, ledger, profile, catalog, codec);
            (r.Some? && r.value.Accepted?)
            <==>
            && tx.transactionType == Str("Payment") && tx.result == Str("tesSUCCESS")
            && tx.destination == Str(profile.registryAddress)
            && (tx.amount == Str(profile.registrationAmount) || tx.deliverMax == Str(profile.registrationAmount))
            && (tx.amount != Absent ==> tx.amount == Str(profile.registrationAmount))
            && (tx.deliverMax != Absent ==> tx.deliverMax == Str(profile.registrationAmount))
            && !tx.hasPaths && !tx.hasSendMax && !tx.hasDeliverMin
            && (tx.flags.Num? ==> (tx.flags.n / 0x2_0000) % 2 == 0)
            && tx.account.Str? && tx.account.s != "" && codec.isAddress(tx.account.s)
            && 0 <= profile.networkId <= 0xFFFF_FFFF && ledger.index <= 0xFFFF_FFFF && tx.index <= 0xFFFF_FFFF
            && exists i :: 0 <= i < |tx.memos|
                 && tx.memos[i].memoType == Some("xcs:schema_register")
                 && (forall j :: 0 <= j < |tx.memos| && tx.memos[j].memoType == Some("xcs:schema_register") ==> j == i)
                 && tx.memos[i].format == Some("application/json") && tx.memos[i].data.Some?
                 && var parsed := codec.parseJson(tx.memos[i].data.value);
                 && parsed.Ok? && codec.canonicalJson(parsed.value) == tx.memos[i].data.value
                 && SchemaOf(parsed.value).Some?
                 && Resolve(SchemaOf(parsed.value).value,
                            Coordinates(profile.networkId, tx.account.s, ledger.index, tx.index),
                            SchemasOf(catalog), {}).Ok?
  {
    hide Interpret, Resolve, SchemaOf, SchemasOf;
    RegistrationsExactly(tx, ledger, profile, catalog, codec);
    if Interpret(tx, ledger, profile, catalog, codec).Some? {
      var i :| 0 <= i < |tx.memos| && tx.memos[i].memoType == Some("xcs:schema_register");
      if j :| 0 <= j < |tx.memos| && j != i && tx.memos[j].memoType == Some("xcs:schema_register") {
        SeveralMemosAreRefused(tx, ledger, profile, catalog, codec, if i < j then i else j, if i < j then j else i);
      } else {
        VerdictExactly(tx, ledger, profile, catalog, codec, i);
      }
    }
  }
}
