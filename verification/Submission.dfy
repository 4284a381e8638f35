/**
 Signing, journaling, submitting and reconciling one transaction, as the SDK and the wallet do it: a program whose
 every await is a point where other tabs may act and where the tab itself may die.
 */
module Submission {
  import opened Base
  import opened BusinessContext
  import opened Journal
  import opened JournalExclusion

  datatype FieldValue = Number(n: int) | Text(s: string) | OtherValue(json: string)

  type Fields = map<string, FieldValue>

  /** The XRPL binary codec; hashes come out in uppercase hexadecimal. */
  datatype Wire = Wire(
    decode: string -> Option<Fields>,
    encode: Fields -> string,
    hash: string -> string,
    verifies: string -> bool)

  const LAST_LEDGER := "LastLedgerSequence"

  function WithoutSignature(fields: Fields): Fields {
    fields - {"Signers", "SigningPubKey", "TxnSignature"}
  }

  function PositiveInteger(fields: Fields, name: string): Option<int> {
    if name in fields && fields[name].Number? && fields[name].n > 0 then Some(fields[name].n) else None
  }

  predicate IsNonEmptyText(fields: Fields, name: string) {
    name in fields && fields[name].Text? && fields[name].s != ""
  }

  predicate IsHexBlob(s: string) {
    |s| > 0 && |s| % 2 == 0 && forall i :: 0 <= i < |s| ==> IsHexChar(s[i])
  }

  predicate IsSinglySigned(fields: Fields, blob: string, wire: Wire) {
    && "Signers" !in fields
    && IsNonEmptyText(fields, "SigningPubKey") && IsNonEmptyText(fields, "TxnSignature")
    && wire.verifies(blob)
  }

  /** The signed fields without the signature, or None when the signer changed more than it may. */
  function SignedFields(prepared: Fields, blob: string, allowRefresh: bool, wire: Wire): Option<Fields> {
    var decoded := wire.decode(blob);
    if decoded.None? || !IsSinglySigned(decoded.value, blob, wire) then None
    else
      var reviewed, signed := WithoutSignature(prepared), WithoutSignature(decoded.value);
      if allowRefresh && PositiveInteger(signed, LAST_LEDGER).None? then None
      else
        var a := if allowRefresh then reviewed - {LAST_LEDGER} else reviewed;
        var b := if allowRefresh then signed - {LAST_LEDGER} else signed;
        if wire.encode(a) != wire.encode(b) then None else Some(signed)
  }

  /** Longer URIs, in hexadecimal characters, cannot be signed by the library's current version. */
  const MAX_URI_LENGTH := 256

  predicate HasFittingUri(transaction: Fields) {
    HasText(transaction, "TransactionType", "CredentialCreate") ==>
      ("URI" in transaction && transaction["URI"].Text? ==> |transaction["URI"].s| <= MAX_URI_LENGTH)
  }

  predicate IsPrepared(transaction: Fields) {
    && HasFittingUri(transaction)
    && PositiveInteger(transaction, LAST_LEDGER).Some?
    && "Sequence" in transaction && transaction["Sequence"].Number? && transaction["Sequence"].n >= 0
    && "Fee" in transaction
  }

  /** LastLedgerSequence of a signed blob. */
  function LastLedgerOf(blob: string, wire: Wire): Option<int> {
    if wire.decode(blob).None? then None else PositiveInteger(wire.decode(blob).value, LAST_LEDGER)
  }

  predicate IsSubmittable(blob: string, wire: Wire) {
    && IsHexBlob(blob) && wire.decode(blob).Some? && IsSinglySigned(wire.decode(blob).value, blob, wire)
    && LastLedgerOf(blob, wire).Some?
  }

  predicate HasText(fields: Fields, name: string, value: string) {
    name in fields && fields[name] == Text(value)
  }

  predicate NetworkFits(fields: Fields, networkId: int) {
    "NetworkID" in fields ==> fields["NetworkID"] == Number(networkId)
  }

  /** What a stored operation must still show before its blob may be used again. */
  predicate IsRecoveryMaterial(op: Operation, wire: Wire) {
    && op.txBlob.Some? && op.txHash.Some? && op.lastLedgerSequence.Some?
    && var blob := op.txBlob.value;
    && wire.decode(blob).Some? && IsSinglySigned(wire.decode(blob).value, blob, wire)
    && wire.hash(blob) == op.txHash.value
    && op.lastLedgerSequence.value > 0 && LastLedgerOf(blob, wire) == op.lastLedgerSequence
    && HasText(wire.decode(blob).value, "Account", op.seed.account)
    && HasText(wire.decode(blob).value, "TransactionType", op.seed.transactionType)
    && NetworkFits(wire.decode(blob).value, op.seed.networkId)
  }

  // ---- One run ------------------------------------------------------------------------------------

  /** The transaction the user reviewed, and whether the wallet may refresh its last ledger. */
  datatype Review = Review(transaction: Fields, allowRefresh: bool)

  datatype Origin = Owner(seed: Seed, review: Review) | Recovery(operationId: string)

  datatype StatusKind = IsValidated | IsPending | IsExpired | IsNotFound

  datatype Status = Status(kind: StatusKind, ledgerIndex: Option<int>, result: Option<string>)

  /** Where a run is waiting. From ToSign on both kinds of run share the same path. */
  datatype Pc =
    | Start
    | Opened
    | Signing
    | Signature(blob: string)
    | GivingUp(lastLedger: Option<int>)
    | Known(blob: string)
    | Settling(blob: string, status: Status)
    | Guarding(blob: string, checks: nat)
    | ToSign(blob: string)
    | BeforeSubmit(blob: string)
    | Holding(blob: string)
    | Ready(blob: string)
    | Acknowledged(blob: string, engineResult: Option<string>)
    | Refused(blob: string, engineResult: Option<string>)
    | Unacknowledged(blob: string)
    | Waiting(blob: string)
    | Reported(blob: string, status: Status)
    | Done

  datatype Run = Run(origin: Origin, pc: Pc)

  /** What the outside answers to the step a run waits for. */
  datatype Input =
    | Proceeds
    | Breaks
    | Signs(hash: string, blob: string)
    | Acknowledges(engineResult: Option<string>)
    | Reports(status: Status)

  function IdOf(run: Run): string {
    match run.origin
    case Owner(seed, _) => seed.operationId
    case Recovery(id) => id
  }

  /** The signed blob a run works with once it is journaled. */
  function BlobOf(pc: Pc): Option<string> {
    match pc
    case Known(blob) => Some(blob)
    case Settling(blob, _) => Some(blob)
    case Guarding(blob, _) => Some(blob)
    case ToSign(blob) => Some(blob)
    case BeforeSubmit(blob) => Some(blob)
    case Holding(blob) => Some(blob)
    case Ready(blob) => Some(blob)
    case Acknowledged(blob, _) => Some(blob)
    case Refused(blob, _) => Some(blob)
    case Unacknowledged(blob) => Some(blob)
    case Waiting(blob) => Some(blob)
    case Reported(blob, _) => Some(blob)
    case _ => None
  }

  /** One step: a journal transaction if there is one, where the run goes on success and on failure, and a submission. */
  datatype Plan = Plan(change: Option<Change>, done: Pc, failed: Pc, sends: Option<string>)

  function Quietly(pc: Pc): Plan {
    Plan(None, pc, pc, None)
  }

  function Entry(id: string, at: string, stage: Stage, blob: string, wire: Wire,
                 engineResult: Option<string>, ledgerIndex: Option<int>, message: Option<string>): JournalEntry {
    JournalEntry(id, at, stage, Some(wire.hash(blob)), LastLedgerOf(blob, wire), engineResult, ledgerIndex, message)
  }

  function StageOf(status: Status): Stage {
    match status.kind
    case IsValidated => Validated
    case IsExpired => Expired
    case IsPending => Pending
    case IsNotFound => Pending
  }

  predicate IsTem(engineResult: Option<string>) {
    engineResult.Some? && "tem" <= engineResult.value
  }

  predicate OwnsLock(store: Store, id: string, rules: Rules) {
    id in store && HoldsLock(store[id], rules) && !HasRival(store, id, KeyOf(store[id], rules), rules)
  }

  function AppendPlan(e: JournalEntry, done: Pc, failed: Pc): Plan {
    Plan(Some(Append(e)), done, failed, None)
  }

  function OwnerPlan(seed: Seed, review: Review, pc: Pc, input: Input, at: string, wire: Wire): Plan {
    var id, reviewed := seed.operationId, PositiveInteger(review.transaction, LAST_LEDGER);
    match pc
    case Start => Plan(Some(Create(seed)), Opened, Done, None)
    case Opened =>
      if !IsPrepared(review.transaction) then Quietly(Done)
      else AppendPlan(JournalEntry(id, at, Prepared, None, reviewed, None, None, None), Signing, Done)
    case Signing =>
      if !input.Signs? || !IsAnyCaseHash(input.hash) || !IsHexBlob(input.blob)
         || Lower(wire.hash(input.blob)) != Lower(input.hash)
         || SignedFields(review.transaction, input.blob, review.allowRefresh, wire).None?
      then Quietly(GivingUp(reviewed))
      else Quietly(Signature(input.blob))
    case Signature(blob) =>
      var last := LastLedgerOf(blob, wire);
      if last.None? then Quietly(GivingUp(reviewed))
      else Plan(Some(PersistSigned(SignedRecord(id, blob, wire.hash(blob), last.value, at))), ToSign(blob), GivingUp(last), None)
    case GivingUp(last) => AppendPlan(JournalEntry(id, at, Failed, None, last, None, None, Some("signing")), Done, Done)
    case _ => Quietly(Done)
  }

  function RecoveryPlan(id: string, pc: Pc, input: Input, store: Store, at: string, wire: Wire, rules: Rules): Plan {
    match pc
    case Start =>
      if id !in store || !CanRetry(store[id], rules) || !HasHash(store[id]) || !IsRecoveryMaterial(store[id], wire)
      then Quietly(Done) else Quietly(Known(store[id].txBlob.value))
    case Known(blob) =>
      if !input.Reports? then Quietly(Done)
      else if input.status.kind.IsValidated? || input.status.kind.IsExpired? then Quietly(Settling(blob, input.status))
      else Quietly(Guarding(blob, 2))
    case Settling(blob, status) =>
      AppendPlan(Entry(id, at, StageOf(status), blob, wire, status.result, status.ledgerIndex, None), Done, Done)
    case Guarding(blob, checks) =>
      if input.Breaks? || !OwnsLock(store, id, rules) then Quietly(Done)
      else if checks > 1 then Quietly(Guarding(blob, checks - 1)) else Quietly(ToSign(blob))
    case _ => Quietly(Done)
  }

  /** submitSignedTransaction; only an owner passes guards between journaling and submitting. */
  function SubmitPlan(run: Run, input: Input, at: string, wire: Wire): Plan {
    var id := IdOf(run);
    match run.pc
    case ToSign(blob) =>
      if !IsSubmittable(blob, wire) then Quietly(Done)
      else
        AppendPlan(Entry(id, at, Signed, blob, wire, None, None, None),
                   if run.origin.Owner? then BeforeSubmit(blob) else Ready(blob), Done)
    case BeforeSubmit(blob) => Quietly(if input.Breaks? then Holding(blob) else Ready(blob))
    case Holding(blob) => AppendPlan(Entry(id, at, Signed, blob, wire, None, None, Some("held")), Done, Done)
    case Ready(blob) =>
      Plan(None, if input.Acknowledges? then Acknowledged(blob, input.engineResult) else Unacknowledged(blob),
           Unacknowledged(blob), Some(blob))
    case Acknowledged(blob, r) =>
      AppendPlan(Entry(id, at, Submitted, blob, wire, r, None, None),
                 if IsTem(r) then Refused(blob, r) else Waiting(blob), Unacknowledged(blob))
    case Refused(blob, r) =>
      AppendPlan(Entry(id, at, Failed, blob, wire, r, None, Some("malformed")), Done, Unacknowledged(blob))
    case Unacknowledged(blob) =>
      AppendPlan(Entry(id, at, Pending, blob, wire, None, None, Some("unacknowledged")), Waiting(blob), Done)
    case Waiting(blob) => Quietly(if input.Reports? then Reported(blob, input.status) else Done)
    case Reported(blob, status) =>
      AppendPlan(Entry(id, at, StageOf(status), blob, wire, status.result, status.ledgerIndex, None), Done, Done)
    case _ => Quietly(Done)
  }

  predicate IsShared(pc: Pc) {
    BlobOf(pc).Some? && !pc.Known? && !pc.Settling? && !pc.Guarding?
  }

  function PlanOf(run: Run, input: Input, store: Store, at: string, wire: Wire, rules: Rules): Plan {
    if IsShared(run.pc) then SubmitPlan(run, input, at, wire)
    else
      match run.origin
      case Owner(seed, review) => OwnerPlan(seed, review, run.pc, input, at, wire)
      case Recovery(id) => RecoveryPlan(id, run.pc, input, store, at, wire, rules)
  }

  // ---- All tabs together ----------------------------------------------------------------------------

  datatype Sent = Sent(operationId: string, blob: string)

  /** The shared store, every run of every tab, what was submitted, and the reviewed transaction of each issued identifier. */
  datatype World = World(store: Store, runs: seq<Run>, sent: seq<Sent>, reviews: map<string, Review>)

  const Nothing := World(map[], [], [], map[])

  datatype Action =
    | BeginOwner(seed: Seed, review: Review)
    | BeginRecovery(operationId: string)
    | Advance(i: nat, input: Input, at: string)
    | Crash(crashed: nat)
    | Confirm(id: string, confirmation: Confirmation, confirmedAt: string, evidence: Option<Evidence>)
    | Abandons(abandoned: string)

  /** The transaction is the account's own, and of the type it is journaled for. */
  predicate FitsSeed(seed: Seed, transaction: Fields) {
    HasText(transaction, "Account", seed.account) && HasText(transaction, "TransactionType", seed.transactionType)
  }

  /** A journal transaction that the browser aborts leaves the store as it was. */
  function Outcome(store: Store, plan: Plan, input: Input, rules: Rules): Option<Store> {
    if plan.change.None? then Some(store)
    else if input.Breaks? then None
    else
      var r := Attempt(store, plan.change.value, rules);
      if r.Ok? then Some(r.value) else None
  }

  function Advanced(w: World, i: nat, input: Input, at: string, wire: Wire, rules: Rules): World
    requires i < |w.runs|
  {
    var run := w.runs[i];
    var plan := PlanOf(run, input, w.store, at, wire, rules);
    var outcome := Outcome(w.store, plan, input, rules);
    w.(store := if outcome.Some? then outcome.value else w.store,
       runs := w.runs[i := Run(run.origin, if outcome.Some? then plan.done else plan.failed)],
       sent := if plan.sends.Some? then w.sent + [Sent(IdOf(run), plan.sends.value)] else w.sent)
  }

  /** One action; identifiers of new operations are drawn at random and never drawn twice. */
  function Act(w: World, a: Action, wire: Wire, rules: Rules): World {
    match a
    case BeginOwner(seed, review) =>
      if seed.operationId in w.reviews || !FitsSeed(seed, review.transaction) then w
      else w.(runs := w.runs + [Run(Owner(seed, review), Start)], reviews := w.reviews[seed.operationId := review])
    case BeginRecovery(id) => w.(runs := w.runs + [Run(Recovery(id), Start)])
    case Advance(i, input, at) => if i >= |w.runs| then w else Advanced(w, i, input, at, wire, rules)
    case Crash(i) => if i >= |w.runs| then w else w.(runs := w.runs[i := Run(w.runs[i].origin, Done)])
    case Confirm(id, confirmation, at, evidence) =>
      w.(store := Apply(w.store, SetConfirmation(id, confirmation, at, evidence), rules))
    case Abandons(id) => w.(store := Apply(w.store, Abandon(id), rules))
  }

  function After(actions: seq<Action>, wire: Wire, rules: Rules): World {
    if actions == [] then Nothing
    else Act(After(actions[..|actions| - 1], wire, rules), actions[|actions| - 1], wire, rules)
  }
}
