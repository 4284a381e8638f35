/** One run of the submission protocol: an acceptance that was journaled without saying which generation it is for. */
module ExampleSubmission {
  import opened Base
  import opened BusinessContext
  import opened Journal
  import opened Submission

  const Transaction: Fields := map[
    "Account" := Text("a"), "TransactionType" := Text("CredentialAccept"), "Sequence" := Number(1), "Fee" := Text("10"),
    LAST_LEDGER := Number(9)]

  const SignedTransaction: Fields := Transaction["SigningPubKey" := Text("k")]["TxnSignature" := Text("s")]

  const Blob := "AB"

  function HashOf(blob: string): string {
    seq(64, _ => 'C')
  }

  /** A codec that knows one blob, however it prints fields. */
  function WireOf(encode: Fields -> string): Wire {
    Wire((blob: string) => if blob == Blob then Some(SignedTransaction) else None,
         encode,
         (blob: string) => HashOf(blob),
         (blob: string) => true)
  }

  const ExampleSeed := Seed("o", "a", "p", 1, "CredentialAccept", "t", None)
  const ExampleReview := Review(Transaction, false)

  function InputAt(n: nat): Input {
    if n == 3 then Signs(HashOf(Blob), Blob) else if n == 7 then Acknowledges(None) else Proceeds
  }

  /** Create, prepare, sign, journal the blob, mark it as signed, pass the guard, submit. */
  function ActionsUpTo(n: nat): seq<Action> {
    if n == 0 then []
    else ActionsUpTo(n - 1) + [if n == 1 then BeginOwner(ExampleSeed, ExampleReview) else Advance(0, InputAt(n - 1), "t")]
  }

  function PcAt(n: nat): Pc {
    if n <= 1 then Start
    else if n == 2 then Opened
    else if n == 3 then Signing
    else if n == 4 then Signature(Blob)
    else if n == 5 then ToSign(Blob)
    else if n == 6 then BeforeSubmit(Blob)
    else if n == 7 then Ready(Blob)
    else Acknowledged(Blob, None)
  }

  function OperationAt(n: nat): Operation {
    Operation(ExampleSeed, "t", if n <= 4 then Stage.Prepared else Signed,
              if n <= 4 then None else Some(HashOf(Blob)), if n <= 4 then None else Some(Blob),
              if n <= 2 then None else Some(9), None, None, None, None, None)
  }

  function WorldAt(n: nat): World {
    if n == 0 then Nothing
    else World(if n == 1 then map[] else map["o" := OperationAt(n)], [Run(Owner(ExampleSeed, ExampleReview), PcAt(n))],
               if n <= 7 then [] else [Sent("o", Blob)], map["o" := ExampleReview])
  }

  lemma Unsigned(wire: Wire)
    requires wire.verifies(Blob)
    ensures WithoutSignature(SignedTransaction) == WithoutSignature(Transaction) == Transaction
    ensures IsSinglySigned(SignedTransaction, Blob, wire)
  {
    assert LAST_LEDGER == "LastLedgerSequence";
    var signature := {"Signers", "SigningPubKey", "TxnSignature"};
    assert forall name :: name in Transaction ==> name[0] != 'S' || name == "Sequence";
    assert "Sequence"[1] == 'e' && "Signers"[1] == 'i' && "SigningPubKey"[1] == 'i';
    assert forall name :: name in Transaction ==> name !in signature;
    assert WithoutSignature(Transaction) == Transaction;
    assert WithoutSignature(SignedTransaction) == Transaction;
  }

  lemma Facts(encode: Fields -> string)
    ensures IsPrepared(Transaction) && PositiveInteger(Transaction, LAST_LEDGER) == Some(9)
    ensures LastLedgerOf(Blob, WireOf(encode)) == Some(9)
    ensures FitsSeed(ExampleSeed, Transaction)
    ensures IsHexBlob(Blob) && IsAnyCaseHash(HashOf(Blob))
    ensures SignedFields(Transaction, Blob, false, WireOf(encode)).Some? && IsSubmittable(Blob, WireOf(encode))
  {
    Unsigned(WireOf(encode));
    assert LAST_LEDGER == "LastLedgerSequence";
    assert "Sequence" != LAST_LEDGER && "Fee" != LAST_LEDGER && "Account" != LAST_LEDGER && "TransactionType" != LAST_LEDGER;
  }

  lemma EarlyStep(n: nat, encode: Fields -> string, rules: Rules)
    requires 1 <= n <= 4
    ensures Act(WorldAt(n), Advance(0, InputAt(n), "t"), WireOf(encode), rules) == WorldAt(n + 1)
  {
    hide IsPrepared, LastLedgerOf, SignedFields, IsSubmittable, IsHexBlob, IsAnyCaseHash, HashOf, PositiveInteger,
         SubmitPlan, RecoveryPlan, HoldsLock;
    Facts(encode);
    if n == 1 { assert BusinessKey("p", None) == None; }
    OneRun(PcAt(n), PcAt(n + 1));
  }

  lemma LateStep(n: nat, encode: Fields -> string, rules: Rules)
    requires 5 <= n <= 7
    ensures Act(WorldAt(n), Advance(0, InputAt(n), "t"), WireOf(encode), rules) == WorldAt(n + 1)
  {
    hide IsPrepared, LastLedgerOf, SignedFields, IsSubmittable, IsHexBlob, IsAnyCaseHash, HashOf, PositiveInteger,
         OwnerPlan, RecoveryPlan, HoldsLock;
    Facts(encode);
    OneRun(PcAt(n), PcAt(n + 1));
  }

  lemma OneRun(before: Pc, after: Pc)
    ensures [Run(Owner(ExampleSeed, ExampleReview), before)][0 := Run(Owner(ExampleSeed, ExampleReview), after)]
            == [Run(Owner(ExampleSeed, ExampleReview), after)]
  {
  }

  lemma {:induction false} ExampleWorlds(n: nat, encode: Fields -> string, rules: Rules)
    requires n <= 8
    ensures After(ActionsUpTo(n), WireOf(encode), rules) == WorldAt(n)
    decreases n
  {
    hide Act;
    if n > 0 {
      ExampleWorlds(n - 1, encode, rules);
      var all := ActionsUpTo(n);
      assert all[..|all| - 1] == ActionsUpTo(n - 1);
      if n == 1 { Begins(encode, rules); }
      else if n <= 5 { EarlyStep(n - 1, encode, rules); }
      else { LateStep(n - 1, encode, rules); }
    }
  }

  lemma Begins(encode: Fields -> string, rules: Rules)
    ensures Act(Nothing, BeginOwner(ExampleSeed, ExampleReview), WireOf(encode), rules) == WorldAt(1)
  {
    Facts(encode);
  }

  /** The acceptance has been submitted and is not settled, but nobody can take it up again. */
  lemma ContextlessCannotBeRetried(encode: Fields -> string, rules: Rules)
    ensures var w := After(ActionsUpTo(8), WireOf(encode), rules);
            && w.sent == [Sent("o", Blob)] && "o" in w.store
            && !IsTerminal(w.store["o"].stage) && IsRecoveryMaterial(w.store["o"], WireOf(encode))
            && !CanRetry(w.store["o"], rules)
  {
    hide After, IsSinglySigned, LastLedgerOf, HashOf;
    ExampleWorlds(8, encode, rules);
    Facts(encode);
    Unsigned(WireOf(encode));
    assert LAST_LEDGER == "LastLedgerSequence";
    assert "NetworkID" !in SignedTransaction;
  }
}
