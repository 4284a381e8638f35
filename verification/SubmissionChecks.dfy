/** When each step of a submission goes on and what it journals, in the fields of its own input. */
module SubmissionChecks {
  import opened Base
  import opened BusinessContext
  import opened Journal
  import opened JournalExclusion
  import opened JournalChecks
  import opened Submission
  import opened SubmissionSafety

  /** A run signs exactly the transactions whose last ledger, sequence, fee and URI are in order. */
  lemma PreparedExactly(seed: Seed, review: Review, input: Input, store: Store, at: string, wire: Wire, rules: Rules)
    ensures var t := review.transaction;
            var plan := PlanOf(Run(Owner(seed, review), Opened), input, store, at, wire, rules);
            if && "LastLedgerSequence" in t && t["LastLedgerSequence"].Number? && t["LastLedgerSequence"].n > 0
               && "Sequence" in t && t["Sequence"].Number? && t["Sequence"].n >= 0 && "Fee" in t
               && !("TransactionType" in t && t["TransactionType"] == Text("CredentialCreate")
                    && "URI" in t && t["URI"].Text? && |t["URI"].s| > 256)
            then plan == Plan(Some(Append(JournalEntry(seed.operationId, at, Prepared, None, Some(t["LastLedgerSequence"].n),
                                                       None, None, None))), Signing, Done, None)
            else plan == Plan(None, Done, Done, None)
  {
    assert LAST_LEDGER == "LastLedgerSequence";
  }

  /** The wallet's answer is used exactly when its hash is the blob's and the blob signs the reviewed transaction. */
  lemma SigningExactly(seed: Seed, review: Review, hash: string, blob: string, store: Store, at: string, wire: Wire,
                       rules: Rules)
    requires PrintsFaithfully(wire)
    ensures var plan := PlanOf(Run(Owner(seed, review), Signing), Signs(hash, blob), store, at, wire, rules);
            && plan.change.None? && plan.sends.None?
            && (plan.done == Signature(blob) || plan.done.GivingUp?)
            && (plan.done == Signature(blob) <==>
                  && |hash| == 64 && (forall i :: 0 <= i < |hash| ==> hash[i] in "0123456789abcdefABCDEF")
                  && |blob| > 0 && |blob| % 2 == 0 && (forall i :: 0 <= i < |blob| ==> blob[i] in "0123456789abcdefABCDEF")
                  && Lower(wire.hash(blob)) == Lower(hash)
                  && wire.decode(blob).Some? && wire.verifies(blob)
                  && var signed, reviewed := wire.decode(blob).value, review.transaction;
                  && "Signers" !in signed
                  && "SigningPubKey" in signed && signed["SigningPubKey"].Text? && signed["SigningPubKey"].s != ""
                  && "TxnSignature" in signed && signed["TxnSignature"].Text? && signed["TxnSignature"].s != ""
                  && (forall name :: name !in {"Signers", "SigningPubKey", "TxnSignature", "LastLedgerSequence"} ==>
                        (name in signed <==> name in reviewed) && (name in signed ==> signed[name] == reviewed[name]))
                  && (review.allowRefresh ==>
                        && "LastLedgerSequence" in signed && signed["LastLedgerSequence"].Number?
                        && signed["LastLedgerSequence"].n > 0)
                  && (!review.allowRefresh ==>
                        && ("LastLedgerSequence" in signed <==> "LastLedgerSequence" in reviewed)
                        && ("LastLedgerSequence" in signed ==>
                              signed["LastLedgerSequence"] == reviewed["LastLedgerSequence"])))
  {
    hide SignedFields, Lower, PositiveInteger;
    SignatureIsAcceptedExactly(review.transaction, blob, review.allowRefresh, wire);
    HexIsLiteral();
  }

  /** A blob can be submitted exactly when it is hexadecimal, singly signed and names its last ledger. */
  lemma SubmittableExactly(blob: string, wire: Wire)
    ensures IsSubmittable(blob, wire) <==>
              && |blob| > 0 && |blob| % 2 == 0 && (forall i :: 0 <= i < |blob| ==> blob[i] in "0123456789abcdefABCDEF")
              && wire.decode(blob).Some? && wire.verifies(blob)
              && var signed := wire.decode(blob).value;
              && "Signers" !in signed
              && "SigningPubKey" in signed && signed["SigningPubKey"].Text? && signed["SigningPubKey"].s != ""
              && "TxnSignature" in signed && signed["TxnSignature"].Text? && signed["TxnSignature"].s != ""
              && "LastLedgerSequence" in signed && signed["LastLedgerSequence"].Number?
              && signed["LastLedgerSequence"].n > 0
    ensures IsSubmittable(blob, wire) ==>
              LastLedgerOf(blob, wire) == Some(wire.decode(blob).value["LastLedgerSequence"].n)
  {
    hide IsHexChar;
    HexIsLiteral();
    assert LAST_LEDGER == "LastLedgerSequence";
  }

  /** And then its hash and last ledger are journaled before anything is sent; otherwise the run ends. */
  lemma SubmittingExactly(origin: Origin, blob: string, input: Input, store: Store, at: string, wire: Wire, rules: Rules)
    ensures var run := Run(origin, ToSign(blob));
            var plan := PlanOf(run, input, store, at, wire, rules);
            plan ==
            if IsSubmittable(blob, wire)
            then Plan(Some(Append(JournalEntry(IdOf(run), at, Signed, Some(wire.hash(blob)), LastLedgerOf(blob, wire),
                                               None, None, None))),
                      if origin.Owner? then BeforeSubmit(blob) else Ready(blob), Done, None)
            else Plan(None, Done, Done, None)
  {
    hide IsSubmittable, LastLedgerOf;
  }

  /** A recovery takes up exactly the unsettled operations whose stored blob still belongs to them in every respect. */
  lemma RecoveringExactly(id: string, blob: string, input: Input, store: Store, at: string, wire: Wire, rules: Rules)
    ensures var plan := PlanOf(Run(Recovery(id), Start), input, store, at, wire, rules);
            && plan.change.None? && plan.sends.None? && (plan.done.Known? || plan.done.Done?)
            && (plan.done == Known(blob) <==>
                  && id in store
                  && var op := store[id];
                  && op.stage in {Stage.Signed, Submitted, Pending}
                  && op.txBlob == Some(blob) && blob != "" && op.txHash == Some(wire.hash(blob)) && wire.hash(blob) != ""
                  && wire.decode(blob).Some? && wire.verifies(blob)
                  && var signed := wire.decode(blob).value;
                  && "Signers" !in signed
                  && "SigningPubKey" in signed && signed["SigningPubKey"].Text? && signed["SigningPubKey"].s != ""
                  && "TxnSignature" in signed && signed["TxnSignature"].Text? && signed["TxnSignature"].s != ""
                  && "LastLedgerSequence" in signed && signed["LastLedgerSequence"].Number?
                  && signed["LastLedgerSequence"].n > 0
                  && op.lastLedgerSequence == Some(signed["LastLedgerSequence"].n)
                  && "Account" in signed && signed["Account"] == Text(op.seed.account)
                  && "TransactionType" in signed && signed["TransactionType"] == Text(op.seed.transactionType)
                  && ("NetworkID" in signed ==> signed["NetworkID"] == Number(op.seed.networkId))
                  && (op.seed.transactionType in {"CredentialAccept", "CredentialDelete"} ==>
                        ContextOf(op, rules).Some? && ContextOf(op, rules).value.GenerationBound?))
  {
    hide ContextOf;
    assert LAST_LEDGER == "LastLedgerSequence";
  }

  /** A recovery first asks what became of the blob: a settled status ends it, any other one leads to the guards. */
  lemma CheckingExactly(id: string, blob: string, input: Input, store: Store, at: string, wire: Wire, rules: Rules)
    ensures PlanOf(Run(Recovery(id), Known(blob)), input, store, at, wire, rules) ==
            var next :=
              if !input.Reports? then Done
              else if input.status.kind in {IsValidated, IsExpired} then Settling(blob, input.status)
              else Guarding(blob, 2);
            Plan(None, next, next, None)
  {
  }

  /** Each guard passes exactly while the operation holds its key and no other one does; two of them must. */
  lemma GuardingExactly(id: string, blob: string, checks: nat, input: Input, store: Store, at: string, wire: Wire,
                        rules: Rules)
    ensures PlanOf(Run(Recovery(id), Guarding(blob, checks)), input, store, at, wire, rules) ==
            var next :=
              if !(input != Breaks && id in store && Holds(store[id], rules) && !IsTaken(store, id, KeyOf(store[id], rules), rules))
              then Done
              else if checks > 1 then Guarding(blob, checks - 1)
              else ToSign(blob);
            Plan(None, next, next, None)
  {
    hide KeyOf, ConfirmationOf, HasRival, IsTaken;
    if id in store { RivalsAreHolders(store, id, KeyOf(store[id], rules), rules); }
  }

  /** What a reported status journals: only a validated or expired one settles an operation. */
  lemma ReportingExactly(origin: Origin, blob: string, status: Status, store: Store, at: string, wire: Wire, rules: Rules)
    requires wire.decode(blob).Some? && "LastLedgerSequence" in wire.decode(blob).value
    requires wire.decode(blob).value["LastLedgerSequence"].Number? && wire.decode(blob).value["LastLedgerSequence"].n > 0
    ensures var plan := PlanOf(Run(origin, Reported(blob, status)), Proceeds, store, at, wire, rules);
            && plan.done == plan.failed == Done && plan.sends.None? && plan.change.Some? && plan.change.value.Append?
            && var e := plan.change.value.entry;
            && e.operationId == IdOf(Run(origin, Reported(blob, status))) && e.at == at
            && (e.stage.Validated? <==> status.kind.IsValidated?) && (e.stage.Expired? <==> status.kind.IsExpired?)
            && (e.stage.Pending? <==> status.kind.IsPending? || status.kind.IsNotFound?)
            && e.txHash == Some(wire.hash(blob))
            && e.lastLedgerSequence == Some(wire.decode(blob).value["LastLedgerSequence"].n)
            && e.engineResult == status.result && e.ledgerIndex == status.ledgerIndex && e.message.None?
  {
    assert LAST_LEDGER == "LastLedgerSequence";
  }

  /** An acknowledged submission is journaled with its result; only results that start with `tem` end it as failed. */
  lemma AcknowledgingExactly(origin: Origin, blob: string, r: Option<string>, input: Input, store: Store, at: string,
                             wire: Wire, rules: Rules)
    ensures var run := Run(origin, Acknowledged(blob, r));
            var plan := PlanOf(run, input, store, at, wire, rules);
            && plan.change.Some? && plan.change.value.Append? && plan.change.value.entry.stage.Submitted?
            && plan.change.value.entry.engineResult == r && plan.failed == Unacknowledged(blob)
            && (plan.done == Refused(blob, r) <==> r.Some? && |r.value| >= 3 && r.value[..3] == "tem")
            && (plan.done == Waiting(blob) <==> !(r.Some? && |r.value| >= 3 && r.value[..3] == "tem"))
  {
    hide LastLedgerOf;
    if r.Some? && |r.value| >= 3 && r.value[..3] == "tem" {
      assert r.value == "tem" + r.value[3..];
    }
  }
}
