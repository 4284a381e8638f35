/**
 What holds in every reachable world: whatever was submitted is still on record, exactly, unless it is settled; and
 nothing is ever submitted that the user did not review.
 */
module SubmissionSafety {
  import opened Base
  import opened BusinessContext
  import opened Journal
  import opened JournalExclusion
  import opened Submission

  /** The record of an operation holds exactly this blob with its hash and last ledger, or is settled. */
  predicate Recorded(store: Store, id: string, blob: string, wire: Wire) {
    && id in store
    && var op := store[id];
    || IsTerminal(op.stage)
    || ((op.stage.Signed? || op.stage.Submitted? || op.stage.Pending?)
        && op.txBlob == Some(blob) && op.txHash == Some(wire.hash(blob))
        && op.lastLedgerSequence == LastLedgerOf(blob, wire) && LastLedgerOf(blob, wire).Some?)
  }

  /** The blob signs the transaction reviewed for this identifier. */
  predicate Reviewed(reviews: map<string, Review>, id: string, blob: string, wire: Wire) {
    && id in reviews && IsHexBlob(blob) && |wire.hash(blob)| == 64
    && SignedFields(reviews[id].transaction, blob, reviews[id].allowRefresh, wire).Some?
  }

  /** An operation whose owner has not journaled a signature yet. */
  predicate IsUnsigned(store: Store, id: string) {
    id in store ==> store[id].stage.Prepared? && store[id].txBlob.None?
  }

  predicate RunHolds(w: World, run: Run, wire: Wire) {
    && (run.origin.Owner? ==>
          && IdOf(run) in w.reviews && w.reviews[IdOf(run)] == run.origin.review
          && FitsSeed(run.origin.seed, run.origin.review.transaction)
          && (run.pc.Start? ==> IdOf(run) !in w.store)
          && (run.pc.Opened? || run.pc.Signing? || run.pc.Signature? ==> IsUnsigned(w.store, IdOf(run))))
    && (run.pc.Signature? ==> Reviewed(w.reviews, IdOf(run), run.pc.blob, wire))
    && (BlobOf(run.pc).Some? ==>
          && Recorded(w.store, IdOf(run), BlobOf(run.pc).value, wire)
          && Reviewed(w.reviews, IdOf(run), BlobOf(run.pc).value, wire))
  }

  predicate OperationHolds(w: World, id: string, wire: Wire)
    requires id in w.store
  {
    && id in w.reviews && FitsSeed(w.store[id].seed, w.reviews[id].transaction)
    && (w.store[id].txBlob.Some? ==> Reviewed(w.reviews, id, w.store[id].txBlob.value, wire))
  }

  predicate SentHolds(w: World, sent: Sent, wire: Wire) {
    Recorded(w.store, sent.operationId, sent.blob, wire) && Reviewed(w.reviews, sent.operationId, sent.blob, wire)
  }

  ghost predicate Safe(w: World, wire: Wire) {
    && (forall i, j :: 0 <= i < j < |w.runs| && w.runs[i].origin.Owner? && w.runs[j].origin.Owner? ==>
          IdOf(w.runs[i]) != IdOf(w.runs[j]))
    && (forall i :: 0 <= i < |w.runs| ==> RunHolds(w, w.runs[i], wire))
    && (forall id :: id in w.store ==> OperationHolds(w, id, wire))
    && (forall i :: 0 <= i < |w.sent| ==> SentHolds(w, w.sent[i], wire))
  }

  // ---- What a run's journal transaction can be -----------------------------------------------------

  predicate Exact(e: JournalEntry, blob: string, wire: Wire) {
    e.txHash == Some(wire.hash(blob)) && e.lastLedgerSequence == LastLedgerOf(blob, wire) && !e.stage.Prepared?
  }

  predicate IsOwnChange(run: Run, change: Change, wire: Wire) {
    match change
    case Create(seed) => run.origin.Owner? && run.pc.Start? && seed == run.origin.seed
    case PersistSigned(r) =>
      && run.origin.Owner? && run.pc.Signature? && r.operationId == IdOf(run) && r.txBlob == run.pc.blob
      && r.txHash == wire.hash(r.txBlob) && Some(r.lastLedgerSequence) == LastLedgerOf(r.txBlob, wire)
    case Append(e) =>
      && e.operationId == IdOf(run)
      && (BlobOf(run.pc).Some? ==> Exact(e, BlobOf(run.pc).value, wire))
      && (BlobOf(run.pc).None? ==>
            run.origin.Owner? && ((run.pc.Opened? && e.stage.Prepared?) || (run.pc.GivingUp? && e.stage.Failed?)))
    case _ => false
  }

  /** What every step of a run can be. */
  predicate PlanFits(run: Run, plan: Plan, store: Store, wire: Wire, rules: Rules) {
    && IsOwnPlan(run, plan, wire) && IsBlobSource(run, plan, store, wire, rules) && IsEarlySource(run, plan, wire)
  }

  predicate IsOwnPlan(run: Run, plan: Plan, wire: Wire) {
    && (plan.change.Some? ==> IsOwnChange(run, plan.change.value, wire))
    && (BlobOf(plan.failed).Some? ==> BlobOf(plan.failed) == BlobOf(run.pc) || plan.change.None?)
    && (plan.change.None? ==> plan.failed == plan.done || plan.sends.Some?)
    && (plan.sends.Some? ==> plan.change.None? && plan.sends == BlobOf(run.pc) && BlobOf(plan.done) == BlobOf(run.pc))
  }

  /** Where a run can get a blob from: it had it, it has just journaled it, or it has just read it. */
  predicate IsBlobSource(run: Run, plan: Plan, store: Store, wire: Wire, rules: Rules) {
    BlobOf(plan.done).Some? ==>
      || BlobOf(plan.done) == BlobOf(run.pc)
      || (run.pc.Signature? && plan.change.Some? && plan.change.value.PersistSigned?
          && BlobOf(plan.done) == Some(run.pc.blob))
      || (plan.change.None? && IdOf(run) in store && CanRetry(store[IdOf(run)], rules)
          && IsRecoveryMaterial(store[IdOf(run)], wire) && BlobOf(plan.done) == store[IdOf(run)].txBlob)
  }

  /** Early program points, and validated signatures, come from an owner's own earlier point. */
  predicate IsEarlySource(run: Run, plan: Plan, wire: Wire) {
    && !plan.done.Start? && !plan.failed.Start?
    && (plan.done.Opened? ==> run.pc.Start? && plan.change.Some? && plan.change.value.Create?)
    && (plan.done.Signing? ==> run.pc.Opened? && plan.change.Some?)
    && (plan.done.Signature? ==>
          && run.pc.Signing? && run.origin.Owner? && plan.change.None? && IsHexBlob(plan.done.blob)
          && |wire.hash(plan.done.blob)| == 64
          && SignedFields(run.origin.review.transaction, plan.done.blob, run.origin.review.allowRefresh, wire).Some?)
    && !plan.failed.Opened? && !plan.failed.Signing?
    && (plan.failed.Signature? ==> plan.failed == plan.done && plan.change.None?)
  }

  lemma SubmitPlanFits(run: Run, input: Input, store: Store, at: string, wire: Wire, rules: Rules)
    requires IsShared(run.pc)
    ensures PlanFits(run, SubmitPlan(run, input, at, wire), store, wire, rules)
  {
    hide SignedFields, IsSinglySigned, IsRecoveryMaterial, CanRetry, LastLedgerOf, IsSubmittable, IsTem, IsHexBlob;
  }

  lemma OwnerPlanFits(run: Run, input: Input, store: Store, at: string, wire: Wire, rules: Rules)
    requires run.origin.Owner? && !IsShared(run.pc)
    ensures PlanFits(run, OwnerPlan(run.origin.seed, run.origin.review, run.pc, input, at, wire), store, wire, rules)
  {
    hide SignedFields, IsSinglySigned, IsRecoveryMaterial, CanRetry, LastLedgerOf, IsPrepared, IsHexBlob;
  }

  lemma RecoveryPlanFits(run: Run, input: Input, store: Store, at: string, wire: Wire, rules: Rules)
    requires run.origin.Recovery? && !IsShared(run.pc)
    ensures PlanFits(run, RecoveryPlan(run.origin.operationId, run.pc, input, store, at, wire, rules), store, wire, rules)
  {
    hide SignedFields, IsSinglySigned, LastLedgerOf, OwnsLock, IsHexBlob, ContextOf;
  }

  lemma EveryPlanFits(run: Run, input: Input, store: Store, at: string, wire: Wire, rules: Rules)
    ensures PlanFits(run, PlanOf(run, input, store, at, wire, rules), store, wire, rules)
  {
    hide PlanFits, SubmitPlan, OwnerPlan, RecoveryPlan;
    if IsShared(run.pc) {
      SubmitPlanFits(run, input, store, at, wire, rules);
    } else if run.origin.Owner? {
      OwnerPlanFits(run, input, store, at, wire, rules);
    } else {
      RecoveryPlanFits(run, input, store, at, wire, rules);
    }
  }

  // ---- What a journal transaction of one run does to the store ----------------------------------------

  /** Records stay exact under every own transaction of any run that is itself in order. */
  lemma RecordStays(w: World, run: Run, change: Change, blob: string, wire: Wire, rules: Rules)
    requires RunHolds(w, run, wire) && IsOwnChange(run, change, wire)
    requires Recorded(w.store, IdOf(run), blob, wire)
    ensures Recorded(Apply(w.store, change, rules), IdOf(run), blob, wire)
  {
    hide Reviewed, Normalize, BusinessKey, HasRival, LastLedgerOf, FitsSeed;
  }

  /** Other operations are not touched. */
  lemma OthersStay(store: Store, run: Run, change: Change, wire: Wire, rules: Rules, x: string)
    requires IsOwnChange(run, change, wire) && x != IdOf(run)
    ensures var after := Apply(store, change, rules);
            (x in after <==> x in store) && (x in store ==> after[x] == store[x])
  {
    hide Normalize, BusinessKey, HasRival, LastLedgerOf;
  }

  lemma OperationStays(w: World, run: Run, change: Change, wire: Wire, rules: Rules)
    requires RunHolds(w, run, wire) && IsOwnChange(run, change, wire)
    requires IdOf(run) in w.store ==> OperationHolds(w, IdOf(run), wire)
    ensures var after := w.(store := Apply(w.store, change, rules));
            IdOf(run) in after.store ==> OperationHolds(after, IdOf(run), wire)
  {
    hide Reviewed, Normalize, BusinessKey, HasRival, LastLedgerOf, HasText, Recorded;
  }

  /** What the store shows about a run's own identifier after its own transaction has committed. */
  lemma OwnTransaction(w: World, run: Run, change: Change, wire: Wire, rules: Rules)
    requires RunHolds(w, run, wire) && IsOwnChange(run, change, wire) && Attempt(w.store, change, rules).Ok?
    ensures var after := Apply(w.store, change, rules);
            && (change.Create? || (change.Append? && run.pc.Opened?) ==> IsUnsigned(after, IdOf(run)))
            && (change.PersistSigned? ==> Recorded(after, IdOf(run), run.pc.blob, wire))
  {
    hide Reviewed, Normalize, BusinessKey, HasRival, LastLedgerOf, HasText;
  }

  /** An operation on record is not one whose owner still waits for the signature. */
  lemma RecordedIsSigned(store: Store, id: string, blob: string, wire: Wire)
    requires Recorded(store, id, blob, wire)
    ensures id in store && !IsUnsigned(store, id)
  {
  }

  lemma ReadIsRecorded(store: Store, id: string, wire: Wire, rules: Rules)
    requires id in store && CanRetry(store[id], rules) && IsRecoveryMaterial(store[id], wire)
    ensures store[id].txBlob.Some? && Recorded(store, id, store[id].txBlob.value, wire)
  {
  }

  // ---- One step of one run --------------------------------------------------------------------------

  /** Another run, or an earlier submission, keeps what it holds. */
  lemma OtherRunHolds(w: World, run: Run, other: Run, change: Change, wire: Wire, rules: Rules)
    requires RunHolds(w, run, wire) && RunHolds(w, other, wire) && IsOwnChange(run, change, wire)
    requires run.origin.Owner? && other.origin.Owner? ==> IdOf(run) != IdOf(other)
    ensures RunHolds(w.(store := Apply(w.store, change, rules)), other, wire)
  {
    hide Reviewed, Recorded, IsUnsigned, Apply, FitsSeed, Exact, LastLedgerOf;
    var id := IdOf(other);
    if id != IdOf(run) {
      SameOperation(w.store, Apply(w.store, change, rules), run, change, wire, rules, id);
    } else {
      if BlobOf(other.pc).Some? { RecordStays(w, run, change, BlobOf(other.pc).value, wire, rules); }
      if other.origin.Owner? {
        RecordedIsSigned(w.store, id, BlobOf(run.pc).value, wire);
      }
    }
  }

  lemma SameOperation(before: Store, after: Store, run: Run, change: Change, wire: Wire, rules: Rules, id: string)
    requires IsOwnChange(run, change, wire) && id != IdOf(run) && after == Apply(before, change, rules)
    ensures (id in after <==> id in before) && (IsUnsigned(after, id) <==> IsUnsigned(before, id))
    ensures forall blob :: Recorded(after, id, blob, wire) <==> Recorded(before, id, blob, wire)
  {
    hide Apply, LastLedgerOf;
    OthersStay(before, run, change, wire, rules, id);
  }

  lemma SentStays(w: World, run: Run, sent: Sent, change: Change, wire: Wire, rules: Rules)
    requires RunHolds(w, run, wire) && SentHolds(w, sent, wire) && IsOwnChange(run, change, wire)
    ensures SentHolds(w.(store := Apply(w.store, change, rules)), sent, wire)
  {
    hide Reviewed, Recorded, IsUnsigned, Apply, Exact, LastLedgerOf, FitsSeed;
    if sent.operationId != IdOf(run) {
      SameOperation(w.store, Apply(w.store, change, rules), run, change, wire, rules, sent.operationId);
    } else {
      RecordStays(w, run, change, sent.blob, wire, rules);
    }
  }

  /** The run itself, at its next program point. */
  lemma NextPointHolds(w: World, run: Run, input: Input, at: string, wire: Wire, rules: Rules)
    requires RunHolds(w, run, wire)
    requires forall id :: id in w.store ==> OperationHolds(w, id, wire)
    ensures var plan := PlanOf(run, input, w.store, at, wire, rules);
            var outcome := Outcome(w.store, plan, input, rules);
            var store := if outcome.Some? then outcome.value else w.store;
            RunHolds(w.(store := store), Run(run.origin, if outcome.Some? then plan.done else plan.failed), wire)
  {
    hide Reviewed, Recorded, IsUnsigned, FitsSeed, Exact, LastLedgerOf, PlanOf, Attempt, CanRetry,
         IsRecoveryMaterial, IsHexBlob;
    var plan := PlanOf(run, input, w.store, at, wire, rules);
    var outcome := Outcome(w.store, plan, input, rules);
    EveryPlanFits(run, input, w.store, at, wire, rules);
    if plan.change.Some? && outcome.Some? {
      OwnTransaction(w, run, plan.change.value, wire, rules);
      if BlobOf(run.pc).Some? { RecordStays(w, run, plan.change.value, BlobOf(run.pc).value, wire, rules); }
    } else if plan.change.None? && BlobOf(plan.done).Some? && BlobOf(plan.done) != BlobOf(run.pc) {
      ReadIsRecorded(w.store, IdOf(run), wire, rules);
      assert OperationHolds(w, IdOf(run), wire);
    }
    if plan.done.Signature? { NewSignature(w, run, plan.done.blob, wire); }
  }

  lemma NewSignature(w: World, run: Run, blob: string, wire: Wire)
    requires RunHolds(w, run, wire) && run.origin.Owner? && IsHexBlob(blob) && |wire.hash(blob)| == 64
    requires SignedFields(run.origin.review.transaction, blob, run.origin.review.allowRefresh, wire).Some?
    ensures Reviewed(w.reviews, IdOf(run), blob, wire)
  {
  }

  lemma AdvanceIsSafe(w: World, i: nat, input: Input, at: string, wire: Wire, rules: Rules)
    requires Safe(w, wire) && i < |w.runs|
    ensures Safe(Advanced(w, i, input, at, wire, rules), wire)
  {
    hide RunHolds, OperationHolds, SentHolds, PlanOf, Attempt, IsOwnChange;
    var run := w.runs[i];
    var plan := PlanOf(run, input, w.store, at, wire, rules);
    var outcome := Outcome(w.store, plan, input, rules);
    var after := Advanced(w, i, input, at, wire, rules);
    var middle := w.(store := after.store);
    EveryPlanFits(run, input, w.store, at, wire, rules);
    NextPointHolds(w, run, input, at, wire, rules);
    forall j | 0 <= j < |w.runs| && j != i ensures RunHolds(middle, w.runs[j], wire) {
      if plan.change.Some? && outcome.Some? { OtherRunHolds(w, run, w.runs[j], plan.change.value, wire, rules); }
    }
    forall x | x in middle.store ensures OperationHolds(middle, x, wire) {
      if plan.change.Some? && outcome.Some? { EveryOperationStays(w, run, plan.change.value, wire, rules, x); }
    }
    forall j | 0 <= j < |w.sent| ensures SentHolds(middle, w.sent[j], wire) {
      if plan.change.Some? && outcome.Some? { SentStays(w, run, w.sent[j], plan.change.value, wire, rules); }
    }
    if plan.sends.Some? { SendingIsRecorded(w, run, plan.sends.value, wire); }
    SameStoreAndReviews(middle, after, wire);
  }

  lemma EveryOperationStays(w: World, run: Run, change: Change, wire: Wire, rules: Rules, x: string)
    requires RunHolds(w, run, wire) && IsOwnChange(run, change, wire)
    requires forall id :: id in w.store ==> OperationHolds(w, id, wire)
    requires x in Apply(w.store, change, rules)
    ensures OperationHolds(w.(store := Apply(w.store, change, rules)), x, wire)
  {
    hide RunHolds, IsOwnChange, Apply, Reviewed, FitsSeed;
    if x == IdOf(run) {
      OperationStays(w, run, change, wire, rules);
    } else {
      OthersStay(w.store, run, change, wire, rules, x);
      assert OperationHolds(w, x, wire);
    }
  }

  lemma SendingIsRecorded(w: World, run: Run, blob: string, wire: Wire)
    requires RunHolds(w, run, wire) && BlobOf(run.pc) == Some(blob)
    ensures SentHolds(w, Sent(IdOf(run), blob), wire)
  {
  }

  /** All these facts look at the store and the reviews alone. */
  lemma SameStoreAndReviews(a: World, b: World, wire: Wire)
    requires a.store == b.store && a.reviews == b.reviews
    ensures forall run :: RunHolds(a, run, wire) <==> RunHolds(b, run, wire)
    ensures forall id :: id in a.store ==> (OperationHolds(a, id, wire) <==> OperationHolds(b, id, wire))
    ensures forall sent :: SentHolds(a, sent, wire) <==> SentHolds(b, sent, wire)
  {
    hide Reviewed, Recorded, IsUnsigned, FitsSeed;
  }

  // ---- The other actions ---------------------------------------------------------------------------------

  lemma BegunRunsHold(w: World, a: Action, wire: Wire, rules: Rules)
    requires Safe(w, wire) && (a.BeginOwner? || a.BeginRecovery? || a.Crash?)
    ensures var after := Act(w, a, wire, rules);
            forall i :: 0 <= i < |after.runs| ==> RunHolds(after, after.runs[i], wire)
  {
    hide Reviewed, Recorded, FitsSeed, IsUnsigned, SentHolds;
    var after := Act(w, a, wire, rules);
    forall x | x in w.store ensures x in w.reviews {
      assert OperationHolds(w, x, wire);
    }
    forall i | 0 <= i < |after.runs| ensures RunHolds(after, after.runs[i], wire) {
      if i < |w.runs| { KeptWithMoreReviews(w, after, w.runs[i], wire); }
    }
  }

  lemma BeginIsSafe(w: World, a: Action, wire: Wire, rules: Rules)
    requires Safe(w, wire) && (a.BeginOwner? || a.BeginRecovery? || a.Crash?)
    ensures Safe(Act(w, a, wire, rules), wire)
  {
    hide Reviewed, Recorded, FitsSeed, IsUnsigned, BlobOf;
    var after := Act(w, a, wire, rules);
    BegunRunsHold(w, a, wire, rules);
    forall id | id in after.store ensures OperationHolds(after, id, wire) {
      assert OperationHolds(w, id, wire);
      ReviewsStay(w, after, wire);
    }
    forall i | 0 <= i < |after.sent| ensures SentHolds(after, after.sent[i], wire) {
      assert SentHolds(w, w.sent[i], wire);
      ReviewsStay(w, after, wire);
    }
    forall i, j | 0 <= i < j < |after.runs| && after.runs[i].origin.Owner? && after.runs[j].origin.Owner?
      ensures IdOf(after.runs[i]) != IdOf(after.runs[j])
    {
      if i < |w.runs| { assert RunHolds(w, w.runs[i], wire); }
    }
  }

  lemma ReviewsStay(w: World, after: World, wire: Wire)
    requires forall id :: id in w.reviews ==> id in after.reviews && after.reviews[id] == w.reviews[id]
    ensures forall id, blob :: Reviewed(w.reviews, id, blob, wire) ==> Reviewed(after.reviews, id, blob, wire)
  {
    hide SignedFields;
  }

  lemma KeptWithMoreReviews(w: World, after: World, run: Run, wire: Wire)
    requires RunHolds(w, run, wire) && after.store == w.store
    requires forall id :: id in w.reviews ==> id in after.reviews && after.reviews[id] == w.reviews[id]
    ensures RunHolds(after, run, wire) && RunHolds(after, Run(run.origin, Done), wire)
  {
    hide Reviewed, Recorded, FitsSeed;
    ReviewsStay(w, after, wire);
  }

  /** Abandoning or confirming an operation changes no record of a signed one. */
  lemma JournalIsSafe(w: World, change: Change, wire: Wire, rules: Rules)
    requires Safe(w, wire) && (change.SetConfirmation? || change.Abandon?)
    ensures Safe(w.(store := Apply(w.store, change, rules)), wire)
  {
    hide Reviewed, Attempt, LastLedgerOf, FitsSeed, Normalize, Recorded;
    var after := w.(store := Apply(w.store, change, rules));
    LeavesRecords(w.store, change, wire, rules);
    forall i | 0 <= i < |w.runs| ensures RunHolds(after, w.runs[i], wire) {
      assert RunHolds(w, w.runs[i], wire);
    }
    forall id | id in after.store ensures OperationHolds(after, id, wire) {
      assert OperationHolds(w, id, wire);
    }
    forall i | 0 <= i < |w.sent| ensures SentHolds(after, w.sent[i], wire) {
      assert SentHolds(w, w.sent[i], wire);
    }
  }

  lemma LeavesRecords(store: Store, change: Change, wire: Wire, rules: Rules)
    requires change.SetConfirmation? || change.Abandon?
    ensures var after := Apply(store, change, rules);
            && (forall id, blob :: Recorded(store, id, blob, wire) ==> Recorded(after, id, blob, wire))
            && (forall id :: IsUnsigned(store, id) ==> IsUnsigned(after, id))
            && (forall id :: id in after ==> id in store && after[id].seed == store[id].seed && after[id].txBlob == store[id].txBlob)
  {
    hide Normalize, NormalizeEvidence, Supports, LastLedgerOf, HasLedgerIndex, SucceededOnLedger;
  }

  // ---- Every reachable world --------------------------------------------------------------------------------

  lemma ActIsSafe(w: World, a: Action, wire: Wire, rules: Rules)
    requires Safe(w, wire)
    ensures Safe(Act(w, a, wire, rules), wire)
  {
    hide Safe, Advanced, Apply;
    match a {
      case Advance(i, input, at) => if i < |w.runs| { AdvanceIsSafe(w, i, input, at, wire, rules); }
      case Confirm(id, c, at, e) => JournalIsSafe(w, SetConfirmation(id, c, at, e), wire, rules);
      case Abandons(id) => JournalIsSafe(w, Abandon(id), wire, rules);
      case _ => BeginIsSafe(w, a, wire, rules);
    }
  }

  lemma {:induction false} EveryWorldIsSafe(actions: seq<Action>, wire: Wire, rules: Rules)
    ensures Safe(After(actions, wire, rules), wire)
    decreases |actions|
  {
    hide Act;
    if actions != [] {
      hide Safe;
      EveryWorldIsSafe(actions[..|actions| - 1], wire, rules);
      ActIsSafe(After(actions[..|actions| - 1], wire, rules), actions[|actions| - 1], wire, rules);
    }
  }

  /**
   Crash safety: in every interleaving of owners, recoveries, crashes, confirmations and abandonments, whatever has
   been submitted for an operation is on record with its hash and last ledger, ready to be found again, or settled.
   */
  lemma SubmittedIsRecorded(actions: seq<Action>, wire: Wire, rules: Rules, k: nat)
    requires k < |After(actions, wire, rules).sent|
    ensures var w := After(actions, wire, rules);
            var sent := w.sent[k];
            && sent.operationId in w.store
            && var op := w.store[sent.operationId];
            || op.stage in {Validated, Expired, Stage.Failed}
            || (&& op.stage in {Stage.Signed, Submitted, Pending}
                && op.txBlob == Some(sent.blob) && op.txHash == Some(wire.hash(sent.blob))
                && wire.decode(sent.blob).Some?
                && var fields := wire.decode(sent.blob).value;
                && "LastLedgerSequence" in fields && fields["LastLedgerSequence"].Number?
                && fields["LastLedgerSequence"].n > 0
                && op.lastLedgerSequence == Some(fields["LastLedgerSequence"].n))
  {
    hide After;
    assert LAST_LEDGER == "LastLedgerSequence";
    EveryWorldIsSafe(actions, wire, rules);
    assert SentHolds(After(actions, wire, rules), After(actions, wire, rules).sent[k], wire);
  }

  /** The codec prints different fields differently. */
  ghost predicate PrintsFaithfully(wire: Wire) {
    forall a, b :: SamePrint(wire, a, b) ==> a == b
  }

  predicate SamePrint(wire: Wire, a: Fields, b: Fields) {
    wire.encode(a) == wire.encode(b)
  }

  /** What reviewed and signed fields have in common when they print alike without the given names. */
  lemma SamePrintSameFields(wire: Wire, a: Fields, b: Fields, names: set<string>)
    requires PrintsFaithfully(wire)
    ensures wire.encode(a - names) == wire.encode(b - names) <==>
              forall name :: name !in names ==> (name in a <==> name in b) && (name in a ==> a[name] == b[name])
  {
    if wire.encode(a - names) == wire.encode(b - names) {
      assert SamePrint(wire, a - names, b - names);
      forall name | name !in names ensures (name in a <==> name in b) && (name in a ==> a[name] == b[name]) {
        assert name in a <==> name in a - names;
        assert name in b <==> name in b - names;
      }
    }
    if forall name :: name !in names ==> (name in a <==> name in b) && (name in a ==> a[name] == b[name]) {
      assert a - names == b - names;
    }
  }

  /**
   A signed blob is taken for the reviewed transaction exactly when it decodes to a valid single signature over the
   same fields with the same values. Only the last ledger may differ, and only where a refresh is allowed.
   */
  lemma SignatureIsAcceptedExactly(prepared: Fields, blob: string, allowRefresh: bool, wire: Wire)
    requires PrintsFaithfully(wire)
    ensures SignedFields(prepared, blob, allowRefresh, wire).Some? <==>
              && wire.decode(blob).Some? && wire.verifies(blob)
              && var signed := wire.decode(blob).value;
              && "Signers" !in signed
              && "SigningPubKey" in signed && signed["SigningPubKey"].Text? && signed["SigningPubKey"].s != ""
              && "TxnSignature" in signed && signed["TxnSignature"].Text? && signed["TxnSignature"].s != ""
              && (forall name :: name !in {"Signers", "SigningPubKey", "TxnSignature", "LastLedgerSequence"} ==>
                    (name in signed <==> name in prepared) && (name in signed ==> signed[name] == prepared[name]))
              && (allowRefresh ==>
                    && "LastLedgerSequence" in signed && signed["LastLedgerSequence"].Number?
                    && signed["LastLedgerSequence"].n > 0)
              && (!allowRefresh ==>
                    && ("LastLedgerSequence" in signed <==> "LastLedgerSequence" in prepared)
                    && ("LastLedgerSequence" in signed ==> signed["LastLedgerSequence"] == prepared["LastLedgerSequence"]))
  {
    if wire.decode(blob).Some? {
      var signed, names := wire.decode(blob).value, {"Signers", "SigningPubKey", "TxnSignature"};
      LastLedgerIsUnsigned(signed);
      if allowRefresh {
        assert prepared - names - {LAST_LEDGER} == prepared - (names + {LAST_LEDGER});
        assert signed - names - {LAST_LEDGER} == signed - (names + {LAST_LEDGER});
        SamePrintSameFields(wire, signed, prepared, names + {LAST_LEDGER});
      } else {
        SamePrintSameFields(wire, signed, prepared, names);
      }
    }
  }

  /** The last ledger is not one of the signature fields. */
  lemma LastLedgerIsUnsigned(fields: Fields)
    ensures LAST_LEDGER !in {"Signers", "SigningPubKey", "TxnSignature"}
    ensures LAST_LEDGER in fields <==> LAST_LEDGER in WithoutSignature(fields)
  {
    assert LAST_LEDGER[0] != "Signers"[0] && LAST_LEDGER[0] != "TxnSignature"[0];
  }

  /**
   Nothing unreviewed is submitted: every submitted blob carries one valid signature over the reviewed fields with the
   reviewed values, but for the last ledger where the wallet may refresh it.
   */
  lemma SubmittedIsReviewed(actions: seq<Action>, wire: Wire, rules: Rules, k: nat)
    requires PrintsFaithfully(wire) && k < |After(actions, wire, rules).sent|
    ensures var w := After(actions, wire, rules);
            var sent := w.sent[k];
            && sent.operationId in w.reviews
            && var review := w.reviews[sent.operationId];
            && wire.decode(sent.blob).Some? && wire.verifies(sent.blob)
            && var signed, reviewed := wire.decode(sent.blob).value, review.transaction;
            && "Signers" !in signed
            && "SigningPubKey" in signed && signed["SigningPubKey"].Text? && signed["SigningPubKey"].s != ""
            && "TxnSignature" in signed && signed["TxnSignature"].Text? && signed["TxnSignature"].s != ""
            && (forall name :: name !in {"Signers", "SigningPubKey", "TxnSignature", "LastLedgerSequence"} ==>
                  (name in signed <==> name in reviewed) && (name in signed ==> signed[name] == reviewed[name]))
            && (review.allowRefresh ==>
                  && "LastLedgerSequence" in signed && signed["LastLedgerSequence"].Number?
                  && signed["LastLedgerSequence"].n > 0)
            && (!review.allowRefresh ==>
                  && ("LastLedgerSequence" in signed <==> "LastLedgerSequence" in reviewed)
                  && ("LastLedgerSequence" in signed ==> signed["LastLedgerSequence"] == reviewed["LastLedgerSequence"]))
  {
    hide After, SignedFields;
    EveryWorldIsSafe(actions, wire, rules);
    var w := After(actions, wire, rules);
    var sent := w.sent[k];
    assert SentHolds(w, sent, wire);
    var review := w.reviews[sent.operationId];
    SignatureIsAcceptedExactly(review.transaction, sent.blob, review.allowRefresh, wire);
  }

  // ---- Taking a submission up again -------------------------------------------------------------------------

  /** Contexts are stored in their normal form. */
  ghost predicate ContextsAreNormal(store: Store, rules: Rules) {
    forall id :: id in store ==> ContextOf(store[id], rules) == store[id].seed.business
  }

  lemma ChangeKeepsNormal(store: Store, change: Change, rules: Rules)
    requires ContextsAreNormal(store, rules)
    ensures ContextsAreNormal(Apply(store, change, rules), rules)
  {
    hide Normalize, BusinessKey, NormalizeEvidence, Supports, HasRival;
    var after := Apply(store, change, rules);
    if change.Create? && change.seed.business.Some? && Normalize(change.seed.business.value, rules).Some? {
      NormalizeIsIdempotent(change.seed.business.value, rules);
    }
  }

  lemma {:induction false} StoredContextsAreNormal(actions: seq<Action>, wire: Wire, rules: Rules)
    ensures ContextsAreNormal(After(actions, wire, rules).store, rules)
    decreases |actions|
  {
    hide Apply, PlanOf, ContextOf, Attempt;
    if actions != [] {
      var before, action := After(actions[..|actions| - 1], wire, rules), actions[|actions| - 1];
      StoredContextsAreNormal(actions[..|actions| - 1], wire, rules);
      match action {
        case Advance(i, input, at) =>
          if i < |before.runs| {
            var plan := PlanOf(before.runs[i], input, before.store, at, wire, rules);
            if plan.change.Some? {
              ChangeKeepsNormal(before.store, plan.change.value, rules);
              ApplyIsAttempt(before.store, plan.change.value, rules);
            }
          }
        case Confirm(id, c, at, e) => ChangeKeepsNormal(before.store, SetConfirmation(id, c, at, e), rules);
        case Abandons(id) => ChangeKeepsNormal(before.store, Abandon(id), rules);
        case _ =>
      }
    }
  }

  lemma ApplyIsAttempt(store: Store, change: Change, rules: Rules)
    ensures Attempt(store, change, rules).Ok? ==> Apply(store, change, rules) == Attempt(store, change, rules).value
  {
  }

  /**
   After a crash, exactly the unsettled submissions of operations that need no generation, or name one, can be taken
   up again from the journal: a recovery continues with the very blob that was submitted.
   */
  lemma SubmittedIsRecoverable(actions: seq<Action>, wire: Wire, rules: Rules, k: nat, input: Input, at: string)
    requires PrintsFaithfully(wire) && k < |After(actions, wire, rules).sent|
    requires var w := After(actions, wire, rules);
             var id := w.sent[k].operationId;
             id in w.store && id in w.reviews ==>
               && !IsTerminal(w.store[id].stage)
               && ("NetworkID" in w.reviews[id].transaction ==>
                     w.reviews[id].transaction["NetworkID"] == Number(w.store[id].seed.networkId))
    ensures var w := After(actions, wire, rules);
            var id := w.sent[k].operationId;
            && id in w.store
            && var seed := w.store[id].seed;
            PlanOf(Run(Recovery(id), Start), input, w.store, at, wire, rules).done ==
            if seed.transactionType in {"CredentialAccept", "CredentialDelete"}
               && !(seed.business.Some? && seed.business.value.GenerationBound?)
            then Done else Known(w.sent[k].blob)
  {
    hide After, ContextOf, SignedFields;
    EveryWorldIsSafe(actions, wire, rules);
    StoredContextsAreNormal(actions, wire, rules);
    var w := After(actions, wire, rules);
    var sent := w.sent[k];
    assert SentHolds(w, sent, wire) && OperationHolds(w, sent.operationId, wire);
    var review := w.reviews[sent.operationId];
    SignatureIsAcceptedExactly(review.transaction, sent.blob, review.allowRefresh, wire);
    ComparedNames();
    assert IsRecoveryMaterial(w.store[sent.operationId], wire);
  }

  /** The fields that recovery compares are neither signature fields nor the last ledger. */
  lemma ComparedNames()
    ensures {"Account", "TransactionType", "NetworkID"} !! {"Signers", "SigningPubKey", "TxnSignature", "LastLedgerSequence"}
  {
    assert "Account"[0] != "Signers"[0];
    assert "TransactionType"[1] == 'r' && "TxnSignature"[1] == 'x';
  }
}
