/**
 The submission as the program performs it, statement by statement, against a journal and a network that other tabs
 use in between. Its methods are shown to take exactly the steps of the protocol, so all that holds in every reachable
 world holds after every one of their statements.
 */
module SubmissionProgram {
  import opened Base
  import opened BusinessContext
  import opened Journal
  import opened JournalExclusion
  import opened Submission
  import opened SubmissionSafety

  /** What happens at one await: other tabs' actions, then the answer, or a first poll and more; a poll that fails is None. */
  datatype Moment = Moment(others: seq<Action>, input: Input, at: string, poll: Option<Status>, more: seq<Option<Status>>)

  /** A submission of run i: the step it takes from where its blob is ready. */
  predicate IsSubmission(w: World, a: Action, i: nat) {
    a.Advance? && a.i == i && i < |w.runs| && w.runs[i].pc.Ready?
  }

  /** How often run i has submitted its blob. */
  function Submissions(actions: seq<Action>, i: nat, wire: Wire, rules: Rules): nat {
    if actions == [] then 0
    else
      var init := actions[..|actions| - 1];
      Submissions(init, i, wire, rules)
      + if IsSubmission(After(init, wire, rules), actions[|actions| - 1], i) then 1 else 0
  }

  predicate Touches(a: Action, i: nat) {
    (a.Advance? && a.i == i) || (a.Crash? && a.crashed == i)
  }

  /** How often run i was touched by anything that is not a step of its own. */
  function Crashes(actions: seq<Action>, i: nat): nat {
    if actions == [] then 0
    else
      var a := actions[|actions| - 1];
      Crashes(actions[..|actions| - 1], i) + if Touches(a, i) && !a.Advance? then 1 else 0
  }

  /** The journal entry says what the caller is told: a refusal as malformed is told as not found. */
  predicate Tells(e: JournalEntry, status: Status) {
    if status.kind.IsNotFound? then e.stage.Failed? && IsTem(e.engineResult)
    else e.stage == StageOf(status) && e.engineResult == status.result && e.ledgerIndex == status.ledgerIndex
  }

  predicate IsSettled(status: Status) {
    status.kind.IsValidated? || status.kind.IsExpired?
  }

  /** Poll k ends the waiting with this answer: the first that fails or is settled, or else the last, told as pending. */
  predicate EndsWaiting(polls: seq<Option<Status>>, k: nat, answer: Input) {
    && k < |polls|
    && (forall j :: 0 <= j < k ==> polls[j].Some? && !IsSettled(polls[j].value))
    && (if polls[k].None? then answer == Breaks
        else if IsSettled(polls[k].value) then answer == Reports(polls[k].value)
        else k == |polls| - 1 && answer == Reports(polls[k].value.(kind := IsPending)))
  }

  datatype Failure = NotPrepared | SigningFailed | JournalFailed | NotSubmittable | GuardFailed | StatusUnavailable

  class Tabs {
    const wire: Wire
    const rules: Rules
    const journal: IndexedDbOperationJournal
    var runs: seq<Run>
    var sent: seq<Sent>
    var reviews: map<string, Review>
    var script: seq<Moment>
    ghost var actions: seq<Action>

    constructor (wire: Wire, journal: IndexedDbOperationJournal, script: seq<Moment>)
      requires journal.operations == map[]
      ensures Valid() && this.wire == wire && this.journal == journal && this.script == script
    {
      this.wire, this.rules, this.journal, this.script := wire, journal.rules, journal, script;
      runs, sent, reviews, actions := [], [], map[], [];
    }

    function Now(): World
      reads this, journal
    {
      World(journal.operations, runs, sent, reviews)
    }

    /** The shared state is a reachable world of the protocol. */
    ghost predicate Valid()
      reads this, journal
    {
      journal.rules == rules && Now() == After(actions, wire, rules)
    }

    /** After every statement: what was submitted is on record or settled, and was reviewed. */
    lemma StateIsSafe()
      requires Valid()
      ensures Safe(Now(), wire)
    {
      hide Safe, After;
      EveryWorldIsSafe(actions, wire, rules);
    }

    /** How often run i has submitted its blob so far. */
    ghost function SubmissionCount(i: nat): nat
      reads this
    {
      Submissions(actions, i, wire, rules)
    }

    ghost function CrashCount(i: nat): nat
      reads this
    {
      Crashes(actions, i)
    }

    /** Meanwhile run i took nothing but steps of the protocol, n of which were submissions. */
    twostate predicate Took(i: nat, n: nat)
      reads this
    {
      && old(actions) <= actions
      && CrashCount(i) == old(CrashCount(i))
      && SubmissionCount(i) == old(SubmissionCount(i)) + n
    }

    /** The last thing that happened was this journal transaction, and whether it went through. */
    ghost predicate LastChange(change: Change, ok: bool)
      reads this, journal
    {
      && actions != [] && actions[|actions| - 1].Advance?
      && var before := After(actions[..|actions| - 1], wire, rules).store;
      var broke := actions[|actions| - 1].input.Breaks?;
      if ok then !broke && Attempt(before, change, rules) == Ok(journal.operations)
      else (broke || Attempt(before, change, rules).Err?) && journal.operations == before
    }

    /** The last thing that happened was an entry for this operation, gone through, that tells the status. */
    ghost predicate Journaled(id: string, status: Status)
      reads this, journal
    {
      exists e: JournalEntry :: LastChange(Append(e), true) && e.operationId == id && Tells(e, status)
    }

    /** The last thing that happened was a journal transaction that did not go through. */
    ghost predicate JournalRefused()
      reads this, journal
    {
      exists change: Change :: LastChange(change, false)
    }

    /** A settled status that was journaled leaves the record terminal; so does a refusal. */
    lemma JournaledIsStored(id: string, status: Status)
      requires Journaled(id, status)
      ensures id in journal.operations
      ensures !status.kind.IsPending? ==> IsTerminal(journal.operations[id].stage)
      ensures status.kind.IsPending? ==> IsTerminal(journal.operations[id].stage) || journal.operations[id].stage.Pending?
    {
      hide After;
    }

    ghost method Record(a: Action, before: World, i: nat)
      requires journal.rules == rules
      requires before == After(actions, wire, rules) && Now() == Act(before, a, wire, rules)
      requires Touches(a, i) ==> a.Advance?
      modifies this`actions
      ensures Valid() && actions == old(actions) + [a]
      ensures Took(i, if IsSubmission(before, a, i) then 1 else 0)
    {
      assert (actions + [a])[..|actions|] == actions;
      actions := actions + [a];
    }

    /** Waiting for the next answer, while other tabs act. */
    method Await(i: nat) returns (m: Moment)
      requires Valid() && i < |runs|
      modifies this, journal
      ensures Valid() && i < |runs| && runs[i] == old(runs[i]) && Took(i, 0)
    {
      hide After, Advanced, Apply, Submissions, Crashes;
      if script == [] { return Moment([], Breaks, "", None, []); }
      m := script[0];
      script := script[1..];
      for k := 0 to |m.others|
        invariant Valid() && i < |runs| && runs[i] == old(runs[i]) && Took(i, 0)
      {
        var a := m.others[k];
        if !Touches(a, i) {
          var before := Now();
          var after := Act(before, a, wire, rules);
          RunsStay(before, a, wire, rules, i);
          journal.operations, runs, sent, reviews := after.store, after.runs, after.sent, after.reviews;
          Record(a, before, i);
        }
      }
    }

    /** One step of run i that only moves on. */
    method MoveTo(i: nat, m: Moment, pc: Pc)
      requires Valid() && i < |runs|
      requires PlanOf(runs[i], m.input, journal.operations, m.at, wire, rules) == Quietly(pc)
      modifies this
      ensures Valid() && |runs| == |old(runs)| && runs[i] == Run(old(runs[i]).origin, pc) && Took(i, 0)
    {
      hide After, PlanOf, Submissions, Crashes;
      ReadySends(runs[i], m.input, journal.operations, m.at, wire, rules);
      ghost var before := Now();
      runs := runs[i := Run(runs[i].origin, pc)];
      Record(Advance(i, m.input, m.at), before, i);
    }

    /** One journal transaction of run i, which the browser may abort. */
    method Commit(i: nat, m: Moment, change: Change, done: Pc, failed: Pc) returns (ok: bool)
      requires Valid() && i < |runs|
      requires PlanOf(runs[i], m.input, journal.operations, m.at, wire, rules) == Plan(Some(change), done, failed, None)
      requires change.Create? || change.PersistSigned? || change.Append?
      modifies this, journal
      ensures Valid() && |runs| == |old(runs)|
      ensures runs[i] == Run(old(runs[i]).origin, if ok then done else failed)
      ensures Took(i, 0) && LastChange(change, ok)
    {
      hide After, PlanOf, CreateIn, PersistSignedIn, AppendIn, Submissions, Crashes;
      ReadySends(runs[i], m.input, journal.operations, m.at, wire, rules);
      ghost var before := Now();
      if m.input.Breaks? {
        ok := false;
      } else {
        var failure: Option<JournalError>;
        match change {
          case Create(seed) => failure := journal.Create(seed);
          case PersistSigned(record) => failure := journal.PersistSigned(record);
          case Append(entry) => failure := journal.Append(entry);
        }
        ok := failure.None?;
      }
      runs := runs[i := Run(runs[i].origin, if ok then done else failed)];
      Record(Advance(i, m.input, m.at), before, i);
    }

    /** client.submit: from here on the blob may be on the network, acknowledged or not. */
    method Submit(i: nat, m: Moment, blob: string)
      requires Valid() && i < |runs| && runs[i].pc == Ready(blob)
      modifies this
      ensures Valid() && |runs| == |old(runs)|
      ensures runs[i] == Run(old(runs[i]).origin,
                             if m.input.Acknowledges? then Acknowledged(blob, m.input.engineResult) else Unacknowledged(blob))
      ensures Took(i, 1) && sent == old(sent) + [Sent(IdOf(old(runs[i])), blob)]
    {
      hide After, Submissions, Crashes;
      ghost var before := Now();
      sent := sent + [Sent(IdOf(runs[i]), blob)];
      runs := runs[i := Run(runs[i].origin, if m.input.Acknowledges? then Acknowledged(blob, m.input.engineResult)
                                            else Unacknowledged(blob))];
      Record(Advance(i, m.input, m.at), before, i);
    }

    /** Creating the operation before anything is signed. */
    method CreateOperation(i: nat) returns (ok: bool)
      requires Valid() && i < |runs| && runs[i].origin.Owner? && runs[i].pc.Start?
      modifies this, journal
      ensures Valid() && i < |runs| && runs[i] == Run(old(runs[i]).origin, if ok then Opened else Done)
      ensures Took(i, 0) && LastChange(Create(old(runs[i]).origin.seed), ok)
    {
      hide After, CreateIn, Submissions, Crashes;
      var m := Await(i);
      ok := Commit(i, m, Create(runs[i].origin.seed), Opened, Done);
    }

    /**
     Signing the reviewed transaction, journaling the blob and submitting it, once at most. A status comes back only
     after a submission, and only as it was journaled last; a transaction that is not prepared, not signed, not
     submittable or held back by a guard was not submitted.
     */
    method SignPreparedAndSubmit(i: nat) returns (r: Result<Status, Failure>)
      requires Valid() && i < |runs| && runs[i].origin.Owner? && runs[i].pc.Opened?
      modifies this, journal
      ensures Valid() && i < |runs| && runs[i] == Run(old(runs[i]).origin, Done)
      ensures Took(i, 0) || Took(i, 1)
      ensures r.Ok? ==> Took(i, 1) && Journaled(IdOf(old(runs[i])), r.value)
      ensures r == Err(NotPrepared) <==> !IsPrepared(old(runs[i]).origin.review.transaction)
      ensures r == Err(NotPrepared) || r == Err(SigningFailed) || r == Err(NotSubmittable) || r == Err(GuardFailed) ==>
                Took(i, 0)
      ensures r == Err(SigningFailed) ==> GivenUp(IdOf(old(runs[i])))
      ensures r == Err(JournalFailed) ==> JournalRefused() || GivenUp(IdOf(old(runs[i])))
      ensures r == Err(StatusUnavailable) ==> Took(i, 1)
    {
      hide After, SignedFields, IsHexBlob, IsAnyCaseHash, IsPrepared, LastLedgerOf, AppendIn, PersistSignedIn,
           RecoveryPlan, SubmitPlan, Submissions, Crashes, LastChange, IsSubmittable;
      var seed, review := runs[i].origin.seed, runs[i].origin.review;
      var reviewed := PositiveInteger(review.transaction, LAST_LEDGER);
      var m := Await(i);
      if !IsPrepared(review.transaction) {
        MoveTo(i, m, Done);
        return Err(NotPrepared);
      }
      var prepared := JournalEntry(seed.operationId, m.at, Prepared, None, reviewed, None, None, None);
      var ok := Commit(i, m, Append(prepared), Signing, Done);
      if !ok { return Err(JournalFailed); }
      r := SignAndSubmit(i);
    }

    method SignAndSubmit(i: nat) returns (r: Result<Status, Failure>)
      requires Valid() && i < |runs| && runs[i].origin.Owner? && runs[i].pc.Signing?
      modifies this, journal
      ensures Valid() && i < |runs| && runs[i] == Run(old(runs[i]).origin, Done)
      ensures Took(i, 0) || Took(i, 1)
      ensures r.Ok? ==> Took(i, 1) && Journaled(IdOf(old(runs[i])), r.value)
      ensures r == Err(SigningFailed) || r == Err(NotSubmittable) || r == Err(GuardFailed) ==> Took(i, 0)
      ensures r == Err(SigningFailed) ==> GivenUp(IdOf(old(runs[i])))
      ensures r == Err(JournalFailed) ==> JournalRefused() || GivenUp(IdOf(old(runs[i])))
      ensures r == Err(StatusUnavailable) ==> Took(i, 1)
      ensures r != Err(NotPrepared)
    {
      hide After, SignedFields, IsHexBlob, IsAnyCaseHash, IsPrepared, LastLedgerOf, AppendIn, PersistSignedIn,
           RecoveryPlan, SubmitPlan, Submissions, Crashes, LastChange, IsSubmittable, Journaled, GivenUp, JournalRefused;
      var seed, review := runs[i].origin.seed, runs[i].origin.review;
      var reviewed := PositiveInteger(review.transaction, LAST_LEDGER);
      var m := Await(i);
      var signs := m.input.Signs? && IsAnyCaseHash(m.input.hash) && IsHexBlob(m.input.blob)
                   && Lower(wire.hash(m.input.blob)) == Lower(m.input.hash)
                   && SignedFields(review.transaction, m.input.blob, review.allowRefresh, wire).Some?;
      if !signs {
        MoveTo(i, m, GivingUp(reviewed));
        GiveUp(i);
        return Err(SigningFailed);
      }
      var blob := m.input.blob;
      MoveTo(i, m, Signature(blob));
      r := JournalAndSubmit(i, blob);
    }

    /** Nothing is submitted before the blob is in the journal. */
    method JournalAndSubmit(i: nat, blob: string) returns (r: Result<Status, Failure>)
      requires Valid() && i < |runs| && runs[i].origin.Owner? && runs[i].pc == Signature(blob)
      modifies this, journal
      ensures Valid() && i < |runs| && runs[i] == Run(old(runs[i]).origin, Done)
      ensures Took(i, 0) || Took(i, 1)
      ensures r.Ok? ==> Took(i, 1) && Journaled(IdOf(old(runs[i])), r.value)
      ensures r == Err(SigningFailed) || r == Err(NotSubmittable) || r == Err(GuardFailed) ==> Took(i, 0)
      ensures r == Err(SigningFailed) ==> GivenUp(IdOf(old(runs[i])))
      ensures r == Err(JournalFailed) ==> JournalRefused() || GivenUp(IdOf(old(runs[i])))
      ensures r == Err(StatusUnavailable) ==> Took(i, 1)
      ensures r != Err(NotPrepared)
    {
      hide After, SignedFields, IsHexBlob, IsAnyCaseHash, IsPrepared, LastLedgerOf, AppendIn, PersistSignedIn,
           RecoveryPlan, SubmitPlan, Submissions, Crashes, LastChange, IsSubmittable, Journaled, GivenUp, JournalRefused;
      var seed, reviewed := runs[i].origin.seed, PositiveInteger(runs[i].origin.review.transaction, LAST_LEDGER);
      var m := Await(i);
      var last := LastLedgerOf(blob, wire);
      if last.None? {
        MoveTo(i, m, GivingUp(reviewed));
        GiveUp(i);
        return Err(SigningFailed);
      }
      var record := SignedRecord(seed.operationId, blob, wire.hash(blob), last.value, m.at);
      var ok := Commit(i, m, PersistSigned(record), ToSign(blob), GivingUp(last));
      if !ok {
        GiveUp(i);
        return Err(JournalFailed);
      }
      r := SubmitSignedTransaction(i, blob);
    }

    /** The last thing that happened was the attempt to mark the operation as failed. */
    ghost predicate GivenUp(id: string)
      reads this, journal
    {
      exists e: JournalEntry, ok: bool :: LastChange(Append(e), ok) && e.operationId == id && e.stage.Failed?
    }

    /** The catch block before any submission: the operation is marked as failed. */
    method GiveUp(i: nat)
      requires Valid() && i < |runs| && runs[i].origin.Owner? && runs[i].pc.GivingUp?
      modifies this, journal
      ensures Valid() && i < |runs| && runs[i] == Run(old(runs[i]).origin, Done)
      ensures Took(i, 0) && GivenUp(IdOf(old(runs[i])))
    {
      hide After, AppendIn, RecoveryPlan, SubmitPlan, Submissions, Crashes, LastChange;
      var m := Await(i);
      var entry := JournalEntry(runs[i].origin.seed.operationId, m.at, Failed, None, runs[i].pc.lastLedger, None, None, Some("signing"));
      var ok := Commit(i, m, Append(entry), Done, Done);
    }

    method SubmitSignedTransaction(i: nat, blob: string) returns (r: Result<Status, Failure>)
      requires Valid() && i < |runs| && runs[i].pc == ToSign(blob)
      modifies this, journal
      ensures Valid() && i < |runs| && runs[i] == Run(old(runs[i]).origin, Done)
      ensures Took(i, 0) || Took(i, 1)
      ensures r.Ok? ==> Took(i, 1) && Journaled(IdOf(old(runs[i])), r.value)
      ensures r == Err(NotSubmittable) <==> !IsSubmittable(blob, wire)
      ensures r == Err(JournalFailed) ==> JournalRefused()
      ensures r == Err(NotSubmittable) || r == Err(GuardFailed) ==> Took(i, 0)
      ensures r == Err(StatusUnavailable) ==> Took(i, 1)
      ensures r != Err(NotPrepared) && r != Err(SigningFailed)
    {
      hide After, IsSubmittable, LastLedgerOf, AppendIn, IsTem, OwnerPlan, RecoveryPlan, Submissions, Crashes, LastChange,
           Journaled, IsOnRecord;
      var id := IdOf(runs[i]);
      var m := Await(i);
      if !IsSubmittable(blob, wire) {
        MoveTo(i, m, Done);
        return Err(NotSubmittable);
      }
      var owner := runs[i].origin.Owner?;
      var ok := Commit(i, m, Append(Entry(id, m.at, Signed, blob, wire, None, None, None)),
                       if owner then BeforeSubmit(blob) else Ready(blob), Done);
      if !ok { return Err(JournalFailed); }
      if owner {
        var passed := PassBeforeSubmit(i, blob);
        if !passed { return Err(GuardFailed); }
      }
      r := SubmitAndReconcile(i, blob);
    }

    /** The caller's own guard, right before the submission; where it fails, the signed blob is kept. */
    method PassBeforeSubmit(i: nat, blob: string) returns (passed: bool)
      requires Valid() && i < |runs| && runs[i].pc == BeforeSubmit(blob)
      modifies this, journal
      ensures Valid() && i < |runs| && runs[i] == Run(old(runs[i]).origin, if passed then Ready(blob) else Done)
      ensures Took(i, 0)
    {
      hide After, LastLedgerOf, AppendIn, OwnerPlan, RecoveryPlan, Submissions, Crashes, LastChange;
      var m := Await(i);
      passed := !m.input.Breaks?;
      MoveTo(i, m, if passed then Ready(blob) else Holding(blob));
      if !passed {
        m := Await(i);
        var _ := Commit(i, m, Append(Entry(IdOf(runs[i]), m.at, Signed, blob, wire, None, None, Some("held"))), Done, Done);
      }
    }

    method SubmitAndReconcile(i: nat, blob: string) returns (r: Result<Status, Failure>)
      requires Valid() && i < |runs| && runs[i].pc == Ready(blob)
      modifies this, journal
      ensures Valid() && i < |runs| && runs[i] == Run(old(runs[i]).origin, Done)
      ensures Took(i, 1)
      ensures r.Ok? ==> Journaled(IdOf(old(runs[i])), r.value)
      ensures r.Err? ==> r.error.StatusUnavailable? || (r.error.JournalFailed? && JournalRefused())
    {
      hide After, LastLedgerOf, AppendIn, IsTem, OwnerPlan, RecoveryPlan, SubmitPlan, Submissions, Crashes, LastChange,
           Journaled, IsOnRecord;
      var m := Await(i);
      Submit(i, m, blob);
      var finished := Acknowledge(i, blob);
      if finished.Some? { return finished.value; }
      r := Reconcile(i, blob);
    }

    /** The last thing that happened was an entry, gone through, that says of this blob that it is submitted or pending. */
    ghost predicate IsOnRecord(id: string, blob: string)
      reads this, journal
    {
      exists e: JournalEntry ::
        LastChange(Append(e), true) && e.operationId == id && Exact(e, blob, wire) && (e.stage.Submitted? || e.stage.Pending?)
    }

    /**
     The journal entries right after the submission. None means that the transaction is still to be reconciled, and
     the last thing journaled then says that it was submitted or is pending.
     */
    method Acknowledge(i: nat, blob: string) returns (finished: Option<Result<Status, Failure>>)
      requires Valid() && i < |runs|
      requires runs[i].pc == Unacknowledged(blob) || (runs[i].pc.Acknowledged? && runs[i].pc.blob == blob)
      modifies this, journal
      ensures Valid() && i < |runs| && runs[i] == Run(old(runs[i]).origin, if finished.Some? then Done else Waiting(blob))
      ensures Took(i, 0)
      ensures finished.None? ==> IsOnRecord(IdOf(old(runs[i])), blob)
      ensures finished.Some? ==>
                if finished.value.Ok?
                then finished.value.value.kind.IsNotFound? && Journaled(IdOf(old(runs[i])), finished.value.value)
                else finished.value.error.JournalFailed? && JournalRefused()
    {
      hide After, LastLedgerOf, AppendIn, IsTem, OwnerPlan, RecoveryPlan, SubmitPlan, Submissions, Crashes, LastChange,
           Journaled, IsOnRecord, JournalRefused;
      if runs[i].pc.Acknowledged? {
        var result := runs[i].pc.engineResult;
        var ok := MarkSubmitted(i, blob, result);
        if ok && !IsTem(result) { return None; }
        if ok {
          var refused := MarkRefused(i, blob, result);
          if refused { return Some(Ok(Status(IsNotFound, None, None))); }
        }
      }
      var pending := MarkPending(i, blob);
      return if pending then None else Some(Err(JournalFailed));
    }

    method MarkSubmitted(i: nat, blob: string, result: Option<string>) returns (ok: bool)
      requires Valid() && i < |runs| && runs[i].pc == Acknowledged(blob, result)
      modifies this, journal
      ensures Valid() && i < |runs|
      ensures runs[i] == Run(old(runs[i]).origin,
                             if !ok then Unacknowledged(blob) else if IsTem(result) then Refused(blob, result)
                             else Waiting(blob))
      ensures Took(i, 0) && (ok ==> IsOnRecord(IdOf(old(runs[i])), blob))
    {
      hide After, LastLedgerOf, AppendIn, OwnerPlan, RecoveryPlan, Submissions, Crashes, LastChange, IsTem;
      var m := Await(i);
      ok := Commit(i, m, Append(Entry(IdOf(runs[i]), m.at, Submitted, blob, wire, result, None, None)),
                   if IsTem(result) then Refused(blob, result) else Waiting(blob), Unacknowledged(blob));
    }

    method MarkRefused(i: nat, blob: string, result: Option<string>) returns (ok: bool)
      requires Valid() && i < |runs| && runs[i].pc == Refused(blob, result)
      modifies this, journal
      ensures Valid() && i < |runs| && runs[i] == Run(old(runs[i]).origin, if ok then Done else Unacknowledged(blob))
      ensures Took(i, 0)
      ensures ok && IsTem(result) ==> Journaled(IdOf(old(runs[i])), Status(IsNotFound, None, None))
    {
      hide After, LastLedgerOf, AppendIn, OwnerPlan, RecoveryPlan, Submissions, Crashes, LastChange, IsTem;
      var m := Await(i);
      ok := Commit(i, m, Append(Entry(IdOf(runs[i]), m.at, Failed, blob, wire, result, None, Some("malformed"))),
                   Done, Unacknowledged(blob));
    }

    method MarkPending(i: nat, blob: string) returns (ok: bool)
      requires Valid() && i < |runs| && runs[i].pc == Unacknowledged(blob)
      modifies this, journal
      ensures Valid() && i < |runs| && runs[i] == Run(old(runs[i]).origin, if ok then Waiting(blob) else Done)
      ensures Took(i, 0)
      ensures if ok then IsOnRecord(IdOf(old(runs[i])), blob) else JournalRefused()
    {
      hide After, LastLedgerOf, AppendIn, OwnerPlan, RecoveryPlan, Submissions, Crashes, LastChange;
      var m := Await(i);
      ok := Commit(i, m, Append(Entry(IdOf(runs[i]), m.at, Pending, blob, wire, None, None, Some("unacknowledged"))),
                   Waiting(blob), Done);
    }

    /** Polling until the transaction is settled, the deadline has passed with the last poll, or a request fails. */
    method WaitForTransaction(polls: seq<Option<Status>>) returns (answer: Input)
      requires polls != []
      ensures exists k: nat :: EndsWaiting(polls, k, answer)
    {
      var k := 0;
      while true
        invariant 0 <= k < |polls|
        invariant forall j :: 0 <= j < k ==> polls[j].Some? && !IsSettled(polls[j].value)
        decreases |polls| - k
      {
        if polls[k].None? {
          assert EndsWaiting(polls, k, Breaks);
          return Breaks;
        }
        var status := polls[k].value;
        if status.kind.IsValidated? || status.kind.IsExpired? {
          assert EndsWaiting(polls, k, Reports(status));
          return Reports(status);
        }
        if k == |polls| - 1 {
          answer := Reports(status.(kind := IsPending));
          assert EndsWaiting(polls, k, answer);
          return;
        }
        k := k + 1;
      }
    }

    /** A status comes back only as it was journaled last; otherwise the requests or the journal failed. */
    method Reconcile(i: nat, blob: string) returns (r: Result<Status, Failure>)
      requires Valid() && i < |runs| && runs[i].pc == Waiting(blob)
      modifies this, journal
      ensures Valid() && i < |runs| && runs[i] == Run(old(runs[i]).origin, Done)
      ensures Took(i, 0)
      ensures r.Ok? ==> !r.value.kind.IsNotFound? && Journaled(IdOf(old(runs[i])), r.value)
      ensures r.Err? ==> r.error.StatusUnavailable? || (r.error.JournalFailed? && JournalRefused())
    {
      hide After, LastLedgerOf, AppendIn, OwnerPlan, RecoveryPlan, Submissions, Crashes, LastChange;
      var m := Await(i);
      var answer := WaitForTransaction([m.poll] + m.more);
      m := m.(input := answer);
      if answer.Breaks? {
        MoveTo(i, m, Done);
        return Err(StatusUnavailable);
      }
      var status := answer.status;
      MoveTo(i, m, Reported(blob, status));
      m := Await(i);
      var entry := Entry(IdOf(runs[i]), m.at, StageOf(status), blob, wire, status.result, status.ledgerIndex, None);
      var ok := Commit(i, m, Append(entry), Done, Done);
      return if ok then Ok(status) else Err(JournalFailed);
    }

    /** The lock must be owned before and after the readiness check. */
    method PassGuards(i: nat, id: string, blob: string) returns (owned: bool)
      requires Valid() && i < |runs| && runs[i].origin == Recovery(id) && runs[i].pc == Guarding(blob, 2)
      modifies this, journal
      ensures Valid() && i < |runs| && runs[i] == Run(old(runs[i]).origin, if owned then ToSign(blob) else Done)
      ensures Took(i, 0)
    {
      hide After, HoldsLock, KeyOf, OwnerPlan, SubmitPlan, Submissions, Crashes, LastChange;
      var checks := 2;
      while checks > 0
        invariant Valid() && 0 <= checks <= 2 && i < |runs| && Took(i, 0)
        invariant runs[i] == Run(old(runs[i]).origin, if checks > 0 then Guarding(blob, checks) else ToSign(blob))
      {
        var m := Await(i);
        owned := journal.AssertBusinessLockOwned(id);
        if m.input.Breaks? || !owned {
          MoveTo(i, m, Done);
          return false;
        }
        MoveTo(i, m, if checks > 1 then Guarding(blob, checks - 1) else ToSign(blob));
        checks := checks - 1;
      }
      return true;
    }

    /**
     Taking up a stored operation again, in this tab or after a restart; it is submitted once at most. A status comes
     back only as it was journaled last, and without a submission only when the transaction was settled already.
     */
    method RetryOperation(i: nat) returns (r: Result<Status, Failure>)
      requires Valid() && i < |runs| && runs[i].origin.Recovery? && runs[i].pc.Start?
      modifies this, journal
      ensures Valid() && i < |runs| && runs[i] == Run(old(runs[i]).origin, Done)
      ensures Took(i, 0) || Took(i, 1)
      ensures r.Ok? ==> Journaled(IdOf(old(runs[i])), r.value) && (IsSettled(r.value) || Took(i, 1))
      ensures r == Err(NotSubmittable) || r == Err(GuardFailed) ==> Took(i, 0)
      ensures r == Err(JournalFailed) ==> JournalRefused()
      ensures r != Err(NotPrepared) && r != Err(SigningFailed)
    {
      hide After, LastLedgerOf, AppendIn, IsRecoveryMaterial, HoldsLock, KeyOf, OwnerPlan, SubmitPlan, Submissions, Crashes,
           LastChange, IsSubmittable, Journaled;
      var id := runs[i].origin.operationId;
      var m := Await(i);
      var store := journal.operations;
      if id !in store || !CanRetry(store[id], rules) || !HasHash(store[id]) || !IsRecoveryMaterial(store[id], wire) {
        MoveTo(i, m, Done);
        return Err(NotSubmittable);
      }
      var blob := store[id].txBlob.value;
      MoveTo(i, m, Known(blob));
      r := CheckAndSubmit(i, id, blob);
    }

    method Settle(i: nat, id: string, blob: string, status: Status) returns (r: Result<Status, Failure>)
      requires Valid() && i < |runs| && runs[i].origin == Recovery(id) && runs[i].pc == Settling(blob, status)
      requires IsSettled(status)
      modifies this, journal
      ensures Valid() && i < |runs| && runs[i] == Run(old(runs[i]).origin, Done)
      ensures Took(i, 0) && if r.Ok? then r == Ok(status) && Journaled(id, status)
                            else r == Err(JournalFailed) && JournalRefused()
    {
      hide After, LastLedgerOf, AppendIn, IsRecoveryMaterial, OwnerPlan, SubmitPlan, Submissions, Crashes, LastChange,
           OwnsLock;
      var m := Await(i);
      var entry := Entry(id, m.at, StageOf(status), blob, wire, status.result, status.ledgerIndex, None);
      var ok := Commit(i, m, Append(entry), Done, Done);
      return if ok then Ok(status) else Err(JournalFailed);
    }

    /** The blob may have been submitted before: unless it is settled by now, it is submitted again. */
    method CheckAndSubmit(i: nat, id: string, blob: string) returns (r: Result<Status, Failure>)
      requires Valid() && i < |runs| && runs[i].origin == Recovery(id) && runs[i].pc == Known(blob)
      modifies this, journal
      ensures Valid() && i < |runs| && runs[i] == Run(old(runs[i]).origin, Done)
      ensures Took(i, 0) || Took(i, 1)
      ensures r.Ok? ==> Journaled(id, r.value) && (IsSettled(r.value) || Took(i, 1))
      ensures r == Err(NotSubmittable) || r == Err(GuardFailed) ==> Took(i, 0)
      ensures r == Err(JournalFailed) ==> JournalRefused()
      ensures r != Err(NotPrepared) && r != Err(SigningFailed)
    {
      hide After, LastLedgerOf, AppendIn, IsRecoveryMaterial, HoldsLock, KeyOf, OwnerPlan, SubmitPlan, Submissions, Crashes,
           LastChange, IsSubmittable, Journaled, JournalRefused;
      var m := Await(i);
      if !m.input.Reports? {
        MoveTo(i, m, Done);
        return Err(StatusUnavailable);
      }
      var status := m.input.status;
      if status.kind.IsValidated? || status.kind.IsExpired? {
        MoveTo(i, m, Settling(blob, status));
        r := Settle(i, id, blob, status);
        return;
      }
      MoveTo(i, m, Guarding(blob, 2));
      var owned := PassGuards(i, id, blob);
      if !owned { return Err(GuardFailed); }
      r := SubmitSignedTransaction(i, blob);
    }
  }

  /** From where a blob is ready, the only step is to submit it. */
  lemma ReadySends(run: Run, input: Input, store: Store, at: string, wire: Wire, rules: Rules)
    ensures run.pc.Ready? ==> PlanOf(run, input, store, at, wire, rules).sends.Some?
  {
  }

  /** Actions of other tabs leave a run where it is. */
  lemma RunsStay(w: World, a: Action, wire: Wire, rules: Rules, i: nat)
    requires i < |w.runs| && !(a.Advance? && a.i == i) && !(a.Crash? && a.crashed == i)
    ensures i < |Act(w, a, wire, rules).runs| && Act(w, a, wire, rules).runs[i] == w.runs[i]
  {
    hide PlanOf, Apply, Outcome;
  }
}
