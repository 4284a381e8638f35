/**
 The web API's gate in front of every answer: a ready status with a live lease, agreeing with the newest checkpoint.
 Whatever honest writers did before, the stored evidence itself never makes the gate refuse.
 */
module StatusReader {
  import opened Base
  import opened ProjectLedger
  import opened ProjectionStore
  import opened Replay
  import opened CredentialHistory
  import opened Lifecycle
  import opened Progress
  import opened SchemaHistory
  import opened Fencing
  import opened Fleet

  datatype Unavailable =
    | INDEXER_STATUS_UNAVAILABLE
    | INDEXER_HALTED
    | INDEXER_NOT_READY
    | INDEXER_LEASE_EXPIRED
    | INDEXER_EVIDENCE_INVALID
    | INDEXER_NOT_INITIALIZED
    | INDEXER_STALE

  predicate NonNullUint32(n: Option<int>) {
    n.Some? && IsUint32(n.value)
  }

  function IndexerReady(status: Option<StatusRow>, now: int): Option<Unavailable> {
    if status.None? then Some(INDEXER_STATUS_UNAVAILABLE)
    else if status.value.state.Halted? then Some(INDEXER_HALTED)
    else if !status.value.state.Ready? then Some(INDEXER_NOT_READY)
    else if status.value.writerId.None? || status.value.leaseExpiresAt.None? || status.value.leaseExpiresAt.value <= now
    then Some(INDEXER_LEASE_EXPIRED)
    else if !NonNullUint32(status.value.primaryTip) || !NonNullUint32(status.value.secondaryTip)
            || !NonNullUint32(status.value.agreedIndex) || status.value.agreedHash.None?
            || status.value.agreedIndex.value != Min(status.value.primaryTip.value, status.value.secondaryTip.value)
    then Some(INDEXER_EVIDENCE_INVALID)
    else None
  }

  /** `isFresh` stands for the comparison of the close time with the wall clock. */
  function AuthoritativeEvidence(
    status: Option<StatusRow>, checkpoint: Option<Checkpoint>, now: int, isFresh: nat -> bool,
    minimum: int, indexes: seq<int>): Option<Unavailable>
  {
    var notReady := IndexerReady(status, now);
    if notReady.Some? then notReady
    else if checkpoint.None? then Some(INDEXER_NOT_INITIALIZED)
    else
      var c := checkpoint.value;
      if status.value.agreedIndex.value != c.ledgerIndex || status.value.agreedHash.value != c.ledgerHash
         || c.transactionRoot.None? || !IsUint32(c.ledgerIndex) || !IsUint32(c.closeTime)
      then Some(INDEXER_EVIDENCE_INVALID)
      else if minimum < 0 || minimum > c.ledgerIndex
              || exists i :: 0 <= i < |indexes| && (indexes[i] < minimum || indexes[i] > c.ledgerIndex)
      then Some(INDEXER_EVIDENCE_INVALID)
      else if !isFresh(c.closeTime) then Some(INDEXER_STALE)
      else None
  }

  /** A ledger index that some stored row of the projection carries. */
  predicate IsStoredIndex(t: Tables, index: int) {
    || (exists i :: 0 <= i < |t.generations|
                    && (t.generations[i].createdLedgerIndex == index || t.generations[i].lastLedgerIndex == index))
    || (exists i :: 0 <= i < |t.events| && t.events[i].ledgerIndex == index)
    || (exists uid :: uid in t.schemas && t.schemas[uid].ledgerIndex == index)
    || (exists hash :: hash in t.schemaEvents && t.schemaEvents[hash].ledgerIndex == index)
  }

  /** Every ledger index in the tables lies between activation and the newest checkpoint. */
  lemma StoredIndexesAreCovered(s: Setting, n: nat, index: int)
    requires Plausible(s, n) && ReplayOf(s, n).Ok? && IsStoredIndex(ReplayOf(s, n).value.tables, index)
    ensures s.profile.activationIndex <= index < s.profile.activationIndex + n
  {
    hide ReplayOf, Plausible, Sound, RegistrationAt, Tracks, Shaped, Story, AllCounted, HistoryAdvance;
    var t := ReplayOf(s, n).value.tables;
    PlausibleIsSound(s, n);
    StuckExactly(s, n);
    SchemaRowsAreExact(s, n);
    if i :| 0 <= i < |t.generations|
            && (t.generations[i].createdLedgerIndex == index || t.generations[i].lastLedgerIndex == index) {
      GenerationIndexes(s, n, t, i);
    } else if i :| 0 <= i < |t.events| && t.events[i].ledgerIndex == index {
      assert EventPlaced(s, t.events[i], n, 0, 0);
    } else if uid :| uid in t.schemas && t.schemas[uid].ledgerIndex == index {
      assert IsSchemaOf(s, n, 0, uid, t.schemas[uid]);
    } else {
      var hash :| hash in t.schemaEvents && t.schemaEvents[hash].ledgerIndex == index;
      assert IsEventOf(s, n, 0, hash, t.schemaEvents[hash]);
    }
  }

  lemma GenerationIndexes(s: Setting, n: nat, t: Tables, i: nat)
    requires Told(t.generations, t.events) && Placed(s, n, 0, 0, false, t) && i < |t.generations|
    ensures s.profile.activationIndex <= t.generations[i].createdLedgerIndex < s.profile.activationIndex + n
    ensures s.profile.activationIndex <= t.generations[i].lastLedgerIndex < s.profile.activationIndex + n
  {
    var g := t.generations[i];
    StoryAt(t.generations, t.events, i);
    var es := EventsOf(t.events, g.generationId);
    SelectedAreOrdered(t.events, g.generationId);
    assert es[|es| - 1] in t.events;
    assert GenerationPlaced(s, g, n, 0, false);
  }

  /**
   The evidence clauses of the gate hold on every ready row: after any honest log over a plausible history, the
   answer is decided by the state, the lease and the clock alone, for whichever stored rows a route looks at.
   */
  lemma ReadyIsAuthoritative(s: Setting, log: seq<Op>, now: int, isFresh: nat -> bool, indexes: seq<int>)
    requires HonestLog(s, log) && Plausible(s, |Run(s, log).tables.checkpoints|)
    requires forall i :: 0 <= i < |indexes| ==> IsStoredIndex(Run(s, log).tables, indexes[i])
    ensures var db := Run(s, log);
            var newest := Newest(db.tables.checkpoints);
            AuthoritativeEvidence(db.status, newest, now, isFresh, s.profile.activationIndex, indexes) ==
            if db.status.None? then Some(INDEXER_STATUS_UNAVAILABLE)
            else if db.status.value.state.Halted? then Some(INDEXER_HALTED)
            else if !db.status.value.state.Ready? then Some(INDEXER_NOT_READY)
            else if db.status.value.leaseExpiresAt.None? || db.status.value.leaseExpiresAt.value <= now
            then Some(INDEXER_LEASE_EXPIRED)
            else if newest.Some? && !isFresh(newest.value.closeTime) then Some(INDEXER_STALE)
            else None
  {
    hide Run, HonestLog, Plausible, ReplayOf, IsStoredIndex, Newest;
    var db := Run(s, log);
    var n := |db.tables.checkpoints|;
    PlausibleIsSound(s, n);
    EveryRunIsConsistent(s, log);
    NewestStored(s, n);
    forall i | 0 <= i < |indexes|
      ensures s.profile.activationIndex <= indexes[i] < s.profile.activationIndex + n
    {
      StoredIndexesAreCovered(s, n, indexes[i]);
    }
  }

  lemma NewestStored(s: Setting, n: nat)
    requires Plausible(s, n) && ReplayOf(s, n).Ok?
    ensures var rows := ReplayOf(s, n).value.tables.checkpoints;
            && |rows| == n
            && Newest(rows) == (if n == 0 then None else Some(CheckpointOf(LedgerAt(s, n - 1))))
            && (n > 0 ==>
                  && LedgerAt(s, n - 1).index == s.profile.activationIndex + n - 1
                  && IsUint32(LedgerAt(s, n - 1).index) && IsUint32(LedgerAt(s, n - 1).closeTime))
  {
    hide Sound, ReplayOf, HistoryAdvance, IsHistory;
    ReplayCheckpoints(s, n);
    if n > 0 {
      EarlierReplay(s, n - 1, n);
      NewestOfReplay(s, n - 1);
      assert HasLedgerShape(LedgerAt(s, n - 1));
      PositionOfLedger(s, n - 1);
    }
  }

  /**
   A current writer's next ledger is accepted exactly when its status is acceptable and no object was accepted or
   deleted that could not be followed; in that case a live generation is missing.
   */
  lemma CurrentWriterFailsExactly(s: Setting, log: seq<Op>, token: Token, u: StatusUpdate, now: int)
    requires HonestLog(s, log) && Plausible(s, |Run(s, log).tables.checkpoints| + 1)
    requires IsToken(token) && IsActive(Run(s, log).status, token, now)
    ensures var db := Run(s, log);
            var r := PersistWithStatus(s.profile, db, token, NextProjection(s, db.tables), u, now);
            && (r.Ok? <==> !u.state.Halted? && IsAcceptable(u)
                           && !HistoryAdvance(s, |db.tables.checkpoints| + 1).value.stranded)
            && (r.Ok? ==> r.value.1 == Inserted)
            && (r == Err(NoLiveGeneration) <==> HistoryAdvance(s, |db.tables.checkpoints| + 1).value.stranded)
  {
    hide Run, HonestLog, Plausible, ReplayOf, Persist, NextProjection, IsAcceptable, IsWriterId, HistoryAdvance;
    var db := Run(s, log);
    PlausibleIsSound(s, |db.tables.checkpoints| + 1);
    EveryRunIsConsistent(s, log);
    StuckExactly(s, |db.tables.checkpoints| + 1);
    NextGoesOn(s, db.tables);
  }

  lemma NextGoesOn(s: Setting, tables: Tables)
    requires Sound(s) && IsReplay(s, tables)
    ensures var r := Persist(tables, s.profile, NextProjection(s, tables));
            match ReplayOf(s, |tables.checkpoints| + 1)
            case Ok(_) => r.Ok? && r.value.1 == Inserted
            case Err(e) => r == Err(e)
  {
    hide Sound, ReplayOf, Project, Persist;
    PersistIsReplayStep(s, |tables.checkpoints|);
  }
}
