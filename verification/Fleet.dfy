/**
 Any number of writers on one database, as one log of atomic operations.

 Every operation names the token it runs under. A writer of the indexer's own program is honest: when its token is
 still current, the ledger it persists is the next one projected against the stored catalog, and a `ready` status
 names the newest checkpoint. Nothing is asked of operations whose token is outdated.
 */
module Fleet {
  import opened Base
  import opened LedgerModel
  import opened ProjectLedger
  import opened ProjectionStore
  import opened Replay
  import opened Fencing

  /** The whole database of one profile. */
  datatype Db = Db(status: Option<StatusRow>, tables: Tables)

  const EmptyDb := Db(None, EmptyTables)

  datatype Op =
    | AcquireOp(writerId: string, durationMs: int, now: int)
    | RenewOp(token: Token, durationMs: int, now: int)
    | UpdateOp(token: Token, update: StatusUpdate, now: int)
    | ReleaseOp(token: Token)
    | HaltOp(token: Token, update: StatusUpdate, errorCode: string)
    | PersistOp(token: Token, projection: Projection, update: StatusUpdate, now: int)

  function WithStatus(db: Db, row: Result<StatusRow, LeaseError>): Db {
    if row.Ok? then db.(status := Some(row.value)) else db
  }

  /** The rows and the status of one persisted ledger commit together or not at all. */
  function PersistWithStatus(profile: Profile, db: Db, token: Token, p: Projection, u: StatusUpdate, now: int)
    : Result<(Db, Outcome), PersistError>
  {
    if !IsToken(token) || !IsActive(db.status, token, now) then Err(PersistError.LeaseLost)
    else
      match Persist(db.tables, profile, p)
      case Err(e) => Err(e)
      case Ok((tables, outcome)) =>
        match UpdateStatus(db.status, token, u, now)
        case Err(_) => Err(StatusRejected)
        case Ok(row) => Ok((Db(Some(row), tables), outcome))
  }

  function Apply(profile: Profile, db: Db, op: Op): Db {
    match op
    case AcquireOp(writerId, durationMs, now) => WithStatus(db, Acquire(db.status, writerId, durationMs, now))
    case RenewOp(token, durationMs, now) => WithStatus(db, Renew(db.status, token, durationMs, now))
    case UpdateOp(token, update, now) => WithStatus(db, UpdateStatus(db.status, token, update, now))
    case ReleaseOp(token) => WithStatus(db, Release(db.status, token))
    case HaltOp(token, update, errorCode) => WithStatus(db, Halt(db.status, token, update, errorCode))
    case PersistOp(token, p, u, now) =>
      match PersistWithStatus(profile, db, token, p, u, now)
      case Err(_) => db
      case Ok((after, _)) => after
  }

  // ---- Honest writers --------------------------------------------------------------------------

  /** The projection of the ledger after the newest checkpoint, against the stored catalog. */
  function NextProjection(s: Setting, tables: Tables): Projection {
    var ledger := LedgerAt(s, |tables.checkpoints|);
    ProjectionOf(ledger, Project(ledger, s.profile, CatalogOf(tables.schemas, s.profile.networkId), s.codec))
  }

  predicate Names(u: StatusUpdate, ledgerIndex: int, ledgerHash: string) {
    u.agreedIndex == Some(ledgerIndex) && u.agreedHash == Some(ledgerHash)
  }

  predicate NamesNewest(u: StatusUpdate, checkpoints: seq<Checkpoint>) {
    var newest := Newest(checkpoints);
    newest.Some? && Names(u, newest.value.ledgerIndex, newest.value.ledgerHash)
  }

  predicate Honest(s: Setting, db: Db, op: Op) {
    match op
    case UpdateOp(token, u, now) =>
      IsActive(db.status, token, now) && u.state.Ready? ==> NamesNewest(u, db.tables.checkpoints)
    case PersistOp(token, p, u, now) =>
      IsActive(db.status, token, now) ==>
        p == NextProjection(s, db.tables) && Names(u, p.ledger.index, p.ledger.hash)
    case _ => true
  }

  function Run(s: Setting, log: seq<Op>): Db {
    if log == [] then EmptyDb
    else Apply(s.profile, Run(s, log[..|log| - 1]), log[|log| - 1])
  }

  predicate HonestLog(s: Setting, log: seq<Op>) {
    log == []
    || (HonestLog(s, log[..|log| - 1]) && Honest(s, Run(s, log[..|log| - 1]), log[|log| - 1]))
  }

  lemma RunAppended(s: Setting, log: seq<Op>, op: Op)
    ensures Run(s, log + [op]) == Apply(s.profile, Run(s, log), op)
    ensures HonestLog(s, log + [op]) <==> HonestLog(s, log) && Honest(s, Run(s, log), op)
  {
    assert (log + [op])[..|log|] == log;
  }

  // ---- What every run keeps -----------------------------------------------------------------------

  /** The tables are the pure fold over the first ledgers, as many as there are checkpoints. */
  ghost predicate IsReplay(s: Setting, tables: Tables) {
    var n := |tables.checkpoints|;
    ReplayOf(s, n).Ok? && ReplayOf(s, n).value.tables == tables
  }

  /** What a published status promises; the table's own check constraints are part of it. */
  predicate StatusHolds(row: StatusRow, checkpoints: seq<Checkpoint>) {
    && 1 <= row.epoch <= MAX_SAFE_EPOCH
    && (row.writerId.Some? ==> IsWriterId(row.writerId.value))
    && (row.writerId.Some? <==> row.leaseExpiresAt.Some?)
    && (row.state.Halted? ==> row.writerId.None?) && (row.state.Ready? ==> row.writerId.Some?)
    && (row.errorCode.Some? <==> row.state.Halted?)
    && (row.errorCode.Some? ==> IsErrorCode(row.errorCode.value))
    && (row.agreedHash.Some? ==> IsHash(row.agreedHash.value))
    && (row.agreedIndex.Some? <==> row.agreedHash.Some?)
    && NullableUint32(row.primaryTip) && NullableUint32(row.secondaryTip) && NullableUint32(row.agreedIndex)
    && (!row.state.Halted? ==> NotBeyond(row.agreedIndex, row.primaryTip) && NotBeyond(row.agreedIndex, row.secondaryTip))
    && (row.state.Ready? ==>
          && row.primaryTip.Some? && row.secondaryTip.Some? && row.agreedIndex.Some? && row.agreedHash.Some?
          && row.agreedIndex.value == Min(row.primaryTip.value, row.secondaryTip.value)
          && Newest(checkpoints).Some?
          && Newest(checkpoints).value.ledgerIndex == row.agreedIndex.value
          && Newest(checkpoints).value.ledgerHash == row.agreedHash.value)
  }

  ghost predicate Consistent(s: Setting, db: Db) {
    && IsReplay(s, db.tables)
    && (db.status.None? ==> db.tables == EmptyTables)
    && (db.status.Some? ==> StatusHolds(db.status.value, db.tables.checkpoints))
  }

  /** The checkpoints of the fold, one step further. */
  lemma NewestOfReplay(s: Setting, n: nat)
    requires Sound(s) && ReplayOf(s, n).Ok? && ReplayOf(s, n + 1).Ok?
    ensures var rows := ReplayOf(s, n).value.tables.checkpoints;
            var after := ReplayOf(s, n + 1).value.tables.checkpoints;
            && |rows| == n && after == rows + [CheckpointOf(LedgerAt(s, n))]
            && Newest(after) == Some(CheckpointOf(LedgerAt(s, n)))
  {
    hide Sound, ReplayOf, IsHistory, IsChain;
    ReplayCheckpoints(s, n);
    ReplayCheckpoints(s, n + 1);
    SoundHistory(s);
    ReplayIsChain(s, n + 1);
    ChainNewest(ReplayOf(s, n + 1).value.tables.checkpoints, s.profile);
  }

  lemma NextOfReplay(s: Setting, tables: Tables)
    requires Sound(s) && IsReplay(s, tables)
    ensures var r := Persist(tables, s.profile, NextProjection(s, tables));
            r.Ok? ==>
              && r.value.1 == Inserted && IsReplay(s, r.value.0)
              && r.value.0.checkpoints == tables.checkpoints + [CheckpointOf(LedgerAt(s, |tables.checkpoints|))]
              && Newest(r.value.0.checkpoints) == Some(CheckpointOf(LedgerAt(s, |tables.checkpoints|)))
  {
    hide Sound, ReplayOf, Project, Persist, Newest;
    var n := |tables.checkpoints|;
    PersistIsReplayStep(s, n);
    if ReplayOf(s, n + 1).Ok? { NewestOfReplay(s, n); }
  }

  lemma SoundHistory(s: Setting)
    requires Sound(s)
    ensures IsHistory(s)
  {
  }

  lemma HonestStep(s: Setting, db: Db, op: Op)
    requires Sound(s) && Consistent(s, db) && Honest(s, db, op)
    ensures Consistent(s, Apply(s.profile, db, op))
  {
    hide Sound, IsReplay, Persist, NextProjection, Newest, IsWriterId, IsErrorCode, IsHash;
    if op.PersistOp? && IsActive(db.status, op.token, op.now) {
      NextOfReplay(s, db.tables);
      NextLedger(s, db.tables);
    }
  }

  lemma NextLedger(s: Setting, tables: Tables)
    ensures NextProjection(s, tables).ledger == LedgerAt(s, |tables.checkpoints|)
  {
  }

  /**
   After any honest log, whatever its interleaving of writers, restarts, takeovers and refusals, the tables are the
   pure fold of the first ledgers and a published status holds.
   */
  lemma {:induction false} EveryRunIsConsistent(s: Setting, log: seq<Op>)
    requires Sound(s) && HonestLog(s, log)
    ensures Consistent(s, Run(s, log))
    decreases |log|
  {
    hide Sound, Honest, Apply;
    if log == [] {
      NothingYet(s);
    } else {
      EveryRunIsConsistent(s, log[..|log| - 1]);
      HonestStep(s, Run(s, log[..|log| - 1]), log[|log| - 1]);
    }
  }

  /**
   What any reader may rely on in the published status: the lease and its holder go together, a code goes with a halt, the
   agreed hash with its index and never beyond a known tip unless halted, and a ready status has a holder and names the
   newest checkpoint, which is the lower tip.
   */
  lemma EveryStatusIsTruthful(s: Setting, log: seq<Op>)
    requires Sound(s) && HonestLog(s, log) && Run(s, log).status.Some?
    ensures var row, checkpoints := Run(s, log).status.value, Run(s, log).tables.checkpoints;
            && 1 <= row.epoch <= 9_007_199_254_740_991
            && (row.writerId.Some? <==> row.leaseExpiresAt.Some?) && (row.errorCode.Some? <==> row.state == Halted)
            && (row.state == Halted ==> row.writerId.None?) && (row.agreedIndex.Some? <==> row.agreedHash.Some?)
            && (row.state != Halted && row.agreedIndex.Some? && row.primaryTip.Some? ==>
                  row.agreedIndex.value <= row.primaryTip.value)
            && (row.state != Halted && row.agreedIndex.Some? && row.secondaryTip.Some? ==>
                  row.agreedIndex.value <= row.secondaryTip.value)
            && (row.state == Ready ==>
                  && row.writerId.Some? && row.primaryTip.Some? && row.secondaryTip.Some? && row.agreedIndex.Some?
                  && row.agreedIndex.value == (if row.primaryTip.value <= row.secondaryTip.value then row.primaryTip.value
                                               else row.secondaryTip.value)
                  && checkpoints != []
                  && checkpoints[|checkpoints| - 1].ledgerIndex == row.agreedIndex.value
                  && Some(checkpoints[|checkpoints| - 1].ledgerHash) == row.agreedHash)
  {
    hide Sound, HonestLog, Run, IsReplay, IsWriterId, IsErrorCode, IsHash, IsChain, Newest;
    EveryRunIsConsistent(s, log);
    ChainForEver(s, log, []);
    if Run(s, log).tables.checkpoints != [] { ChainNewest(Run(s, log).tables.checkpoints, s.profile); }
  }

  lemma NothingYet(s: Setting)
    ensures Consistent(s, EmptyDb)
  {
  }

  /** Two databases with equally many checkpoints hold the same rows, whatever their writers did. */
  lemma ReplayIsDeterministic(s: Setting, a: seq<Op>, b: seq<Op>)
    requires Sound(s) && HonestLog(s, a) && HonestLog(s, b)
    requires |Run(s, a).tables.checkpoints| == |Run(s, b).tables.checkpoints|
    ensures Run(s, a).tables == Run(s, b).tables
  {
    hide Sound, Honest, Apply, HonestLog, Run;
    EveryRunIsConsistent(s, a);
    EveryRunIsConsistent(s, b);
  }

  // ---- Checkpoints never change ---------------------------------------------------------------------

  /** Honest or not, an operation keeps the chain and every row of it. */
  lemma ChainStep(profile: Profile, db: Db, op: Op)
    requires IsChain(db.tables.checkpoints, profile)
    ensures IsChain(Apply(profile, db, op).tables.checkpoints, profile)
    ensures db.tables.checkpoints <= Apply(profile, db, op).tables.checkpoints
  {
    hide Persist, IsChain, UpdateStatus, Acquire, Renew, Release, Halt;
    if op.PersistOp? && Persist(db.tables, profile, op.projection).Ok? {
      PersistKeepsChain(db.tables, profile, op.projection);
    }
  }

  lemma {:induction false} ChainForEver(s: Setting, log: seq<Op>, more: seq<Op>)
    ensures IsChain(Run(s, log).tables.checkpoints, s.profile)
    ensures Run(s, log).tables.checkpoints <= Run(s, log + more).tables.checkpoints
    decreases |log| + |more|, |more|
  {
    hide Apply, IsChain;
    if more != [] {
      var init := more[..|more| - 1];
      ChainForEver(s, log, init);
      ChainForEver(s, log + init, []);
      assert (log + init) + [] == log + init;
      assert (log + more)[..|log + more| - 1] == log + init;
      ChainStep(s.profile, Run(s, log + init), more[|more| - 1]);
    } else if log != [] {
      ChainForEver(s, log[..|log| - 1], []);
      assert log[..|log| - 1] + [] == log[..|log| - 1] && log + more == log;
      ChainStep(s.profile, Run(s, log[..|log| - 1]), log[|log| - 1]);
    } else {
      assert log + more == log;
      EmptyChain(s.profile);
    }
  }

  /** The checkpoints of any run: gapless from the activation ledger with its hash, each the child of the one before. */
  lemma CheckpointsAreLinked(s: Setting, log: seq<Op>)
    ensures var rows := Run(s, log).tables.checkpoints;
            && (rows != [] ==> rows[0].ledgerHash == Lower(s.profile.activationHash))
            && (forall i :: 0 <= i < |rows| ==> rows[i].ledgerIndex == s.profile.activationIndex + i)
            && (forall i :: 0 < i < |rows| ==> rows[i].parentHash == rows[i - 1].ledgerHash)
  {
    hide Run;
    ChainForEver(s, log, []);
  }

  lemma EmptyChain(profile: Profile)
    ensures IsChain([], profile)
  {
  }

  // ---- Fencing -----------------------------------------------------------------------------------------

  function EpochOf(db: Db): nat {
    if db.status.Some? then db.status.value.epoch else 0
  }

  /** An operation that cannot be made with the token of epoch e. */
  predicate Foreign(op: Op, e: nat) {
    op.AcquireOp? || op.token.epoch != e
  }

  /** The database is unchanged as long as the epoch is. */
  predicate Untouched(before: Db, after: Db, e: nat) {
    && EpochOf(before) <= EpochOf(after)
    && (EpochOf(after) == e ==> EpochOf(before) != e || after == before)
    && (EpochOf(before) > e ==> EpochOf(after) > e)
  }

  /** While epoch e is current no other writer's operation changes anything but by taking the lease over. */
  lemma ForeignStep(profile: Profile, db: Db, op: Op, e: nat)
    requires Foreign(op, e) && e <= EpochOf(db)
    ensures Untouched(db, Apply(profile, db, op), e)
    ensures EpochOf(db) == e ==> Apply(profile, db, op) == db || EpochOf(Apply(profile, db, op)) > e
  {
    hide Persist, IsAcceptable, IsWriterId, IsErrorCode;
  }

  /** Epochs only grow, by one, and only by taking the lease over. */
  lemma EpochStep(profile: Profile, db: Db, op: Op)
    ensures EpochOf(db) <= EpochOf(Apply(profile, db, op)) <= EpochOf(db) + 1
    ensures EpochOf(Apply(profile, db, op)) > EpochOf(db) ==> op.AcquireOp?
    ensures db.status.Some? ==> Apply(profile, db, op).status.Some?
  {
    hide Persist, IsAcceptable, IsWriterId, IsErrorCode;
  }
}
