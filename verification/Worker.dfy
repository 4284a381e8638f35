/**
 The indexer worker: batches of agreed ledgers, projected against a catalog kept in memory and persisted one by one
 under a lease that another writer may take over at any moment.
 */
module Worker {
  import opened Base
  import opened LedgerModel
  import opened Registration
  import opened CredentialMutations
  import opened ProjectLedger
  import opened ProjectionStore
  import opened Replay
  import opened Fencing
  import opened Fleet
  import opened Repository
  import opened LedgerSource

  datatype ReplayTarget = ReplayTarget(ledgerIndex: nat, ledgerHash: string)

  datatype Agreed = Agreed(ledgerIndex: nat, ledgerHash: string)

  datatype WorkerError =
    | SourceFailed(source: SourceError)
    | RepositoryFailed(repository: RepositoryError)
    | ContinuityBroken(continuity: ContinuityError)
    | ReplayTargetUnavailable
    | ReplayTargetMismatch
    | ReplayTargetExceeded
    | CheckpointWithoutEvidence
    | CheckpointMismatch

  function CodeOf(e: WorkerError): string {
    match e
    case SourceFailed(SOURCE_UNAVAILABLE) => "SOURCE_UNAVAILABLE"
    case SourceFailed(SOURCE_DIVERGENCE) => "SOURCE_DIVERGENCE"
    case SourceFailed(SOURCE_NETWORK_MISMATCH) => "SOURCE_NETWORK_MISMATCH"
    case SourceFailed(SOURCE_TIP_REGRESSION) => "SOURCE_TIP_REGRESSION"
    case ContinuityBroken(c) => CodeOfContinuity(c)
    case RepositoryFailed(Refused(NotContinuous(c))) => CodeOfContinuity(c)
    case RepositoryFailed(Refused(CheckpointConflict)) => "CHECKPOINT_CONFLICT"
    case RepositoryFailed(Refused(CheckpointEvidenceMissing)) => "CHECKPOINT_EVIDENCE_MISSING"
    case RepositoryFailed(Refused(LeaseLost)) => "INDEXER_LEASE_LOST"
    case RepositoryFailed(Lease(LeaseLost)) => "INDEXER_LEASE_LOST"
    case RepositoryFailed(Lease(LeaseUnavailable)) => "INDEXER_LEASE_UNAVAILABLE"
    case ReplayTargetUnavailable => "REPLAY_TARGET_UNAVAILABLE"
    case ReplayTargetMismatch => "REPLAY_TARGET_MISMATCH"
    case ReplayTargetExceeded => "REPLAY_TARGET_EXCEEDED"
    case CheckpointWithoutEvidence => "CHECKPOINT_EVIDENCE_MISSING"
    case CheckpointMismatch => "CHECKPOINT_CONFLICT"
    case _ => "INDEXER_FAILED"
  }

  function CodeOfContinuity(c: ContinuityError): string {
    match c
    case LEDGER_BEFORE_ACTIVATION => "LEDGER_BEFORE_ACTIVATION"
    case LEDGER_GAP => "LEDGER_GAP"
    case LEDGER_PARENT_MISMATCH => "LEDGER_PARENT_MISMATCH"
    case ACTIVATION_HASH_MISMATCH => "ACTIVATION_HASH_MISMATCH"
  }

  /** Whatever stops a worker has a code that a halted status may carry, so a halt fails for the lease alone. */
  lemma CodesAreCodes(e: WorkerError)
    ensures IsErrorCode(CodeOf(e))
  {
    hide IsErrorCode;
    SourceCodes();
    ContinuityCodes();
    ReplayCodes();
    OtherCodes();
  }

  lemma SourceCodes()
    ensures IsErrorCode("SOURCE_UNAVAILABLE") && IsErrorCode("SOURCE_DIVERGENCE")
    ensures IsErrorCode("SOURCE_NETWORK_MISMATCH") && IsErrorCode("SOURCE_TIP_REGRESSION")
  {
  }

  lemma ContinuityCodes()
    ensures IsErrorCode("LEDGER_BEFORE_ACTIVATION") && IsErrorCode("LEDGER_GAP")
    ensures IsErrorCode("LEDGER_PARENT_MISMATCH") && IsErrorCode("ACTIVATION_HASH_MISMATCH")
  {
  }

  lemma ReplayCodes()
    ensures IsErrorCode("REPLAY_TARGET_UNAVAILABLE") && IsErrorCode("REPLAY_TARGET_MISMATCH")
    ensures IsErrorCode("REPLAY_TARGET_EXCEEDED") && IsErrorCode("INDEXER_FAILED")
  {
  }

  lemma OtherCodes()
    ensures IsErrorCode("CHECKPOINT_CONFLICT") && IsErrorCode("CHECKPOINT_EVIDENCE_MISSING")
    ensures IsErrorCode("INDEXER_LEASE_LOST") && IsErrorCode("INDEXER_LEASE_UNAVAILABLE")
  {
  }

  lemma HaltFailsForTheLease(row: Option<StatusRow>, token: Token, u: StatusUpdate, e: WorkerError)
    requires IsToken(token) && IsAcceptable(u.(state := Halted))
    ensures Halt(row, token, u, CodeOf(e)).Ok? <==>
              row.Some? && row.value.writerId == Some(token.writerId) && row.value.epoch == token.epoch
    ensures Halt(row, token, u, CodeOf(e)).Ok? ==>
              Halt(row, token, u, CodeOf(e)).value.errorCode == Some(
                match e
                case SourceFailed(SOURCE_UNAVAILABLE) => "SOURCE_UNAVAILABLE"
                case SourceFailed(SOURCE_DIVERGENCE) => "SOURCE_DIVERGENCE"
                case SourceFailed(SOURCE_NETWORK_MISMATCH) => "SOURCE_NETWORK_MISMATCH"
                case SourceFailed(SOURCE_TIP_REGRESSION) => "SOURCE_TIP_REGRESSION"
                case RepositoryFailed(Refused(LeaseLost)) => "INDEXER_LEASE_LOST"
                case RepositoryFailed(Lease(LeaseLost)) => "INDEXER_LEASE_LOST"
                case RepositoryFailed(Refused(CheckpointConflict)) => "CHECKPOINT_CONFLICT"
                case CheckpointMismatch => "CHECKPOINT_CONFLICT"
                case ReplayTargetMismatch => "REPLAY_TARGET_MISMATCH"
                case _ => CodeOf(e))
  {
    hide IsErrorCode;
    CodesAreCodes(e);
  }

  // ---- The catalog kept in memory ------------------------------------------------------------

  function AddAll(catalog: IndexCatalog, rs: seq<SchemaRegistration>, networkId: int, ledgerIndex: nat): IndexCatalog {
    if rs == [] then catalog
    else AddRegistration(AddAll(catalog, rs[..|rs| - 1], networkId, ledgerIndex), rs[|rs| - 1], networkId, ledgerIndex)
  }

  lemma AddedOne(catalog: IndexCatalog, before: Partial, tx: Transaction, ledger: Ledger, profile: Profile, codec:
                 Codec)
    requires AddAll(catalog, before.registrations, profile.networkId, ledger.index) == before.catalog
    ensures var after := Step(before, tx, ledger, profile, codec);
            AddAll(catalog, after.registrations, profile.networkId, ledger.index) == after.catalog
  {
    hide Interpret, AddRegistration, MutationsUpTo, MalformedUpTo;
    var r := Interpret(tx, ledger, profile, before.catalog, codec);
    if r.Some? {
      assert (before.registrations + [r.value])[..|before.registrations|] == before.registrations;
    } else {
      assert before.registrations + [] == before.registrations;
    }
  }

  /** Adding the registrations of a projected ledger afterwards gives the catalog of the projection itself. */
  lemma {:induction false} AddedAfterwards(ledger: Ledger, profile: Profile, catalog: IndexCatalog, codec: Codec, k:
                                           nat)
    requires k <= |ledger.transactions|
    ensures var p := ProjectUpTo(ledger, profile, catalog, codec, k);
            AddAll(catalog, p.registrations, profile.networkId, ledger.index) == p.catalog
    decreases k
  {
    hide Step;
    if k > 0 {
      AddedAfterwards(ledger, profile, catalog, codec, k - 1);
      AddedOne(catalog, ProjectUpTo(ledger, profile, catalog, codec, k - 1), ledger.transactions[k - 1], ledger, profile, codec);
    }
  }

  /** After the next ledger is persisted, the catalog in memory is the one that its tables rebuild. */
  lemma CatalogStaysInStep(s: Setting, before: Tables, after: Tables)
    requires Sound(s) && IsReplay(s, before)
    requires Persist(before, s.profile, NextProjection(s, before)) == Ok((after, Inserted))
    ensures var catalog := CatalogOf(before.schemas, s.profile.networkId);
            var p := NextProjection(s, before);
            AddAll(catalog, p.registrations, s.profile.networkId, p.ledger.index)
            == CatalogOf(after.schemas, s.profile.networkId)
  {
    hide Sound, Persist, CatalogOf, ProjectUpTo, ApplyRows;
    var n := |before.checkpoints|;
    var ledger := LedgerAt(s, n);
    var catalog := CatalogOf(before.schemas, s.profile.networkId);
    PersistIsReplayStep(s, n);
    AgreeIsCatalog(s, n);
    AgreeIsCatalog(s, n + 1);
    AddedAfterwards(ledger, s.profile, catalog, s.codec, |ledger.transactions|);
  }

  // ---- The checkpoints a worker sees ------------------------------------------------------------

  /** What the newest checkpoint is, as far as the fold goes. */
  lemma NewestOfTables(s: Setting, tables: Tables)
    requires Sound(s) && IsReplay(s, tables)
    ensures var n := |tables.checkpoints|;
            Newest(tables.checkpoints) == if n == 0 then None else Some(CheckpointOf(LedgerAt(s, n - 1)))
    ensures |tables.checkpoints| > 0 ==>
              LedgerAt(s, |tables.checkpoints| - 1).index == s.profile.activationIndex + |tables.checkpoints| - 1
  {
    hide Sound, ReplayOf, IsHistory, IsChain;
    var n := |tables.checkpoints|;
    if n > 0 {
      PositionOfLedger(s, n - 1);
      EarlierReplay(s, n - 1, n);
      NewestOfReplay(s, n - 1);
    }
  }

  function StatusForLedger(ledger: Ledger, tips: Tips, state: IndexerState): StatusUpdate {
    StatusUpdate(state, Some(tips.primary), Some(tips.secondary), Some(ledger.index), Some(ledger.hash))
  }

  function RuntimeStatus(tips: Option<Tips>, agreed: Option<Agreed>, state: IndexerState): StatusUpdate {
    StatusUpdate(
      state,
      if tips.Some? then Some(tips.value.primary) else None,
      if tips.Some? then Some(tips.value.secondary) else None,
      if agreed.Some? then Some(agreed.value.ledgerIndex) else None,
      if agreed.Some? then Some(agreed.value.ledgerHash) else None)
  }

  /** Two uint32 tips and the lower one of them. */
  predicate AreTips(tips: Tips) {
    IsUint32(tips.primary) && IsUint32(tips.secondary) && tips.effective == Min(tips.primary, tips.secondary)
  }

  /** What the fold has accepted has the shape that a status asks for. */
  lemma StoredIsPublishable(s: Setting, n: nat)
    requires Sound(s) && ReplayOf(s, n + 1).Ok?
    ensures IsUint32(LedgerAt(s, n).index) && IsHash(LedgerAt(s, n).hash)
    ensures LedgerAt(s, n).index == s.profile.activationIndex + n
  {
    hide Sound, ReplayOf, MeetsConstraints;
    ReplayCheckpoints(s, n + 1);
    LastMeetsConstraints(s, n);
    PositionOfLedger(s, n);
  }

  /** The next ledger is persisted, with its status, exactly when the fold accepts it. */
  lemma NextIsAccepted(s: Setting, tables: Tables, tips: Tips, mayBeReady: bool)
    requires Sound(s) && IsReplay(s, tables)
    ensures var n := |tables.checkpoints|;
            var ledger := LedgerAt(s, n);
            ReplayOf(s, n + 1).Ok? ==>
              && Persist(tables, s.profile, NextProjection(s, tables)).Ok?
              && (AreTips(tips) && ledger.index <= tips.effective ==>
                    IsAcceptable(StatusForLedger(ledger, tips, if mayBeReady && ledger.index == tips.effective then Ready
                                                               else CatchingUp)))
  {
    hide Sound, ReplayOf, Persist, Project, IsHash;
    var n := |tables.checkpoints|;
    PersistIsReplayStep(s, n);
    if ReplayOf(s, n + 1).Ok? { StoredIsPublishable(s, n); }
  }

  lemma LastMeetsConstraints(s: Setting, n: nat)
    requires Sound(s) && ReplayOf(s, n + 1).Ok?
    ensures var rows := ReplayOf(s, n + 1).value.tables.checkpoints;
            |rows| == n + 1 ==> IsCheckpointRow(rows[n])
  {
    hide Sound, Project, ApplyRows;
  }

  /** The numbers from lo up to but not including hi. */
  function Range(lo: nat, hi: nat): (r: seq<nat>)
    requires lo <= hi
    ensures |r| == hi - lo
  {
    seq(hi - lo, i requires 0 <= i < hi - lo => lo + i)
  }

  /** The rounds of up to `size` ledgers that n ledgers need, and one to find out that none is left. */
  function RoundsNeeded(n: nat, size: nat): (rounds: nat)
    requires size >= 1
    ensures 1 <= rounds <= Max(1, n) && n <= rounds * size && (rounds > 1 ==> (rounds - 1) * size < n)
    decreases n
  {
    if n <= size then 1 else 1 + RoundsNeeded(n - size, size)
  }

  lemma {:induction false} MoreNeedsMore(n: nat, m: nat, size: nat)
    requires size >= 1 && n <= m
    ensures RoundsNeeded(n, size) <= RoundsNeeded(m, size)
    decreases n
  {
    if n > size { MoreNeedsMore(n - size, m - size, size); }
  }

  class IndexerWorker {
    const repository: ProjectionRepository
    const source: QuorumLedgerSource
    const writerId: string
    const leaseDurationMs: int
    const batchSize: nat
    const target: Option<ReplayTarget>
    var activeLease: Option<Token>
    var lastTips: Option<Tips>
    var lastAgreed: Option<Agreed>
    var targetVerified: bool
    var completed: bool
    /** How many rounds this worker has begun. */
    ghost var rounds: nat

    static predicate ValidOptions(
      profile: Profile, writerId: string, leaseDurationMs: int, batchSize: nat, target: Option<ReplayTarget>)
    {
      && IsLeaseDuration(leaseDurationMs) && 1 <= batchSize <= 100 && IsWriterId(writerId)
      && (target.Some? ==>
            && 1 <= target.value.ledgerIndex <= UINT32_MAX && IsHash(target.value.ledgerHash)
            && target.value.ledgerIndex >= profile.activationIndex)
    }

    constructor (repository: ProjectionRepository, source: QuorumLedgerSource, writerId: string, leaseDurationMs: int,
                 batchSize: nat, target: Option<ReplayTarget>)
      requires ValidOptions(repository.setting.profile, writerId, leaseDurationMs, batchSize, target)
      requires repository.Valid() && Sound(repository.setting)
      requires Truthful(repository.setting, source.primary, source.secondary)
      ensures Valid() && activeLease.None? && !completed
      ensures this.repository == repository && this.source == source
    {
      this.repository, this.source, this.writerId := repository, source, writerId;
      this.leaseDurationMs, this.batchSize, this.target := leaseDurationMs, batchSize, target;
      activeLease, lastTips, lastAgreed := None, None, None;
      targetVerified, completed, rounds := false, false, 0;
    }

    ghost predicate Valid()
      reads this, repository, source
    {
      && repository.Valid() && Sound(repository.setting)
      && Truthful(repository.setting, source.primary, source.secondary)
      && batchSize >= 1
      && (target.Some? ==> target.value.ledgerIndex >= repository.setting.profile.activationIndex)
      && (target.Some? && targetVerified ==>
            repository.setting.history(target.value.ledgerIndex).hash == target.value.ledgerHash)
    }

    /** The quorum agrees on every ledger up to this one, whenever it is asked. */
    ghost predicate Serves(upTo: nat) {
      forall call: nat, ledgerIndex: nat {:trigger AgreedLedger(source.primary, source.secondary, call, ledgerIndex)} ::
        ledgerIndex <= upTo ==> AgreedLedger(source.primary, source.secondary, call, ledgerIndex).Some?
    }

    /** The token was issued earlier, so its epoch is at most the current one. */
    predicate Issued(token: Token)
      reads repository
    {
      token.epoch <= EpochOf(repository.Snapshot())
    }

    /** With a replay target this worker publishes no `ready` and persists nothing beyond the target. */
    twostate predicate StaysWithinTarget()
      reads this, repository
    {
      && old(repository.ownPersisted) <= repository.ownPersisted
      && (target.Some? ==>
            && repository.ownReady == old(repository.ownReady)
            && forall i :: |old(repository.ownPersisted)| <= i < |repository.ownPersisted| ==>
                 repository.ownPersisted[i] <= target.value.ledgerIndex)
    }

    /** The ledger index up to which a round may go. */
    function Limit(tips: Tips): nat {
      if target.Some? then target.value.ledgerIndex else tips.effective
    }

    method PersistRuntimeStatus(token: Token, state: IndexerState) returns (r: Result<(), WorkerError>)
      requires Valid() && Issued(token)
      requires state.Ready? ==> target.None? && lastAgreed.Some? && lastTips.Some?
      requires state.Ready? && EpochOf(repository.Snapshot()) == token.epoch ==>
                 NamesNewest(RuntimeStatus(lastTips, lastAgreed, state), repository.checkpoints)
      modifies repository
      ensures Valid() && old(repository.log) <= repository.log
      ensures repository.ownPersisted == old(repository.ownPersisted)
      ensures target.Some? ==> repository.ownReady == old(repository.ownReady)
      ensures Quiet(old(repository.Snapshot()), repository.Snapshot(), token.epoch)
      ensures r.Ok? ==> EpochOf(repository.Snapshot()) == token.epoch
      ensures r.Ok? ==> repository.status.Some? && Shows(repository.status.value, RuntimeStatus(lastTips, lastAgreed, state))
      ensures r.Ok? ==>
                var row := repository.status.value;
                && row.state == state
                && row.primaryTip == (if lastTips.Some? then Some(lastTips.value.primary) else None)
                && row.secondaryTip == (if lastTips.Some? then Some(lastTips.value.secondary) else None)
                && row.agreedIndex == (if lastAgreed.Some? then Some(lastAgreed.value.ledgerIndex) else None)
                && row.agreedHash == (if lastAgreed.Some? then Some(lastAgreed.value.ledgerHash) else None)
      ensures old(repository.Calm(token)) ==>
                && repository.Calm(token)
                && (r.Ok? <==> !state.Halted? && IsAcceptable(RuntimeStatus(lastTips, lastAgreed, state)))
    {
      var done := repository.UpdateIndexerStatus(token, RuntimeStatus(lastTips, lastAgreed, state));
      if done.Err? { return Err(RepositoryFailed(done.error)); }
      return Ok(());
    }

    /** The loop that adds the accepted registrations of a persisted ledger to the catalog in memory. */
    method Extend(catalog: IndexCatalog, p: Projection) returns (extended: IndexCatalog)
      ensures extended == AddAll(catalog, p.registrations, repository.setting.profile.networkId, p.ledger.index)
    {
      extended := catalog;
      var rs := p.registrations;
      for i := 0 to |rs|
        invariant extended == AddAll(catalog, rs[..i], repository.setting.profile.networkId, p.ledger.index)
      {
        assert rs[..i + 1][..i] == rs[..i];
        if rs[i].Accepted? {
          extended := extended[rs[i].uid := EntryOf(rs[i], repository.setting.profile.networkId, p.ledger.index)];
        }
      }
      assert rs[..|rs|] == rs;
    }

    /** The token is current, and the worker's own copies of the newest checkpoint and the catalog are those of the tables. */
    ghost predicate InStep(token: Token, previous: Option<Checkpoint>, catalog: IndexCatalog)
      reads repository
    {
      && EpochOf(repository.Snapshot()) == token.epoch
      && IsReplay(repository.setting, repository.Rows())
      && previous == Newest(repository.checkpoints)
      && catalog == CatalogOf(repository.schemas, repository.setting.profile.networkId)
    }

    /** The next agreed ledger, checked against the one before and projected, after the lease was renewed. */
    method ProjectNext(token: Token, previous: Option<Checkpoint>, catalog: IndexCatalog, ledgerIndex: nat)
      returns (r: Result<Projection, WorkerError>)
      requires Valid() && InStep(token, previous, catalog)
      requires ledgerIndex == repository.setting.profile.activationIndex + |repository.checkpoints|
      modifies repository, source
      ensures Valid() && old(repository.log) <= repository.log && Issued(token)
      ensures repository.ownPersisted == old(repository.ownPersisted) && repository.ownReady == old(repository.ownReady)
      ensures r.Ok? ==>
                && InStep(token, previous, catalog) && repository.Rows() == old(repository.Rows())
                && r.value == NextProjection(repository.setting, repository.Rows())
      ensures old(repository.Calm(token)) && IsLeaseDuration(leaseDurationMs) && Serves(ledgerIndex) ==>
                r.Ok? && repository.Calm(token)
    {
      hide Sound, IsReplay, CatalogOf, Continuity, InOrder, HonestLog, Run, Project, Truthful, Newest;
      var s := repository.setting;
      NewestOfTables(s, repository.Rows());
      PositionOfLedger(s, |repository.checkpoints|);
      var renewed := repository.RenewLease(token, leaseDurationMs);
      if renewed.Err? { return Err(RepositoryFailed(renewed.error)); }
      var fetched := source.GetLedger(s, ledgerIndex);
      if fetched.Err? { return Err(SourceFailed(fetched.error)); }
      var ledger := fetched.value;
      match Continuity(s.profile, previous, ledger) {
        case Some(broken) => return Err(ContinuityBroken(broken));
        case None =>
      }
      var projected := ProjectLedger.ProjectLedger(ledger, s.profile, catalog, s.codec);
      match projected {
        case Err(broken) => return Err(ContinuityBroken(broken));
        case Ok(projection) => return Ok(projection);
      }
    }

    /** The conditions under which nothing but the fold itself can refuse this ledger. */
    ghost predicate IsSmooth(tips: Tips, ledgerIndex: nat) {
      IsLeaseDuration(leaseDurationMs) && Serves(ledgerIndex) && AreTips(tips) && ledgerIndex <= tips.effective
    }

    /** One agreed ledger, projected and persisted while the token is current. */
    method ProcessLedger(token: Token, tips: Tips, previous: Option<Checkpoint>, catalog: IndexCatalog, ledgerIndex:
                         nat)
      returns (r: Result<(Ledger, IndexCatalog), WorkerError>)
      requires Valid() && InStep(token, previous, catalog)
      requires ledgerIndex == repository.setting.profile.activationIndex + |repository.checkpoints|
      modifies repository, source
      ensures Valid() && old(repository.log) <= repository.log && Issued(token)
      ensures repository.ownPersisted == old(repository.ownPersisted)
              || repository.ownPersisted == old(repository.ownPersisted) + [ledgerIndex]
      ensures target.Some? ==> repository.ownReady == old(repository.ownReady)
      ensures r.Ok? ==>
                && InStep(token, Some(CheckpointOf(r.value.0)), r.value.1)
                && |repository.checkpoints| == |old(repository.checkpoints)| + 1
                && r.value.0 == LedgerAt(repository.setting, |old(repository.checkpoints)|)
                && repository.ownPersisted == old(repository.ownPersisted) + [ledgerIndex]
      ensures r.Ok? ==>
                && repository.status.Some?
                && var row := repository.status.value;
                && row.state == (if target.None? && ledgerIndex == tips.effective then Ready else CatchingUp)
                && row.primaryTip == Some(tips.primary) && row.secondaryTip == Some(tips.secondary)
                && row.agreedIndex == Some(ledgerIndex) && row.agreedHash == Some(r.value.0.hash)
      ensures old(repository.Calm(token)) && IsSmooth(tips, ledgerIndex) ==>
                && repository.Calm(token)
                && (ReplayOf(repository.setting, |old(repository.checkpoints)| + 1).Ok? ==> r.Ok?)
    {
      hide Sound, IsReplay, CatalogOf, Persist, Continuity, InOrder, HonestLog, Run, Project, Truthful, Newest, Serves,
           AreTips, IsAcceptable, ReplayOf;
      var s := repository.setting;
      var projected := ProjectNext(token, previous, catalog, ledgerIndex);
      if projected.Err? { return Err(projected.error); }
      var p := projected.value;
      ghost var before := repository.Rows();
      PositionOfLedger(s, |repository.checkpoints|);
      NextIsAccepted(s, before, tips, target.None?);
      var ready := target.None? && p.ledger.index == tips.effective;
      var status := StatusForLedger(p.ledger, tips, if ready then Ready else CatchingUp);
      var persisted := repository.PersistLedger(p, token, status);
      if persisted.Err? { return Err(RepositoryFailed(persisted.error)); }
      var extended := Extend(catalog, p);
      NextOfReplay(s, before);
      CatalogStaysInStep(s, before, repository.Rows());
      return Ok((p.ledger, extended));
    }

    /** The index of the ledger after the newest checkpoint. */
    function Next(): nat
      reads repository
    {
      repository.setting.profile.activationIndex + |repository.checkpoints|
    }

    /** How many ledgers a round persists that starts with n checkpoints. */
    function RoundSize(n: nat, tips: Tips): (size: nat)
      requires batchSize >= 1
      ensures size <= batchSize
      ensures var limit := if target.Some? then target.value.ledgerIndex else tips.effective;
              var next := repository.setting.profile.activationIndex + n;
              (size > 0 ==> next + size - 1 <= limit) && (size < batchSize ==> next + size > limit)
    {
      var next := repository.setting.profile.activationIndex + n;
      Max(0, Min(Limit(tips), next + batchSize - 1) - next + 1)
    }

    /** The tips that the sources name when they are asked next. */
    function NextTips(): Option<Tips>
      reads source
    {
      source.TipsAt(source.calls)
    }

    /**
     Nothing stands in a round's way but the fold itself: the lease runs and nobody interferes, the quorum answers, its
     tips do not go back and have reached the newest checkpoint and the target.
     */
    ghost predicate IsSmoothRound(token: Token)
      reads this, repository, source
    {
      && repository.Calm(token) && NextTips().Some? && TipsDoNotRegress(source.lastTips, NextTips().value)
      && IsSmooth(NextTips().value, NextTips().value.effective) && Next() <= NextTips().value.effective + 1
      && (target.Some? ==> targetVerified && target.value.ledgerIndex <= NextTips().value.effective)
      && (repository.checkpoints == [] ==> lastAgreed.None?)
    }

    /** The newest checkpoint and the catalog, read under a renewed lease. */
    method ReadStored(token: Token) returns (r: Result<(Option<Checkpoint>, IndexCatalog), WorkerError>)
      requires Valid() && Issued(token)
      modifies repository, this`lastAgreed
      ensures Valid() && old(repository.log) <= repository.log && Issued(token)
      ensures repository.ownPersisted == old(repository.ownPersisted) && repository.ownReady == old(repository.ownReady)
      ensures Quiet(old(repository.Snapshot()), repository.Snapshot(), token.epoch)
      ensures r.Ok? ==>
                && r.value.1 == CatalogOf(repository.schemas, repository.setting.profile.networkId)
                && (EpochOf(repository.Snapshot()) == token.epoch ==> r.value.0 == Newest(repository.checkpoints))
                && (r.value.0.Some? ==> lastAgreed == Some(Agreed(r.value.0.value.ledgerIndex, r.value.0.value.ledgerHash)))
                && (r.value.0.None? ==> lastAgreed == old(lastAgreed))
      ensures old(repository.Calm(token)) && IsLeaseDuration(leaseDurationMs) ==> r.Ok? && repository.Calm(token)
    {
      hide Sound, IsReplay, CatalogOf, Truthful, HonestLog, Run, Newest, IsToken, IsActive, IsLeaseDuration;
      var renewed := repository.RenewLease(token, leaseDurationMs);
      if renewed.Err? { return Err(RepositoryFailed(renewed.error)); }
      var read := repository.GetLastCheckpoint(token.epoch);
      if read.Err? { return Err(RepositoryFailed(read.error)); }
      var previous := read.value;
      NewestHasRoot();
      if previous.Some? {
        if previous.value.transactionRoot.None? { return Err(CheckpointWithoutEvidence); }
        lastAgreed := Some(Agreed(previous.value.ledgerIndex, previous.value.ledgerHash));
      }
      var entries := repository.GetSchemaCatalog(token.epoch);
      if entries.Err? { return Err(RepositoryFailed(entries.error)); }
      return Ok((previous, entries.value));
    }

    /** The reads that open a round, between two renewals of the lease. */
    method Observe(token: Token) returns (r: Result<(Option<Checkpoint>, IndexCatalog, Tips), WorkerError>)
      requires Valid() && Issued(token)
      modifies repository, source, this`lastAgreed, this`lastTips
      ensures Valid() && old(repository.log) <= repository.log && Issued(token)
      ensures repository.ownPersisted == old(repository.ownPersisted) && repository.ownReady == old(repository.ownReady)
      ensures r.Ok? ==>
                var (previous, catalog, tips) := r.value;
                && EpochOf(old(repository.Snapshot())) == token.epoch
                && repository.Rows() == old(repository.Rows())
                && InStep(token, previous, catalog)
                && lastTips == Some(tips)
                && (previous.Some? ==> lastAgreed == Some(Agreed(previous.value.ledgerIndex, previous.value.ledgerHash)))
                && (previous.None? ==> lastAgreed == old(lastAgreed))
      ensures old(IsSmoothRound(token)) ==> r.Ok? && Some(r.value.2) == old(NextTips()) && repository.Calm(token)
    {
      hide Sound, IsReplay, CatalogOf, Truthful, HonestLog, Run, Newest, IsToken, IsActive, TipsDoNotRegress, Serves, AreTips,
           IsLeaseDuration;
      var stored := ReadStored(token);
      if stored.Err? { return Err(stored.error); }
      var fetched := source.GetValidatedLedgerTips();
      if fetched.Err? { return Err(SourceFailed(fetched.error)); }
      lastTips := Some(fetched.value);
      if target.Some? && target.value.ledgerIndex > fetched.value.effective { return Err(ReplayTargetUnavailable); }
      var renewed := repository.RenewLease(token, leaseDurationMs);
      if renewed.Err? { return Err(RepositoryFailed(renewed.error)); }
      TablesAreReplay();
      return Ok((stored.value.0, stored.value.1, fetched.value));
    }

    /** Every checkpoint the fold has stored carries its transaction root. */
    lemma NewestHasRoot()
      requires Valid()
      ensures Newest(repository.checkpoints).Some? ==> Newest(repository.checkpoints).value.transactionRoot.Some?
    {
      hide Sound, IsReplay, Truthful, HonestLog, Run, Newest;
      TablesAreReplay();
      NewestOfTables(repository.setting, repository.Rows());
    }

    lemma TablesAreReplay()
      requires Valid()
      ensures IsReplay(repository.setting, repository.Rows())
    {
      hide Sound, IsReplay, StatusHolds, HonestLog, Run;
      EveryRunIsConsistent(repository.setting, repository.log);
    }

    /**
     One round. On success the lease is still held, exactly the next ledgers up to the batch size or the limit have
     been persisted, each by this worker, and nothing else has changed the tables meanwhile. Without a replay target the
     published status is then ready exactly when the checkpoints have caught up with the lower tip.
     */
    method RunOnce(token: Token) returns (r: Result<nat, WorkerError>)
      requires Valid() && Issued(token)
      modifies this, repository, source
      ensures Valid() && old(repository.log) <= repository.log && Issued(token)
      ensures StaysWithinTarget()
      ensures activeLease == old(activeLease) && targetVerified == old(targetVerified) && rounds == old(rounds) + 1
      ensures r.Ok? ==>
                && EpochOf(old(repository.Snapshot())) == EpochOf(repository.Snapshot()) == token.epoch
                && lastTips.Some? && r.value == RoundSize(|old(repository.checkpoints)|, lastTips.value)
                && |repository.checkpoints| == |old(repository.checkpoints)| + r.value
                && repository.ownPersisted == old(repository.ownPersisted) + Range(old(Next()), Next())
      ensures r.Ok? && target.Some? ==>
                && targetVerified
                && completed == (old(completed) || Next() > target.value.ledgerIndex)
      ensures target.None? || r.Err? ==> completed == old(completed)
      ensures r.Ok? && target.None? ==>
                && repository.status.Some? && lastTips.Some?
                && (repository.status.value.state.Ready? <==>
                      |repository.checkpoints| > 0 && Next() > lastTips.value.effective)
      ensures old(IsSmoothRound(token)) ==>
                var n := |old(repository.checkpoints)|;
                (r.Ok? <==> ReplayOf(repository.setting, n + RoundSize(n, old(NextTips()).value)).Ok?)
                && (r.Ok? ==> repository.Calm(token))
    {
      hide Sound, IsReplay, CatalogOf, Truthful, NamesNewest, HonestLog, Run, Newest, InStep, Range, Shows,
           RuntimeStatus, RoundSize, ReplayOf, IsSmooth, IsToken, IsActive, TipsDoNotRegress;
      if target.Some? && !targetVerified {
        rounds := rounds + 1;
        return Err(ReplayTargetUnavailable);
      }
      r := Round(token);
      rounds := rounds + 1;
      if r.Ok? && target.Some? && Next() > target.value.ledgerIndex { completed := true; }
    }

    /** The reads of a round and what follows on them. */
    method Round(token: Token) returns (r: Result<nat, WorkerError>)
      requires Valid() && Issued(token) && (target.Some? ==> targetVerified)
      modifies repository, source, this`lastAgreed, this`lastTips
      ensures Valid() && old(repository.log) <= repository.log && Issued(token)
      ensures StaysWithinTarget()
      ensures r.Ok? ==>
                && EpochOf(old(repository.Snapshot())) == EpochOf(repository.Snapshot()) == token.epoch
                && lastTips.Some? && r.value == RoundSize(|old(repository.checkpoints)|, lastTips.value)
                && |repository.checkpoints| == |old(repository.checkpoints)| + r.value
                && repository.ownPersisted == old(repository.ownPersisted) + Range(old(Next()), Next())
      ensures r.Ok? && target.None? ==>
                && repository.status.Some? && lastTips.Some?
                && (repository.status.value.state.Ready? <==>
                      |repository.checkpoints| > 0 && Next() > lastTips.value.effective)
      ensures old(IsSmoothRound(token)) ==>
                var n := |old(repository.checkpoints)|;
                (r.Ok? <==> ReplayOf(repository.setting, n + RoundSize(n, old(NextTips()).value)).Ok?)
                && (r.Ok? ==> repository.Calm(token))
    {
      hide Sound, IsReplay, CatalogOf, Truthful, NamesNewest, HonestLog, Run, Newest, Range, Shows,
           RuntimeStatus, RoundSize, ReplayOf, IsSmooth, IsToken, IsActive, TipsDoNotRegress;
      var observed := Observe(token);
      if observed.Err? { return Err(observed.error); }
      var (previous, catalog, tips) := observed.value;
      r := RunObserved(token, tips, previous, catalog);
      Reached();
    }

    lemma Reached()
      requires Valid()
      ensures ReplayOf(repository.setting, |repository.checkpoints|).Ok?
    {
      hide Sound, Truthful, HonestLog, Run, ReplayOf;
      TablesAreReplay();
    }

    /** A round after its reads: the status before the batch, if one is due, and the batch. */
    method RunObserved(token: Token, tips: Tips, previous: Option<Checkpoint>, catalog: IndexCatalog)
      returns (r: Result<nat, WorkerError>)
      requires Valid() && InStep(token, previous, catalog) && lastTips == Some(tips)
      requires previous.Some? ==> lastAgreed == Some(Agreed(previous.value.ledgerIndex, previous.value.ledgerHash))
      modifies repository, source, this`lastAgreed
      ensures Valid() && old(repository.log) <= repository.log && Issued(token)
      ensures StaysWithinTarget()
      ensures r.Ok? ==>
                && EpochOf(repository.Snapshot()) == token.epoch
                && r.value == RoundSize(|old(repository.checkpoints)|, tips)
                && |repository.checkpoints| == |old(repository.checkpoints)| + r.value
                && repository.ownPersisted == old(repository.ownPersisted) + Range(old(Next()), Next())
      ensures r.Ok? && target.None? ==>
                && repository.status.Some?
                && (repository.status.value.state.Ready? <==> |repository.checkpoints| > 0 && Next() > tips.effective)
      ensures old(repository.Calm(token)) && IsSmooth(tips, tips.effective) && Limit(tips) <= tips.effective
              && old(Next()) <= tips.effective + 1 && (previous.None? ==> old(lastAgreed).None?) ==>
                (ReplayOf(repository.setting, |old(repository.checkpoints)| + RoundSize(|old(repository.checkpoints)|, tips)).Ok?
                 ==> r.Ok? && repository.Calm(token))
    {
      hide Sound, IsReplay, CatalogOf, Truthful, NamesNewest, HonestLog, Run, Newest, InStep, Range, Shows, RuntimeStatus,
           IsSmooth, ReplayOf, IsToken, IsActive;
      var next := NextIndex(token, previous, catalog);
      if previous.None? || next > tips.effective {
        var published := PublishBeforeBatch(token, previous, catalog, tips, next);
        if published.Err? { return Err(published.error); }
      }
      r := RunBatch(token, tips, previous, catalog, next);
    }

    /** The ledger after the newest checkpoint, computed from the worker's own copy. */
    method NextIndex(token: Token, previous: Option<Checkpoint>, catalog: IndexCatalog) returns (next: nat)
      requires Valid() && InStep(token, previous, catalog)
      ensures next == repository.setting.profile.activationIndex + |repository.checkpoints|
      ensures previous.None? <==> |repository.checkpoints| == 0
    {
      hide Sound, IsReplay, HonestLog, Run, Truthful;
      NewestOfTables(repository.setting, repository.Rows());
      next := if previous.None? then repository.setting.profile.activationIndex else previous.value.ledgerIndex + 1;
    }

    /** The status of a round that starts without a checkpoint or has caught up already. */
    method PublishBeforeBatch(token: Token, previous: Option<Checkpoint>, catalog: IndexCatalog, tips: Tips, next: nat)
      returns (r: Result<(), WorkerError>)
      requires Valid() && InStep(token, previous, catalog) && lastTips.Some?
      requires previous.Some? ==> lastAgreed == Some(Agreed(previous.value.ledgerIndex, previous.value.ledgerHash))
      modifies repository
      ensures Valid() && old(repository.log) <= repository.log && Issued(token)
      ensures repository.ownPersisted == old(repository.ownPersisted)
      ensures target.Some? ==> repository.ownReady == old(repository.ownReady)
      ensures r.Ok? ==> InStep(token, previous, catalog) && repository.Rows() == old(repository.Rows())
      ensures r.Ok? ==>
                && repository.status.Some?
                && (repository.status.value.state.Ready? <==> target.None? && previous.Some? && next > tips.effective)
      ensures old(repository.Calm(token)) && IsSmooth(tips, tips.effective) && lastTips == Some(tips)
              && next == old(Next()) <= tips.effective + 1 && (previous.None? ==> lastAgreed.None?) ==>
                r.Ok? && repository.Calm(token)
    {
      hide Sound, IsReplay, CatalogOf, Truthful, HonestLog, Run, Newest, IsAcceptable, IsSmooth, IsToken, IsActive;
      NewestIsPublishable(tips);
      var ready := target.None? && previous.Some? && next > tips.effective;
      r := PersistRuntimeStatus(token, if ready then Ready else CatchingUp);
    }

    /** A status that names the newest checkpoint, or none if there is none, is acceptable with tips that have reached it. */
    lemma NewestIsPublishable(tips: Tips)
      requires Valid()
      ensures IsSmooth(tips, tips.effective) && Next() <= tips.effective + 1 ==>
                match Newest(repository.checkpoints)
                case None => IsAcceptable(RuntimeStatus(Some(tips), None, CatchingUp))
                case Some(c) =>
                  var agreed := Some(Agreed(c.ledgerIndex, c.ledgerHash));
                  && IsAcceptable(RuntimeStatus(Some(tips), agreed, CatchingUp))
                  && (Next() > tips.effective ==> IsAcceptable(RuntimeStatus(Some(tips), agreed, Ready)))
    {
      hide Sound, IsReplay, Truthful, HonestLog, Run, Newest, ReplayOf, IsHash, Serves;
      TablesAreReplay();
      NewestOfTables(repository.setting, repository.Rows());
      if repository.checkpoints != [] { LastIsPublishable(); }
    }

    lemma LastIsPublishable()
      requires Valid() && repository.checkpoints != []
      ensures var ledger := LedgerAt(repository.setting, |repository.checkpoints| - 1);
              IsUint32(ledger.index) && IsHash(ledger.hash)
    {
      hide Sound, Truthful, HonestLog, Run, ReplayOf, IsHash;
      TablesAreReplay();
      StoredIsPublishable(repository.setting, |repository.checkpoints| - 1);
    }

    /** The batch loop of a round. */
    method RunBatch(token: Token, tips: Tips, start: Option<Checkpoint>, initial: IndexCatalog, first: nat)
      returns (r: Result<nat, WorkerError>)
      requires Valid() && InStep(token, start, initial)
      requires first == repository.setting.profile.activationIndex + |repository.checkpoints|
      modifies repository, source, this`lastAgreed
      ensures Valid() && old(repository.log) <= repository.log && Issued(token)
      ensures StaysWithinTarget()
      ensures r.Ok? ==>
                && EpochOf(repository.Snapshot()) == token.epoch
                && r.value == RoundSize(|old(repository.checkpoints)|, tips)
                && |repository.checkpoints| == |old(repository.checkpoints)| + r.value
                && repository.ownPersisted == old(repository.ownPersisted) + Range(first, first + r.value)
      ensures r.Ok? && r.value == 0 ==> repository.status == old(repository.status)
      ensures r.Ok? && r.value > 0 ==>
                && repository.status.Some?
                && (repository.status.value.state.Ready? <==> target.None? && first + r.value - 1 == tips.effective)
      ensures old(repository.Calm(token)) && IsSmooth(tips, tips.effective) && Limit(tips) <= tips.effective ==>
                && repository.Calm(token)
                && (ReplayOf(repository.setting, |old(repository.checkpoints)| + RoundSize(|old(repository.checkpoints)|, tips)).Ok?
                    ==> r.Ok?)
    {
      hide Sound, IsReplay, CatalogOf, Truthful, HonestLog, Run, Newest, Range, IsSmooth, ReplayOf, InStep, EpochOf,
           IsToken, IsActive, CheckpointOf, ProjectionRepository.Calm, ProjectionRepository.Snapshot, Issued;
      RangeNext(repository.ownPersisted, first, first);
      ghost var smooth := repository.Calm(token) && IsSmooth(tips, tips.effective) && Limit(tips) <= tips.effective;
      var previous, catalog, next, processed := start, initial, first, 0;
      var last := Min(Limit(tips), next + batchSize - 1);
      while next <= last
        invariant Valid() && old(repository.log) <= repository.log && InStep(token, previous, catalog)
        invariant next == first + processed == repository.setting.profile.activationIndex + |repository.checkpoints|
        invariant next <= Max(first, last + 1)
        invariant repository.ownPersisted == old(repository.ownPersisted) + Range(first, next)
        invariant processed == 0 ==> repository.status == old(repository.status)
        invariant processed > 0 ==>
                    && repository.status.Some?
                    && (repository.status.value.state.Ready? <==> target.None? && next - 1 == tips.effective)
        invariant target.Some? ==> repository.ownReady == old(repository.ownReady)
        invariant smooth ==> repository.Calm(token)
        decreases last - next
      {
        if smooth { StillSmooth(tips, next); }
        var done := ProcessLedger(token, tips, previous, catalog, next);
        if done.Err? {
          WithinTarget(old(repository.ownPersisted), first, next, repository.ownPersisted, Limit(tips));
          NoneAfter(|old(repository.checkpoints)| + processed + 1,
                    |old(repository.checkpoints)| + RoundSize(|old(repository.checkpoints)|, tips));
          return Err(done.error);
        }
        var ledger := done.value.0;
        catalog := done.value.1;
        previous := Some(CheckpointOf(ledger));
        lastAgreed := Some(Agreed(ledger.index, ledger.hash));
        RangeNext(old(repository.ownPersisted), first, next);
        next := next + 1;
        processed := processed + 1;
      }
      WithinTarget(old(repository.ownPersisted), first, next, repository.ownPersisted, Limit(tips));
      EpochInStep(token, previous, catalog);
      return Ok(processed);
    }

    lemma EpochInStep(token: Token, previous: Option<Checkpoint>, catalog: IndexCatalog)
      requires InStep(token, previous, catalog)
      ensures EpochOf(repository.Snapshot()) == token.epoch && Issued(token)
    {
      hide IsReplay, CatalogOf, Newest;
    }

    lemma StillSmooth(tips: Tips, ledgerIndex: nat)
      requires IsSmooth(tips, tips.effective) && ledgerIndex <= tips.effective
      ensures IsSmooth(tips, ledgerIndex)
    {
    }

    /** A fold that stops before m has not reached m either. */
    lemma NoneAfter(n: nat, m: nat)
      requires n <= m
      ensures ReplayOf(repository.setting, m).Ok? ==> ReplayOf(repository.setting, n).Ok?
    {
      hide ReplayOf;
      if ReplayOf(repository.setting, m).Ok? { EarlierReplay(repository.setting, n, m); }
    }

    lemma RangeNext(before: seq<nat>, lo: nat, hi: nat)
      requires lo <= hi
      ensures before + Range(lo, lo) == before
      ensures before + Range(lo, hi) + [hi] == before + Range(lo, hi + 1)
    {
      assert Range(lo, hi) + [hi] == Range(lo, hi + 1);
    }

    lemma WithinTarget(before: seq<nat>, first: nat, next: nat, after: seq<nat>, limit: nat)
      requires first <= next
      requires (after == before + Range(first, next) && (first < next ==> next <= limit + 1))
               || (after == before + Range(first, next) + [next] && next <= limit)
      ensures before <= after && forall i :: |before| <= i < |after| ==> after[i] <= limit
    {
    }

    // ---- A whole run ----------------------------------------------------------------------------

    /** Acquiring the lease, checking both sources and the stored checkpoint against them. */
    method Prepare() returns (r: Result<Token, WorkerError>)
      requires Valid() && activeLease.None?
      modifies this, repository, source
      ensures Valid() && old(repository.log) <= repository.log && completed == old(completed) && rounds == old(rounds)
      ensures repository.ownPersisted == old(repository.ownPersisted)
      ensures target.Some? ==> repository.ownReady == old(repository.ownReady)
      ensures activeLease.Some? ==> Issued(activeLease.value)
      ensures r.Ok? ==> activeLease == Some(r.value) && EpochOf(repository.Snapshot()) == r.value.epoch
      ensures r.Ok? && target.Some? ==> targetVerified && Next() <= target.value.ledgerIndex + 1
      ensures r.Ok? ==> lastTips.Some? && NewestIsChecked(lastTips.value) && old(Next()) <= Next()
      ensures r.Ok? ==> repository.status.Some?
                        && Shows(repository.status.value, RuntimeStatus(lastTips, lastAgreed, CatchingUp))
    {
      hide Sound, IsReplay, Truthful, HonestLog, Run, NamesNewest, Newest, IsWriterId, TipsDoNotRegress, CheckpointOf;
      var acquired := repository.AcquireLease(writerId, leaseDurationMs);
      if acquired.Err? { return Err(RepositoryFailed(acquired.error)); }
      var token := acquired.value;
      activeLease := Some(token);
      var verified := VerifySources(token);
      if verified.Err? { return Err(verified.error); }
      var checked := VerifyCheckpoint(token, verified.value.0, verified.value.1);
      if checked.Err? { return Err(checked.error); }
      var published := PersistRuntimeStatus(token, CatchingUp);
      if published.Err? { return Err(published.error); }
      Grown(old(repository.log), old(repository.checkpoints));
      return Ok(token);
    }

    /** Connection, preflight and the replay target. */
    method VerifySources(token: Token) returns (r: Result<(Tips, Option<Ledger>), WorkerError>)
      requires Valid() && Issued(token)
      modifies repository, source, this`lastTips, this`targetVerified
      ensures Valid() && old(repository.log) <= repository.log && Issued(token)
      ensures repository.ownPersisted == old(repository.ownPersisted) && repository.ownReady == old(repository.ownReady)
      ensures r.Ok? && target.Some? ==> targetVerified
      ensures r.Ok? ==> lastTips == Some(r.value.0)
      ensures r.Ok? && r.value.1.Some? ==> r.value.1.value == repository.setting.history(r.value.1.value.index)
    {
      hide Sound, IsReplay, Truthful, HonestLog, Run, TipsDoNotRegress;
      var connected := source.Connect();
      if connected.Err? { return Err(SourceFailed(connected.error)); }
      var renewed := repository.RenewLease(token, leaseDurationMs);
      if renewed.Err? { return Err(RepositoryFailed(renewed.error)); }
      var preflight := source.Preflight(repository.setting.profile);
      if preflight.Err? { return Err(SourceFailed(preflight.error)); }
      var tips := preflight.value;
      lastTips := Some(tips);
      renewed := repository.RenewLease(token, leaseDurationMs);
      if renewed.Err? { return Err(RepositoryFailed(renewed.error)); }
      if target.None? { return Ok((tips, None)); }
      if target.value.ledgerIndex > tips.effective { return Err(ReplayTargetUnavailable); }
      var ledger := source.GetLedger(repository.setting, target.value.ledgerIndex);
      if ledger.Err? { return Err(SourceFailed(ledger.error)); }
      if ledger.value.index != target.value.ledgerIndex || ledger.value.hash != target.value.ledgerHash {
        return Err(ReplayTargetMismatch);
      }
      targetVerified := true;
      renewed := repository.RenewLease(token, leaseDurationMs);
      if renewed.Err? { return Err(RepositoryFailed(renewed.error)); }
      return Ok((tips, Some(ledger.value)));
    }

    /** The newest checkpoint is that of the quorum's ledger, not beyond the lower tip, and will be published as agreed. */
    predicate NewestIsChecked(tips: Tips)
      reads this, repository
    {
      var newest := Newest(repository.checkpoints);
      newest.Some? ==>
        && newest.value.ledgerIndex <= tips.effective
        && newest.value == CheckpointOf(repository.setting.history(newest.value.ledgerIndex))
        && lastAgreed == Some(Agreed(newest.value.ledgerIndex, newest.value.ledgerHash))
    }

    /** The stored checkpoint must not be beyond the target or the tips, and must match the quorum's ledger. */
    method VerifyCheckpoint(token: Token, tips: Tips, replayLedger: Option<Ledger>) returns (r: Result<(), WorkerError>)
      requires Valid() && Issued(token)
      requires replayLedger.Some? ==> replayLedger.value == repository.setting.history(replayLedger.value.index)
      modifies repository, source, this`lastAgreed
      ensures Valid() && old(repository.log) <= repository.log && Issued(token)
      ensures repository.ownPersisted == old(repository.ownPersisted) && repository.ownReady == old(repository.ownReady)
      ensures r.Ok? ==> EpochOf(repository.Snapshot()) == token.epoch && NewestIsChecked(tips)
      ensures r.Ok? && target.Some? ==> Next() <= target.value.ledgerIndex + 1
      ensures r.Ok? && Newest(repository.checkpoints).Some? ==>
                var c := Newest(repository.checkpoints).value;
                && c.ledgerIndex <= tips.effective && c == CheckpointOf(repository.setting.history(c.ledgerIndex))
                && lastAgreed == Some(Agreed(c.ledgerIndex, c.ledgerHash))
    {
      hide Sound, IsReplay, Truthful, HonestLog, Run, CheckpointOf, Newest;
      var read := repository.GetLastCheckpoint(token.epoch);
      if read.Err? { return Err(RepositoryFailed(read.error)); }
      NextOfNewest();
      if read.value.Some? {
        var checkpoint := read.value.value;
        if checkpoint.transactionRoot.None? { return Err(CheckpointWithoutEvidence); }
        if target.Some? && checkpoint.ledgerIndex > target.value.ledgerIndex { return Err(ReplayTargetExceeded); }
        if checkpoint.ledgerIndex > tips.effective { return Err(SourceFailed(SOURCE_TIP_REGRESSION)); }
        var agreed: Ledger;
        if replayLedger.Some? && checkpoint.ledgerIndex == replayLedger.value.index {
          agreed := replayLedger.value;
        } else {
          var fetched := source.GetLedger(repository.setting, checkpoint.ledgerIndex);
          if fetched.Err? { return Err(SourceFailed(fetched.error)); }
          agreed := fetched.value;
        }
        if checkpoint != CheckpointOf(agreed) { return Err(CheckpointMismatch); }
        lastAgreed := Some(Agreed(checkpoint.ledgerIndex, checkpoint.ledgerHash));
      }
      var renewed := repository.RenewLease(token, leaseDurationMs);
      if renewed.Err? { return Err(RepositoryFailed(renewed.error)); }
      return Ok(());
    }

    lemma NextOfNewest()
      requires Valid()
      ensures var newest := Newest(repository.checkpoints);
              Next() == if newest.None? then repository.setting.profile.activationIndex else newest.value.ledgerIndex + 1
    {
      hide Sound, IsReplay, Truthful, HonestLog, Run;
      TablesAreReplay();
      NewestOfTables(repository.setting, repository.Rows());
    }

    /** Rounds until the signal aborts, here after a given number of them, or the replay target is reached. */
    method RunRounds(token: Token, aborts: nat) returns (r: Result<(), WorkerError>)
      requires Valid() && EpochOf(repository.Snapshot()) == token.epoch
      requires target.Some? ==> targetVerified && Next() <= target.value.ledgerIndex + 1
      modifies this, repository, source
      ensures Valid() && old(repository.log) <= repository.log && Issued(token)
      ensures StaysWithinTarget() && activeLease == old(activeLease) && targetVerified == old(targetVerified)
      ensures old(rounds) <= rounds <= old(rounds) + aborts
      ensures r.Ok? && target.Some? && !old(completed) ==>
                var needed := RoundsNeeded(target.value.ledgerIndex + 1 - old(Next()), batchSize);
                && Next() - old(Next()) == |repository.ownPersisted| - |old(repository.ownPersisted)|
                && (completed <==> needed <= aborts)
                && (if completed then rounds == old(rounds) + needed && Next() == target.value.ledgerIndex + 1
                    else rounds == old(rounds) + aborts && Next() <= target.value.ledgerIndex + 1)
    {
      hide Sound, IsReplay, Truthful, HonestLog, Run, Range, IsSmoothRound, ReplayOf;
      var left := aborts;
      ghost var total := if target.Some? then target.value.ledgerIndex + 1 - Next() else 0;
      while left > 0
        invariant Valid() && old(repository.log) <= repository.log && activeLease == old(activeLease)
        invariant rounds - old(rounds) + left == aborts && EpochOf(repository.Snapshot()) == token.epoch
        invariant StaysWithinTarget() && targetVerified == old(targetVerified)
        invariant Next() - old(Next()) == |repository.ownPersisted| - |old(repository.ownPersisted)|
        invariant target.Some? && !old(completed) ==>
                    && !completed
                    && Next() <= target.value.ledgerIndex + (if rounds == old(rounds) then 1 else 0)
                    && RoundsNeeded(total, batchSize)
                       == rounds - old(rounds) + RoundsNeeded(target.value.ledgerIndex + 1 - Next(), batchSize)
      {
        var done := RunOnce(token);
        if done.Err? { return Err(done.error); }
        left := left - 1;
        if completed { break; }
      }
      return Ok(());
    }

    /**
     Giving the lease back, or halting after a failure; a failed halt is followed by an attempt to release. A release
     that fails is itself a failure of the run, unless there was one before.
     */
    method Conclude(failure: Option<WorkerError>) returns (outcome: Option<WorkerError>)
      requires Valid() && (activeLease.Some? ==> Issued(activeLease.value))
      modifies this`activeLease, repository
      ensures Valid() && old(repository.log) <= repository.log && activeLease.None?
      ensures repository.ownPersisted == old(repository.ownPersisted) && repository.ownReady == old(repository.ownReady)
      ensures failure.Some? ==> outcome == failure
      ensures old(activeLease).None? ==> outcome == failure && repository.Snapshot() == old(repository.Snapshot())
      ensures old(activeLease).Some? ==>
                Quiet(old(repository.Snapshot()), repository.Snapshot(), old(activeLease).value.epoch)
      ensures old(activeLease).Some? && outcome.None? ==> Released(old(activeLease).value)
      ensures old(activeLease).Some? && old(repository.turns) == [] ==>
                repository.status == Concluded(old(repository.status), old(activeLease).value, failure, lastTips, lastAgreed)
    {
      hide Sound, IsReplay, Truthful, HonestLog, Run;
      outcome := failure;
      if activeLease.Some? {
        var halted := false;
        if failure.Some? {
          var h := repository.HaltIndexer(activeLease.value, RuntimeStatus(lastTips, lastAgreed, Halted), CodeOf(failure.value));
          halted := h.Ok?;
        }
        if !halted {
          var released := repository.ReleaseLease(activeLease.value);
          if failure.None? && released.Err? { outcome := Some(RepositoryFailed(released.error)); }
        }
      }
      activeLease := None;
    }

    /** The token's lease has been given back. */
    predicate Released(token: Token)
      reads repository
    {
      && repository.status.Some? && repository.status.value.epoch == token.epoch
      && repository.status.value.state.CatchingUp? && repository.status.value.writerId.None?
    }

    /** The status row after a conclusion that nothing interferes with. */
    static function Concluded(status: Option<StatusRow>, token: Token, failure: Option<WorkerError>, tips: Option<Tips>,
                              agreed: Option<Agreed>): Option<StatusRow>
    {
      var released := match Release(status, token) case Ok(row) => Some(row) case Err(_) => status;
      match failure
      case None => released
      case Some(e) =>
        match Halt(status, token, RuntimeStatus(tips, agreed, Halted), CodeOf(e))
        case Ok(row) => Some(row)
        case Err(_) => released
    }

    /** The end of a run: what it has reached stays reached. */
    method Finish(done: Result<(), WorkerError>) returns (r: Result<(), WorkerError>)
      requires Valid() && activeLease.Some? && Issued(activeLease.value)
      modifies this`activeLease, repository
      ensures Valid() && old(repository.log) <= repository.log && activeLease.None?
      ensures repository.ownPersisted == old(repository.ownPersisted) && repository.ownReady == old(repository.ownReady)
      ensures r.Ok? ==> done.Ok?
      ensures target.Some? && targetVerified && old(Next()) == target.value.ledgerIndex + 1 ==> HasReached(target.value)
    {
      hide Sound, IsReplay, Truthful, HonestLog, Run, Newest, HasReached, EndsAt, Concluded, Quiet, Released;
      if target.Some? && targetVerified && Next() == target.value.ledgerIndex + 1 { ReachedTarget(); }
      var outcome := Conclude(if done.Err? then Some(done.error) else None);
      if target.Some? && targetVerified && old(Next()) == target.value.ledgerIndex + 1 {
        StillReached(old(repository.log), target.value);
      }
      return if outcome.Some? then Err(outcome.value) else Ok(());
    }

    /** A prepared run: its rounds and its end. */
    method Proceed(token: Token, aborts: nat) returns (r: Result<(), WorkerError>)
      requires Valid() && EpochOf(repository.Snapshot()) == token.epoch && activeLease == Some(token)
      requires target.Some? ==> targetVerified && Next() <= target.value.ledgerIndex + 1
      modifies this, repository, source
      ensures Valid() && old(repository.log) <= repository.log && activeLease.None?
      ensures StaysWithinTarget() && old(rounds) <= rounds <= old(rounds) + aborts
      ensures r.Ok? && target.Some? && !old(completed) ==>
                var left := target.value.ledgerIndex + 1 - old(Next());
                && (completed <==> RoundsNeeded(left, batchSize) <= aborts)
                && (if completed
                    then
                      && rounds == old(rounds) + RoundsNeeded(left, batchSize)
                      && |repository.ownPersisted| == |old(repository.ownPersisted)| + left
                      && HasReached(target.value)
                    else
                      && rounds == old(rounds) + aborts
                      && |repository.ownPersisted| <= |old(repository.ownPersisted)| + left)
    {
      hide Sound, IsReplay, Truthful, HonestLog, Run, Newest, HasReached, RoundsNeeded, EndsAt;
      var done := RunRounds(token, aborts);
      r := Finish(done);
    }

    /**
     A whole run from any stored state to an abort or the replay target. A replay that is given as many rounds as the
     ledgers left at its beginning need, and does not fail, ends with the target: the rounds it takes are exactly those
     that the ledgers it persists itself need, and these are no more than were left.
     */
    method Start(aborts: nat) returns (r: Result<(), WorkerError>)
      requires Valid() && activeLease.None?
      modifies this, repository, source
      ensures Valid() && old(repository.log) <= repository.log && activeLease.None?
      ensures StaysWithinTarget() && old(rounds) <= rounds <= old(rounds) + aborts
      ensures r.Ok? && target.Some? && !old(completed) ==>
                && old(Next()) <= target.value.ledgerIndex + 1
                && (completed <== RoundsNeeded(target.value.ledgerIndex + 1 - old(Next()), batchSize) <= aborts)
                && var own := |repository.ownPersisted| - |old(repository.ownPersisted)|;
                && own <= target.value.ledgerIndex + 1 - old(Next())
                && rounds - old(rounds) == (if completed then RoundsNeeded(own, batchSize) else aborts)
                && (completed ==> HasReached(target.value))
      ensures r.Ok? && target.Some? && completed && !old(completed) ==>
                exists c :: c in repository.checkpoints && c.ledgerIndex == target.value.ledgerIndex
                            && c.ledgerHash == target.value.ledgerHash
      ensures target.Some? ==>
                && repository.ownReady == old(repository.ownReady)
                && forall i :: |old(repository.ownPersisted)| <= i < |repository.ownPersisted| ==>
                     repository.ownPersisted[i] <= target.value.ledgerIndex
    {
      hide Sound, IsReplay, Truthful, HonestLog, Run, Newest, HasReached, NewestIsChecked, RoundsNeeded, RuntimeStatus,
           Shows;
      var prepared := Prepare();
      if prepared.Err? {
        var _ := Conclude(Some(prepared.error));
        return Err(prepared.error);
      }
      if target.Some? {
        MoreNeedsMore(target.value.ledgerIndex + 1 - Next(), target.value.ledgerIndex + 1 - old(Next()), batchSize);
      }
      r := Proceed(prepared.value, aborts);
      if r.Ok? && target.Some? && completed && !old(completed) { ReachedIsStored(target.value); }
    }

    lemma ReachedIsStored(target: ReplayTarget)
      requires HasReached(target)
      ensures exists c :: c in repository.checkpoints && c.ledgerIndex == target.ledgerIndex && c.ledgerHash == target.ledgerHash
    {
    }

    /** The replay target is stored, of the configured hash, and at some point of the log it was the newest checkpoint. */
    ghost predicate HasReached(target: ReplayTarget)
      reads repository
    {
      && (exists c :: c in repository.checkpoints && c.ledgerIndex == target.ledgerIndex && c.ledgerHash == target.ledgerHash)
      && exists log :: log <= repository.log && EndsAt(repository.setting, Run(repository.setting, log).tables, target)
    }

    /** Checkpoints only ever grow. */
    lemma Grown(log: seq<Op>, checkpoints: seq<Checkpoint>)
      requires repository.Valid() && log <= repository.log && Run(repository.setting, log).tables.checkpoints == checkpoints
      ensures checkpoints <= repository.checkpoints
    {
      hide Run, HonestLog;
      assert log + repository.log[|log|..] == repository.log;
      ChainForEver(repository.setting, log, repository.log[|log|..]);
    }

    lemma StillReached(log: seq<Op>, target: ReplayTarget)
      requires repository.Valid() && log <= repository.log
      requires EndsAt(repository.setting, Run(repository.setting, log).tables, target)
      ensures HasReached(target)
    {
      hide Run, HonestLog;
      Grown(log, Run(repository.setting, log).tables.checkpoints);
      var c := Newest(Run(repository.setting, log).tables.checkpoints).value;
      assert c in repository.checkpoints;
    }

    /** The tables end exactly with the replay target, of the configured hash. */
    static predicate EndsAt(s: Setting, tables: Tables, target: ReplayTarget) {
      var newest := Newest(tables.checkpoints);
      && newest.Some? && newest.value.ledgerIndex == target.ledgerIndex && newest.value.ledgerHash == target.ledgerHash
      && s.profile.activationIndex + |tables.checkpoints| == target.ledgerIndex + 1
    }

    lemma ReachedTarget()
      requires Valid() && target.Some? && targetVerified && Next() == target.value.ledgerIndex + 1
      ensures EndsAt(repository.setting, repository.Rows(), target.value)
    {
      hide Sound, IsReplay, Truthful, HonestLog, Run, Newest;
      TablesAreReplay();
      NewestOfTables(repository.setting, repository.Rows());
    }
  }
}
