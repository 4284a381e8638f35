/**
 The repository as the worker uses it: tables changed row by row inside transactions that roll back as a whole, on a
 database that other writers use in between.

 Before each of its operations a script lets any number of foreign operations happen, says what the database clock
 reads, and may cut the connection before the commit or after it. The ghost log records everything that reached the
 database, in order.
 */
module Repository {
  import opened Base
  import opened LedgerModel
  import opened ProjectLedger
  import opened ProjectionStore
  import opened Replay
  import opened Fencing
  import opened Fleet

  datatype Fault = NoFault | CutBeforeCommit | CutAfterCommit

  datatype Turn = Turn(foreign: seq<Op>, now: int, fault: Fault)

  datatype RepositoryError = Lease(lease: LeaseError) | Refused(persist: PersistError) | ConnectionLost

  /** What this writer may rely on across one of its calls, as long as its epoch e stays current. */
  predicate Quiet(before: Db, after: Db, e: nat) {
    && EpochOf(before) <= EpochOf(after)
    && (EpochOf(after) == e ==> EpochOf(before) == e && after.tables == before.tables)
  }

  /** The row publishes exactly this status. */
  predicate Shows(row: StatusRow, u: StatusUpdate) {
    && row.state == u.state && row.primaryTip == u.primaryTip && row.secondaryTip == u.secondaryTip
    && row.agreedIndex == u.agreedIndex && row.agreedHash == u.agreedHash
  }

  class ProjectionRepository {
    const setting: Setting
    var status: Option<StatusRow>
    var schemaEvents: map<string, SchemaEventRow>
    var schemas: map<string, SchemaRow>
    var generations: seq<GenerationRow>
    var events: seq<EventRow>
    var checkpoints: seq<Checkpoint>
    var turns: seq<Turn>
    ghost var log: seq<Op>
    ghost var ownPersisted: seq<nat>
    ghost var ownReady: nat

    constructor (setting: Setting, turns: seq<Turn>)
      ensures Valid() && log == [] && this.setting == setting && this.turns == turns
      ensures ownPersisted == [] && ownReady == 0
    {
      this.setting, this.turns := setting, turns;
      status, schemaEvents, schemas := None, map[], map[];
      generations, events, checkpoints := [], [], [];
      log, ownPersisted, ownReady := [], [], 0;
    }

    function Rows(): Tables
      reads this
    {
      Tables(schemaEvents, schemas, generations, events, checkpoints)
    }

    function Snapshot(): Db
      reads this
    {
      Db(status, Rows())
    }

    /** The database is what an honest log of operations makes of an empty one. */
    ghost predicate Valid()
      reads this
    {
      HonestLog(setting, log) && Run(setting, log) == Snapshot()
    }

    /** This writer has persisted and published nothing more. */
    twostate predicate OwnUnchanged()
      reads this
    {
      ownPersisted == old(ownPersisted) && ownReady == old(ownReady)
    }

    /** The token's lease runs, and nothing and nobody comes in between any more. */
    predicate Calm(token: Token)
      reads this
    {
      turns == [] && IsToken(token) && IsActive(status, token, 0)
    }

    method Restore(db: Db)
      modifies this
      ensures Snapshot() == db && turns == old(turns) && log == old(log) && OwnUnchanged()
    {
      status := db.status;
      schemaEvents, schemas := db.tables.schemaEvents, db.tables.schemas;
      generations, events, checkpoints := db.tables.generations, db.tables.events, db.tables.checkpoints;
    }

    // ---- Interference -----------------------------------------------------------------------

    /** Other writers' operations before the next own one. Those under the own epoch cannot occur and are passed over. */
    method Interfere(epoch: nat) returns (turn: Turn)
      requires Valid() && epoch <= EpochOf(Snapshot())
      modifies this
      ensures OwnUnchanged()
      ensures Valid() && old(log) <= log
      ensures Untouched(old(Snapshot()), Snapshot(), epoch)
      ensures EpochOf(old(Snapshot())) == EpochOf(Snapshot()) == epoch ==> Snapshot() == old(Snapshot())
      ensures old(turns) == [] ==> turns == [] && Snapshot() == old(Snapshot()) && turn == Turn([], 0, NoFault)
    {
      hide Apply, Honest, HonestLog, Run;
      if turns == [] { return Turn([], 0, NoFault); }
      turn := turns[0];
      turns := turns[1..];
      for i := 0 to |turn.foreign|
        invariant OwnUnchanged()
        invariant Valid() && old(log) <= log && epoch <= EpochOf(Snapshot())
        invariant EpochOf(old(Snapshot())) <= EpochOf(Snapshot())
        invariant EpochOf(Snapshot()) == epoch ==> Snapshot() == old(Snapshot())
      {
        var op := turn.foreign[i];
        if Foreign(op, epoch) && Honest(setting, Snapshot(), op) {
          ForeignStep(setting.profile, Snapshot(), op, epoch);
          RunAppended(setting, log, op);
          var after := Apply(setting.profile, Snapshot(), op);
          log := log + [op];
          Restore(after);
        }
      }
    }

    /** An own operation that has reached the database. */
    ghost method Record(op: Op, before: Db)
      requires HonestLog(setting, log) && Run(setting, log) == before
      requires Honest(setting, before, op) && Snapshot() == Apply(setting.profile, before, op)
      modifies this`log
      ensures Valid() && log == old(log) + [op]
    {
      RunAppended(setting, log, op);
      log := log + [op];
    }

    // ---- The lease --------------------------------------------------------------------------

    method AcquireLease(writerId: string, durationMs: int) returns (r: Result<Token, RepositoryError>)
      requires Valid()
      modifies this
      ensures OwnUnchanged()
      ensures Valid() && old(log) <= log
      ensures r.Ok? ==> IsToken(r.value) && r.value.writerId == writerId && status.Some? && Holds(status.value, r.value)
      ensures r.Ok? ==> status.value.state.Starting? && status.value.agreedIndex.None? && status.value.errorCode.None?
      ensures r.Ok? ==> exists before, now :: Acquire(before, writerId, durationMs, now) == Ok(status.value)
      ensures old(turns) == [] ==>
                turns == [] && match Acquire(old(status), writerId, durationMs, 0)
                               case Ok(row) => r == Ok(Token(writerId, row.epoch)) && status == Some(row)
                               case Err(e) => r == Err(Lease(e)) && status == old(status)
    {
      hide HonestLog, Run;
      var turn := Interfere(0);
      if turn.fault.CutBeforeCommit? { return Err(ConnectionLost); }
      var row := Acquire(status, writerId, durationMs, turn.now);
      if row.Err? { return Err(Lease(row.error)); }
      ghost var before := Snapshot();
      status := Some(row.value);
      Record(AcquireOp(writerId, durationMs, turn.now), before);
      if turn.fault.CutAfterCommit? { return Err(ConnectionLost); }
      return Ok(Token(writerId, row.value.epoch));
    }

    method RenewLease(token: Token, durationMs: int) returns (r: Result<(), RepositoryError>)
      requires Valid() && token.epoch <= EpochOf(Snapshot())
      modifies this
      ensures OwnUnchanged()
      ensures Valid() && old(log) <= log && Quiet(old(Snapshot()), Snapshot(), token.epoch)
      ensures r.Ok? ==> EpochOf(Snapshot()) == token.epoch
      ensures r.Ok? ==> status.Some? && Holds(status.value, token)
      ensures old(Calm(token)) && IsLeaseDuration(durationMs) ==> r.Ok? && Calm(token)
    {
      hide HonestLog, Run;
      var turn := Interfere(token.epoch);
      if turn.fault.CutBeforeCommit? { return Err(ConnectionLost); }
      var row := Renew(status, token, durationMs, turn.now);
      if row.Err? { return Err(Lease(row.error)); }
      ghost var before := Snapshot();
      status := Some(row.value);
      Record(RenewOp(token, durationMs, turn.now), before);
      if turn.fault.CutAfterCommit? { return Err(ConnectionLost); }
      return Ok(());
    }

    /** Publishing a status; a `ready` one must name the newest checkpoint if the token is still current. */
    method UpdateIndexerStatus(token: Token, u: StatusUpdate) returns (r: Result<(), RepositoryError>)
      requires Valid() && token.epoch <= EpochOf(Snapshot())
      requires u.state.Ready? && EpochOf(Snapshot()) == token.epoch ==> NamesNewest(u, checkpoints)
      modifies this
      ensures ownPersisted == old(ownPersisted) && (ownReady == old(ownReady) || u.state.Ready?)
      ensures Valid() && old(log) <= log && Quiet(old(Snapshot()), Snapshot(), token.epoch)
      ensures r.Ok? ==> EpochOf(Snapshot()) == token.epoch
      ensures r.Ok? ==> status.Some? && Holds(status.value, token) && Shows(status.value, u)
      ensures old(Calm(token)) ==> Calm(token) && (r.Ok? <==> !u.state.Halted? && IsAcceptable(u))
    {
      hide HonestLog, Run, NamesNewest, IsAcceptable;
      var turn := Interfere(token.epoch);
      if turn.fault.CutBeforeCommit? { return Err(ConnectionLost); }
      var row := UpdateStatus(status, token, u, turn.now);
      if row.Err? { return Err(Lease(row.error)); }
      ghost var before := Snapshot();
      status := Some(row.value);
      if u.state.Ready? { ownReady := ownReady + 1; }
      Record(UpdateOp(token, u, turn.now), before);
      if turn.fault.CutAfterCommit? { return Err(ConnectionLost); }
      return Ok(());
    }

    method ReleaseLease(token: Token) returns (r: Result<(), RepositoryError>)
      requires Valid() && token.epoch <= EpochOf(Snapshot())
      modifies this
      ensures OwnUnchanged()
      ensures Valid() && old(log) <= log && Quiet(old(Snapshot()), Snapshot(), token.epoch)
      ensures r.Ok? ==> status.Some? && status.value.epoch == token.epoch && status.value.state.CatchingUp?
                        && status.value.writerId.None? && status.value.leaseExpiresAt.None?
      ensures old(turns) == [] ==>
                turns == [] && match Release(old(status), token)
                               case Ok(row) => r.Ok? && status == Some(row)
                               case Err(e) => r == Err(Lease(e)) && status == old(status)
    {
      hide HonestLog, Run;
      var turn := Interfere(token.epoch);
      if turn.fault.CutBeforeCommit? { return Err(ConnectionLost); }
      var row := Release(status, token);
      if row.Err? { return Err(Lease(row.error)); }
      ghost var before := Snapshot();
      status := Some(row.value);
      Record(ReleaseOp(token), before);
      if turn.fault.CutAfterCommit? { return Err(ConnectionLost); }
      return Ok(());
    }

    method HaltIndexer(token: Token, u: StatusUpdate, errorCode: string) returns (r: Result<(), RepositoryError>)
      requires Valid() && token.epoch <= EpochOf(Snapshot())
      modifies this
      ensures OwnUnchanged()
      ensures Valid() && old(log) <= log && Quiet(old(Snapshot()), Snapshot(), token.epoch)
      ensures r.Ok? ==> status.Some? && status.value.epoch == token.epoch && status.value.writerId.None?
                        && Shows(status.value, u.(state := Halted)) && status.value.errorCode == Some(errorCode)
      ensures old(turns) == [] ==>
                turns == [] && match Halt(old(status), token, u, errorCode)
                               case Ok(row) => r.Ok? && status == Some(row)
                               case Err(e) => r == Err(Lease(e)) && status == old(status)
    {
      hide HonestLog, Run, IsAcceptable, IsErrorCode;
      var turn := Interfere(token.epoch);
      if turn.fault.CutBeforeCommit? { return Err(ConnectionLost); }
      var row := Halt(status, token, u, errorCode);
      if row.Err? { return Err(Lease(row.error)); }
      ghost var before := Snapshot();
      status := Some(row.value);
      Record(HaltOp(token, u, errorCode), before);
      if turn.fault.CutAfterCommit? { return Err(ConnectionLost); }
      return Ok(());
    }

    // ---- Reading ------------------------------------------------------------------------------

    method GetLastCheckpoint(epoch: nat) returns (r: Result<Option<Checkpoint>, RepositoryError>)
      requires Valid() && epoch <= EpochOf(Snapshot())
      modifies this
      ensures OwnUnchanged()
      ensures Valid() && old(log) <= log && Quiet(old(Snapshot()), Snapshot(), epoch)
      ensures r.Ok? ==> r.value == Newest(checkpoints)
      ensures old(turns) == [] ==> r.Ok? && turns == [] && status == old(status)
    {
      var turn := Interfere(epoch);
      if !turn.fault.NoFault? { return Err(ConnectionLost); }
      return Ok(Newest(checkpoints));
    }

    method GetSchemaCatalog(epoch: nat) returns (r: Result<IndexCatalog, RepositoryError>)
      requires Valid() && epoch <= EpochOf(Snapshot())
      modifies this
      ensures OwnUnchanged()
      ensures Valid() && old(log) <= log && Quiet(old(Snapshot()), Snapshot(), epoch)
      ensures r.Ok? ==> r.value == CatalogOf(schemas, setting.profile.networkId)
      ensures old(turns) == [] ==> r.Ok? && turns == [] && status == old(status)
    {
      var turn := Interfere(epoch);
      if !turn.fault.NoFault? { return Err(ConnectionLost); }
      return Ok(CatalogOf(schemas, setting.profile.networkId));
    }

    // ---- Persisting one ledger -------------------------------------------------------------------

    method InsertRegistration(ledger: Ledger, r: SchemaRegistration)
      modifies this`schemaEvents, this`schemas
      ensures Rows() == ApplyRegistration(old(Rows()), ledger, r)
    {
      if r.transactionHash !in schemaEvents {
        schemaEvents := schemaEvents[r.transactionHash := SchemaEventOf(ledger, r)];
      }
      if r.Accepted? && !SchemaConflicts(schemas, SchemaRowOf(ledger, r)) {
        schemas := schemas[r.uid := SchemaRowOf(ledger, r)];
      }
    }

    /** On an error some rows may already have changed; the surrounding transaction takes them back. */
    method PersistCredentialMutation(ledger: Ledger, m: CredentialMutation) returns (failure: Option<PersistError>)
      modifies this`generations, this`events
      ensures match ApplyMutation(old(Rows()), ledger, m)
              case Ok(after) => failure.None? && Rows() == after
              case Err(e) => failure == Some(e)
    {
      var generationId: string;
      if m.eventType.CreatedEvent? {
        generationId := m.transactionHash;
        if BreaksUniqueness(generations, m) { return Some(UniqueViolation); }
        if m.schemaUid !in schemas { return Some(ForeignKeyViolation); }
        generations := generations + [GenerationOf(ledger, m)];
      } else {
        var live := LiveIndex(generations, m.objectId);
        if live.None? { return Some(NoLiveGeneration); }
        var i := live.value;
        generationId := generations[i].generationId;
        if m.eventType.AcceptedEvent? {
          generations := generations[i := generations[i].(accepted := true, lastLedgerIndex := ledger.index)];
        } else {
          generations := generations[i := generations[i].(
            lastLedgerIndex := ledger.index, deletedLedgerIndex := Some(ledger.index), cause := m.cause)];
        }
        if m.schemaUid !in schemas { return Some(ForeignKeyViolation); }
      }
      if !HasEvent(events, m.transactionHash, m.nodeIndex) {
        events := events + [EventRowOf(ledger, m, generationId)];
      }
      return None;
    }

    method InsertRegistrations(ledger: Ledger, rs: seq<SchemaRegistration>)
      modifies this`schemaEvents, this`schemas
      ensures Rows() == ApplyRegistrations(old(Rows()), ledger, rs)
    {
      hide ApplyRegistration;
      NoRegistrations(Rows(), ledger);
      for i := 0 to |rs|
        invariant Rows() == ApplyRegistrations(old(Rows()), ledger, rs[..i])
      {
        assert rs[..i + 1][..i] == rs[..i];
        InsertRegistration(ledger, rs[i]);
      }
      assert rs[..|rs|] == rs;
    }

    method InsertMutations(ledger: Ledger, ms: seq<CredentialMutation>) returns (failure: Option<PersistError>)
      modifies this`generations, this`events
      ensures match ApplyMutations(old(Rows()), ledger, ms)
              case Ok(after) => failure.None? && Rows() == after
              case Err(e) => failure == Some(e)
    {
      hide ApplyMutation;
      for i := 0 to |ms|
        invariant ApplyMutations(old(Rows()), ledger, ms[..i]) == Ok(Rows())
      {
        assert ms[..i + 1][..i] == ms[..i];
        failure := PersistCredentialMutation(ledger, ms[i]);
        if failure.Some? {
          FailsForGood(old(Rows()), ledger, ms, i + 1);
          return;
        }
      }
      assert ms[..|ms|] == ms;
      return None;
    }

    /** The whole transaction: its outcome and the tables after it are those of PersistWithStatus, or nothing changes. */
    method Transact(token: Token, p: Projection, u: StatusUpdate, now: int) returns (r: Result<Outcome, PersistError>)
      modifies this
      ensures log == old(log) && turns == old(turns) && OwnUnchanged()
      ensures match PersistWithStatus(setting.profile, old(Snapshot()), token, p, u, now)
              case Ok((after, outcome)) => r == Ok(outcome) && Snapshot() == after
              case Err(e) => r == Err(e) && Snapshot() == old(Snapshot())
    {
      hide ApplyRegistrations, ApplyMutations, UpdateStatus, MeetsConstraints;
      var start := Snapshot();
      if !IsToken(token) || !IsActive(status, token, now) { return Err(PersistError.LeaseLost); }
      var sameIndex := CheckpointAt(checkpoints, p.ledger.index);
      if sameIndex.Some? {
        var refused := CompareStored(sameIndex.value, p.ledger);
        if refused.Some? { return Err(refused.value); }
        var row := UpdateStatus(status, token, u, now);
        if row.Err? { return Err(StatusRejected); }
        status := Some(row.value);
        return Ok(AlreadyProcessed);
      }
      var broken := Continuity(setting.profile, Newest(checkpoints), p.ledger);
      if broken.Some? { return Err(NotContinuous(broken.value)); }
      InsertRegistrations(p.ledger, p.registrations);
      var failure := InsertMutations(p.ledger, p.mutations);
      if failure.Some? {
        Restore(start);
        return Err(failure.value);
      }
      checkpoints := checkpoints + [CheckpointOf(p.ledger)];
      if !MeetsConstraints(Rows()) {
        Restore(start);
        return Err(CheckViolation);
      }
      var row := UpdateStatus(status, token, u, now);
      if row.Err? {
        Restore(start);
        return Err(StatusRejected);
      }
      status := Some(row.value);
      return Ok(Inserted);
    }

    /**
     Persisting the next ledger under a token that may be outdated by now. Success means that the token is still
     current and that this very call added the ledger: the answer `already processed` cannot occur.
     */
    method PersistLedger(p: Projection, token: Token, u: StatusUpdate) returns (r: Result<Outcome, RepositoryError>)
      requires Sound(setting) && Valid() && token.epoch <= EpochOf(Snapshot())
      requires EpochOf(Snapshot()) == token.epoch ==> p == NextProjection(setting, Rows()) && Names(u, p.ledger.index, p.ledger.hash)
      modifies this
      ensures ownReady == old(ownReady) || u.state.Ready?
      ensures ownPersisted == old(ownPersisted) || ownPersisted == old(ownPersisted) + [p.ledger.index]
      ensures r.Ok? ==> ownPersisted == old(ownPersisted) + [p.ledger.index]
      ensures Valid() && old(log) <= log && EpochOf(old(Snapshot())) <= EpochOf(Snapshot())
      ensures EpochOf(Snapshot()) == token.epoch ==>
                && EpochOf(old(Snapshot())) == token.epoch
                && (Rows() == old(Rows()) || Persist(old(Rows()), setting.profile, p) == Ok((Rows(), Inserted)))
      ensures r.Ok? ==>
                && r.value == Inserted && EpochOf(Snapshot()) == token.epoch
                && Persist(old(Rows()), setting.profile, p) == Ok((Rows(), Inserted))
      ensures r.Ok? ==> status.Some? && Holds(status.value, token) && Shows(status.value, u)
      ensures old(Calm(token)) ==>
                && Calm(token)
                && (r.Ok? <==> Persist(old(Rows()), setting.profile, p).Ok? && !u.state.Halted? && IsAcceptable(u))
    {
      hide HonestLog, Run, NextProjection, Sound, Persist, IsAcceptable;
      var turn := Interfere(token.epoch);
      if turn.fault.CutBeforeCommit? { return Err(ConnectionLost); }
      ghost var before := Snapshot();
      var outcome := Transact(token, p, u, turn.now);
      if outcome.Err? { return Err(Refused(outcome.error)); }
      if u.state.Ready? { ownReady := ownReady + 1; }
      ownPersisted := ownPersisted + [p.ledger.index];
      Record(PersistOp(token, p, u, turn.now), before);
      PersistedOnce(setting, log[..|log| - 1], token, p, u, turn.now);
      if turn.fault.CutAfterCommit? { return Err(ConnectionLost); }
      return Ok(outcome.value);
    }
  }

  lemma {:induction false} FailsForGood(t: Tables, ledger: Ledger, ms: seq<CredentialMutation>, i: nat)
    requires i <= |ms| && ApplyMutations(t, ledger, ms[..i]).Err?
    ensures ApplyMutations(t, ledger, ms) == ApplyMutations(t, ledger, ms[..i])
    decreases |ms|
  {
    if i == |ms| {
      assert ms[..i] == ms;
    } else {
      var init := ms[..|ms| - 1];
      assert init[..i] == ms[..i];
      FailsForGood(t, ledger, init, i);
    }
  }

  /** An honest persist under a current token adds a ledger: it is never one that is already there. */
  lemma PersistedOnce(s: Setting, log: seq<Op>, token: Token, p: Projection, u: StatusUpdate, now: int)
    requires Sound(s) && HonestLog(s, log)
    requires Honest(s, Run(s, log), PersistOp(token, p, u, now))
    requires PersistWithStatus(s.profile, Run(s, log), token, p, u, now).Ok?
    ensures var before := Run(s, log);
            var (after, outcome) := PersistWithStatus(s.profile, before, token, p, u, now).value;
            && outcome == Inserted && Persist(before.tables, s.profile, p) == Ok((after.tables, Inserted))
            && EpochOf(after) == EpochOf(before) == token.epoch
            && after.status.Some? && Holds(after.status.value, token) && Shows(after.status.value, u)
  {
    hide Sound, Run, HonestLog, Persist, NextProjection, IsReplay, StatusHolds;
    EveryRunIsConsistent(s, log);
    NextOfReplay(s, Run(s, log).tables);
  }
}
