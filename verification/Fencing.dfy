/**
 The writer lease: one status row per profile, taken over with a new epoch, and written only by the token of
 the current epoch. Times are milliseconds of the database clock at the moment the row is locked.
 */
module Fencing {
  import opened Base

  datatype IndexerState = Starting | CatchingUp | Ready | Halted

  datatype Token = Token(writerId: string, epoch: nat)

  datatype StatusRow = StatusRow(
    state: IndexerState,
    primaryTip: Option<int>,
    secondaryTip: Option<int>,
    agreedIndex: Option<int>,
    agreedHash: Option<string>,
    errorCode: Option<string>,
    writerId: Option<string>,
    epoch: nat,
    leaseExpiresAt: Option<int>)

  /** What a worker asks to publish. */
  datatype StatusUpdate = StatusUpdate(
    state: IndexerState,
    primaryTip: Option<int>,
    secondaryTip: Option<int>,
    agreedIndex: Option<int>,
    agreedHash: Option<string>)

  datatype LeaseError = LeaseUnavailable | LeaseLost | InvalidRequest

  const MAX_SAFE_EPOCH := 0x1F_FFFF_FFFF_FFFF
  const MIN_LEASE_DURATION_MS := 10_000
  const MAX_LEASE_DURATION_MS := 300_000

  predicate IsWriterIdStart(c: char) {
    'A' <= c <= 'Z' || 'a' <= c <= 'z' || '0' <= c <= '9'
  }

  predicate IsWriterId(s: string) {
    && 1 <= |s| <= 128 && IsWriterIdStart(s[0])
    && forall i :: 0 <= i < |s| ==> IsWriterIdStart(s[i]) || s[i] in "._:-"
  }

  predicate IsErrorCode(s: string) {
    && 1 <= |s| <= 64 && 'A' <= s[0] <= 'Z'
    && forall i :: 0 <= i < |s| ==> 'A' <= s[i] <= 'Z' || '0' <= s[i] <= '9' || s[i] == '_'
  }

  predicate IsToken(token: Token) {
    IsWriterId(token.writerId) && 1 <= token.epoch <= MAX_SAFE_EPOCH
  }

  predicate IsLeaseDuration(ms: int) {
    MIN_LEASE_DURATION_MS <= ms <= MAX_LEASE_DURATION_MS
  }

  predicate NullableUint32(n: Option<int>) {
    n.None? || IsUint32(n.value)
  }

  predicate NotBeyond(agreed: Option<int>, tip: Option<int>) {
    agreed.None? || tip.None? || agreed.value <= tip.value
  }

  /** The shape every written status must have; a refused one leaves the row as it was. */
  predicate IsAcceptable(u: StatusUpdate) {
    && NullableUint32(u.primaryTip) && NullableUint32(u.secondaryTip) && NullableUint32(u.agreedIndex)
    && (u.agreedIndex.None? <==> u.agreedHash.None?)
    && (u.agreedHash.Some? ==> IsHash(u.agreedHash.value))
    && (!u.state.Halted? ==> NotBeyond(u.agreedIndex, u.primaryTip) && NotBeyond(u.agreedIndex, u.secondaryTip))
    && (u.state.Ready? ==>
          && u.primaryTip.Some? && u.secondaryTip.Some? && u.agreedIndex.Some?
          && u.agreedIndex.value == Min(u.primaryTip.value, u.secondaryTip.value))
  }

  predicate Holds(row: StatusRow, token: Token) {
    row.writerId == Some(token.writerId) && row.epoch == token.epoch
  }

  /** The token holds the row and its lease has not run out. */
  predicate IsActive(row: Option<StatusRow>, token: Token, now: int) {
    && row.Some? && Holds(row.value, token)
    && row.value.leaseExpiresAt.Some? && row.value.leaseExpiresAt.value > now
  }

  function Acquire(row: Option<StatusRow>, writerId: string, durationMs: int, now: int): Result<StatusRow, LeaseError> {
    if !IsWriterId(writerId) || !IsLeaseDuration(durationMs) then Err(InvalidRequest)
    else
      var taken := StatusRow(Starting, None, None, None, None, None, Some(writerId), 1, Some(now + durationMs));
      match row
      case None => Ok(taken)
      case Some(r) =>
        if (r.leaseExpiresAt.None? || r.leaseExpiresAt.value <= now) && r.epoch <= MAX_SAFE_EPOCH - 1
        then Ok(taken.(epoch := r.epoch + 1))
        else Err(LeaseUnavailable)
  }

  function Renew(row: Option<StatusRow>, token: Token, durationMs: int, now: int): Result<StatusRow, LeaseError> {
    if !IsToken(token) || !IsLeaseDuration(durationMs) then Err(InvalidRequest)
    else if !IsActive(row, token, now) then Err(LeaseLost)
    else Ok(row.value.(leaseExpiresAt := Some(now + durationMs)))
  }

  function Published(row: StatusRow, u: StatusUpdate, errorCode: Option<string>): StatusRow {
    row.(state := u.state, primaryTip := u.primaryTip, secondaryTip := u.secondaryTip,
         agreedIndex := u.agreedIndex, agreedHash := u.agreedHash, errorCode := errorCode)
  }

  /** A worker may publish every state but `halted`. */
  function UpdateStatus(row: Option<StatusRow>, token: Token, u: StatusUpdate, now: int): Result<StatusRow, LeaseError>
                        {
    if !IsToken(token) || u.state.Halted? || !IsAcceptable(u) then Err(InvalidRequest)
    else if !IsActive(row, token, now) then Err(LeaseLost)
    else Ok(Published(row.value, u, None))
  }

  /** Giving up and halting need the token but not an unexpired lease. */
  function Release(row: Option<StatusRow>, token: Token): Result<StatusRow, LeaseError> {
    if !IsToken(token) then Err(InvalidRequest)
    else if row.None? || !Holds(row.value, token) then Err(LeaseLost)
    else Ok(row.value.(state := CatchingUp, errorCode := None, writerId := None, leaseExpiresAt := None))
  }

  function Halt(row: Option<StatusRow>, token: Token, u: StatusUpdate, errorCode: string): Result<StatusRow,
                LeaseError> {
    if !IsToken(token) || !IsAcceptable(u.(state := Halted)) || !IsErrorCode(errorCode) then Err(InvalidRequest)
    else if row.None? || !Holds(row.value, token) then Err(LeaseLost)
    else Ok(Published(row.value, u.(state := Halted), Some(errorCode)).(writerId := None, leaseExpiresAt := None))
  }

  // ---- What the lease guarantees ------------------------------------------------------------------

  /** While a lease runs nobody can take it over, and no other token is active. */
  lemma ActiveLeaseExcludes(row: Option<StatusRow>, token: Token, other: Token, durationMs: int, now: int)
    requires IsActive(row, token, now)
    ensures Acquire(row, other.writerId, durationMs, now).Err?
    ensures other != token ==>
              && Renew(row, other, durationMs, now).Err? && Release(row, other).Err?
              && (forall u :: UpdateStatus(row, other, u, now).Err?)
              && (forall u, code :: Halt(row, other, u, code).Err?)
  {
    assert other != token ==> !Holds(row.value, other);
    hide Holds;
  }

  /** An acquired or renewed lease is active until its whole duration has passed, under an epoch of its own. */
  lemma LeaseRuns(row: Option<StatusRow>, writerId: string, token: Token, durationMs: int, now: int, later: int)
    requires now <= later < now + durationMs
    ensures var acquired := Acquire(row, writerId, durationMs, now);
            acquired.Ok? ==>
              && IsActive(Some(acquired.value), Token(writerId, acquired.value.epoch), later)
              && IsToken(Token(writerId, acquired.value.epoch))
              && (row.Some? ==> acquired.value.epoch == row.value.epoch + 1)
              && acquired.value.state.Starting? && acquired.value.agreedIndex.None?
    ensures var renewed := Renew(row, token, durationMs, now);
            renewed.Ok? ==>
              && IsActive(Some(renewed.value), token, later)
              && row.Some? && renewed.value == row.value.(leaseExpiresAt := renewed.value.leaseExpiresAt)
  {
  }

  /** A lease that ran out, was given back or halted can be taken over by anyone, at once. */
  lemma EndedLeaseIsFree(row: StatusRow, writerId: string, durationMs: int, now: int)
    requires IsWriterId(writerId) && IsLeaseDuration(durationMs) && row.epoch < MAX_SAFE_EPOCH
    ensures Acquire(Some(row), writerId, durationMs, now).Ok?
            <==> row.leaseExpiresAt.None? || row.leaseExpiresAt.value <= now
    ensures forall token :: Release(Some(row), token).Ok? ==>
              Acquire(Some(Release(Some(row), token).value), writerId, durationMs, now).Ok?
    ensures forall token, u, code :: Halt(Some(row), token, u, code).Ok? ==>
              Acquire(Some(Halt(Some(row), token, u, code).value), writerId, durationMs, now).Ok?
  {
  }
}
