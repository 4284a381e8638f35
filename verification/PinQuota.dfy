/**
 Reserving demo pins: single-use challenges and a quota over the last 24 hours, per wallet and per requester, in
 serialised transactions whose clocks need not agree.
 */
module PinQuota {
  import opened Base

  const DAY_MS := 24 * 60 * 60 * 1_000

  datatype Challenge = Challenge(
    challengeId: string,
    profileId: string,
    wallet: string,
    requesterIpHash: string,
    expiresAt: int,
    usedAt: Option<int>)

  datatype PinStatus = PinPending | Pinned | PinFailed | Unpinned

  datatype Pin = Pin(
    pinId: string,
    challengeId: string,
    profileId: string,
    wallet: string,
    requesterIpHash: string,
    status: PinStatus,
    expiresAt: int,
    createdAt: int)

  datatype Reservation = Reservation(
    pinId: string,
    challengeId: string,
    profileId: string,
    wallet: string,
    requesterIpHash: string,
    dailyLimit: nat,
    expiresAt: int,
    now: int)

  datatype PinError =
    | CHALLENGE_NOT_FOUND
    | CHALLENGE_USED
    | CHALLENGE_EXPIRED
    | CHALLENGE_MISMATCH
    | WALLET_QUOTA_EXCEEDED
    | IP_QUOTA_EXCEEDED
    | DUPLICATE_KEY

  /** Challenges by identifier, and pins in the order of their insertion. */
  datatype PinTables = PinTables(challenges: map<string, Challenge>, pins: seq<Pin>)

  /** A predicate on pins that a quota counts. */
  datatype Subject = OfWallet(wallet: string) | OfRequester(requesterIpHash: string)

  predicate Counts(subject: Subject, pin: Pin) {
    match subject
    case OfWallet(wallet) => pin.wallet == wallet
    case OfRequester(hash) => pin.requesterIpHash == hash
  }

  predicate IsWithin(pin: Pin, lo: int, hi: Option<int>) {
    lo <= pin.createdAt && (hi.Some? ==> pin.createdAt <= hi.value)
  }

  /** How many pins of a subject were created within [lo, hi]; None means no upper end. */
  function CountIn(pins: seq<Pin>, subject: Subject, lo: int, hi: Option<int>): nat {
    if pins == [] then 0
    else
      var n := |pins| - 1;
      CountIn(pins[..n], subject, lo, hi) + (if Counts(subject, pins[n]) && IsWithin(pins[n], lo, hi) then 1 else 0)
  }

  function PinOf(r: Reservation): Pin {
    Pin(r.pinId, r.challengeId, r.profileId, r.wallet, r.requesterIpHash, PinPending, r.expiresAt, r.now)
  }

  predicate HasPinId(pins: seq<Pin>, pinId: string) {
    exists i :: 0 <= i < |pins| && pins[i].pinId == pinId
  }

  predicate IsReferenced(pins: seq<Pin>, challengeId: string) {
    exists i :: 0 <= i < |pins| && pins[i].challengeId == challengeId
  }

  function Reserved(t: PinTables, r: Reservation): Result<PinTables, PinError> {
    if r.challengeId !in t.challenges then Err(CHALLENGE_NOT_FOUND)
    else
      var c := t.challenges[r.challengeId];
      var since := r.now - DAY_MS;
      if c.usedAt.Some? then Err(CHALLENGE_USED)
      else if c.expiresAt <= r.now then Err(CHALLENGE_EXPIRED)
      else if c.profileId != r.profileId || c.wallet != r.wallet || c.requesterIpHash != r.requesterIpHash
      then Err(CHALLENGE_MISMATCH)
      else if CountIn(t.pins, OfWallet(r.wallet), since, None) >= r.dailyLimit then Err(WALLET_QUOTA_EXCEEDED)
      else if CountIn(t.pins, OfRequester(r.requesterIpHash), since, None) >= r.dailyLimit then Err(IP_QUOTA_EXCEEDED)
      else if HasPinId(t.pins, r.pinId) then Err(DUPLICATE_KEY)
      else Ok(PinTables(t.challenges[r.challengeId := c.(usedAt := Some(r.now))], t.pins + [PinOf(r)]))
  }

  /** Updating the status of one pin if it is still in one of the given states. */
  function WithStatus(pins: seq<Pin>, pinId: string, allowed: set<PinStatus>, status: PinStatus): seq<Pin> {
    seq(|pins|, i requires 0 <= i < |pins| =>
      if pins[i].pinId == pinId && pins[i].status in allowed then pins[i].(status := status) else pins[i])
  }

  /** Expired challenges that no pin refers to, out of those that the query picked. */
  function Deletable(t: PinTables, picked: set<string>, now: int): set<string> {
    set id | id in picked && id in t.challenges && t.challenges[id].expiresAt <= now && !IsReferenced(t.pins, id)
  }

  // ---- The repository ------------------------------------------------------------------------------

  class PinningRepository {
    var challenges: map<string, Challenge>
    var pins: seq<Pin>

    constructor ()
      ensures Tables() == PinTables(map[], [])
    {
      challenges, pins := map[], [];
    }

    function Tables(): PinTables
      reads this
    {
      PinTables(challenges, pins)
    }

    method CreateChallenge(c: Challenge) returns (ok: bool)
      modifies this
      ensures ok <==> c.challengeId !in old(challenges)
      ensures Tables() == if ok then PinTables(old(challenges)[c.challengeId := c], old(pins)) else old(Tables())
    {
      if c.challengeId in challenges { return false; }
      challenges := challenges[c.challengeId := c];
      return true;
    }

    /** SELECT count(*) with a lower end only. */
    method CountSince(subject: Subject, since: int) returns (n: nat)
      ensures n == CountIn(pins, subject, since, None)
    {
      n := 0;
      for i := 0 to |pins|
        invariant n == CountIn(pins[..i], subject, since, None)
      {
        assert pins[..i + 1][..i] == pins[..i];
        if Counts(subject, pins[i]) && pins[i].createdAt >= since { n := n + 1; }
      }
      assert pins[..|pins|] == pins;
    }

    method ReservePin(r: Reservation) returns (outcome: Result<Pin, PinError>)
      modifies this
      ensures match Reserved(old(Tables()), r)
              case Ok(after) => outcome == Ok(PinOf(r)) && Tables() == after
              case Err(e) => outcome == Err(e) && Tables() == old(Tables())
    {
      if r.challengeId !in challenges { return Err(CHALLENGE_NOT_FOUND); }
      var c := challenges[r.challengeId];
      if c.usedAt.Some? { return Err(CHALLENGE_USED); }
      if c.expiresAt <= r.now { return Err(CHALLENGE_EXPIRED); }
      if c.profileId != r.profileId || c.wallet != r.wallet || c.requesterIpHash != r.requesterIpHash {
        return Err(CHALLENGE_MISMATCH);
      }
      var walletQuota := CountSince(OfWallet(r.wallet), r.now - DAY_MS);
      var ipQuota := CountSince(OfRequester(r.requesterIpHash), r.now - DAY_MS);
      if walletQuota >= r.dailyLimit { return Err(WALLET_QUOTA_EXCEEDED); }
      if ipQuota >= r.dailyLimit { return Err(IP_QUOTA_EXCEEDED); }
      if HasPinId(pins, r.pinId) { return Err(DUPLICATE_KEY); }
      challenges := challenges[r.challengeId := c.(usedAt := Some(r.now))];
      pins := pins + [PinOf(r)];
      return Ok(PinOf(r));
    }

    method SetStatus(pinId: string, allowed: set<PinStatus>, status: PinStatus)
      modifies this`pins
      ensures pins == WithStatus(old(pins), pinId, allowed, status)
      ensures |pins| == |old(pins)|
      ensures forall k :: 0 <= k < |pins| ==>
                var before := old(pins)[k];
                pins[k] == if before.pinId == pinId && before.status in allowed then before.(status := status) else before
    {
      var i := 0;
      while i < |pins|
        invariant i <= |pins| == |old(pins)|
        invariant forall k :: 0 <= k < i ==> pins[k] == WithStatus(old(pins), pinId, allowed, status)[k]
        invariant forall k :: i <= k < |pins| ==> pins[k] == old(pins)[k]
      {
        if pins[i].pinId == pinId && pins[i].status in allowed {
          pins := pins[i := pins[i].(status := status)];
        }
        i := i + 1;
      }
    }

    method MarkPinned(pinId: string)
      modifies this`pins
      ensures |pins| == |old(pins)|
      ensures forall k :: 0 <= k < |pins| ==>
                var before := old(pins)[k];
                pins[k] == if before.pinId == pinId && before.status.PinPending? then before.(status := Pinned) else before
    {
      SetStatus(pinId, {PinPending}, Pinned);
    }

    method MarkFailed(pinId: string)
      modifies this`pins
      ensures |pins| == |old(pins)|
      ensures forall k :: 0 <= k < |pins| ==>
                var before := old(pins)[k];
                pins[k] == if before.pinId == pinId && before.status.PinPending? then before.(status := PinFailed) else before
    {
      SetStatus(pinId, {PinPending}, PinFailed);
    }

    method MarkUnpinned(pinId: string)
      modifies this`pins
      ensures |pins| == |old(pins)|
      ensures forall k :: 0 <= k < |pins| ==>
                var before := old(pins)[k];
                pins[k] == if before.pinId == pinId && (before.status.PinPending? || before.status.Pinned?)
                           then before.(status := Unpinned) else before
    {
      SetStatus(pinId, {PinPending, Pinned}, Unpinned);
    }

    /** The picked rows are those that the limit and the row locks of other sessions leave to this query. */
    method DeleteExpiredUnreferencedChallenges(picked: set<string>, now: int) returns (deleted: nat)
      modifies this`challenges
      ensures challenges == old(challenges) - Deletable(old(Tables()), picked, now)
      ensures deleted == |Deletable(old(Tables()), picked, now)|
    {
      var gone := Deletable(Tables(), picked, now);
      challenges := challenges - gone;
      return |gone|;
    }
  }

  // ---- Every run -------------------------------------------------------------------------------------

  datatype PinOp =
    | NewChallenge(challenge: Challenge)
    | Reserve(reservation: Reservation)
    | Mark(pinId: string, allowed: set<PinStatus>, status: PinStatus)
    | Sweep(picked: set<string>, now: int)

  function Apply(t: PinTables, op: PinOp): PinTables {
    match op
    case NewChallenge(c) =>
      if c.challengeId in t.challenges || c.usedAt.Some? then t else t.(challenges := t.challenges[c.challengeId := c])
    case Reserve(r) => if Reserved(t, r).Ok? then Reserved(t, r).value else t
    case Mark(pinId, allowed, status) => t.(pins := WithStatus(t.pins, pinId, allowed, status))
    case Sweep(picked, now) => t.(challenges := t.challenges - Deletable(t, picked, now))
  }

  function After(ops: seq<PinOp>): PinTables {
    if ops == [] then PinTables(map[], [])
    else Apply(After(ops[..|ops| - 1]), ops[|ops| - 1])
  }

  /** Every reservation of the run asks for at most this daily limit. */
  predicate LimitedTo(ops: seq<PinOp>, limit: nat) {
    forall i :: 0 <= i < |ops| && ops[i].Reserve? ==> ops[i].reservation.dailyLimit <= limit
  }

  // ---- The rolling quota -------------------------------------------------------------------------------

  /** An interval that ends no earlier counts at most what the quota check of its last pin counted. */
  lemma {:induction false} CountWithin(pins: seq<Pin>, subject: Subject, lo: int, hi: Option<int>, since: int)
    requires since <= lo
    ensures CountIn(pins, subject, lo, hi) <= CountIn(pins, subject, since, None)
    decreases |pins|
  {
    if pins != [] { CountWithin(pins[..|pins| - 1], subject, lo, hi, since); }
  }

  lemma {:induction false} StatusIsNotCounted(pins: seq<Pin>, pinId: string, allowed: set<PinStatus>, status: PinStatus,
                                             subject: Subject, lo: int, hi: Option<int>)
    ensures CountIn(WithStatus(pins, pinId, allowed, status), subject, lo, hi) == CountIn(pins, subject, lo, hi)
    decreases |pins|
  {
    if pins != [] {
      var n := |pins| - 1;
      StatusIsNotCounted(pins[..n], pinId, allowed, status, subject, lo, hi);
      assert WithStatus(pins, pinId, allowed, status)[..n] == WithStatus(pins[..n], pinId, allowed, status);
    }
  }

  lemma ReservationIsWithinQuota(t: PinTables, r: Reservation, subject: Subject, at: int, limit: nat)
    requires r.dailyLimit <= limit && Reserved(t, r).Ok?
    requires CountIn(t.pins, subject, at - DAY_MS, Some(at)) <= limit
    ensures CountIn(Reserved(t, r).value.pins, subject, at - DAY_MS, Some(at)) <= limit
  {
    var after := Reserved(t, r).value.pins;
    assert after[..|after| - 1] == t.pins;
    if Counts(subject, PinOf(r)) && at - DAY_MS <= r.now <= at {
      CountWithin(t.pins, subject, at - DAY_MS, Some(at), r.now - DAY_MS);
    }
  }

  /**
   The quota holds in every window of 24 hours, wherever it lies and whatever the clocks of the reservations said:
   no wallet and no requester ever has more pins created in it than the daily limit.
   */
  lemma {:induction false} RollingQuota(ops: seq<PinOp>, limit: nat, subject: Subject, at: int)
    requires LimitedTo(ops, limit)
    ensures CountIn(After(ops).pins, subject, at - DAY_MS, Some(at)) <= limit
    decreases |ops|
  {
    hide CountIn, Reserved;
    if ops == [] {
      NoPins(subject, at);
    } else {
      var init, op := ops[..|ops| - 1], ops[|ops| - 1];
      RollingQuota(init, limit, subject, at);
      match op {
        case Reserve(r) =>
          if Reserved(After(init), r).Ok? { ReservationIsWithinQuota(After(init), r, subject, at, limit); }
        case Mark(pinId, allowed, status) =>
          StatusIsNotCounted(After(init).pins, pinId, allowed, status, subject, at - DAY_MS, Some(at));
        case _ =>
      }
    }
  }

  lemma NoPins(subject: Subject, at: int)
    ensures CountIn([], subject, at - DAY_MS, Some(at)) == 0
  {
  }

  // ---- Counting as the rows say it ------------------------------------------------------------------------

  /** The rows that a quota counts, by their positions. */
  function Rows(pins: seq<Pin>, subject: Subject, lo: int, hi: Option<int>): set<int> {
    set i | 0 <= i < |pins| && Counts(subject, pins[i]) && IsWithin(pins[i], lo, hi)
  }

  lemma {:induction false} CountIsCardinality(pins: seq<Pin>, subject: Subject, lo: int, hi: Option<int>)
    ensures CountIn(pins, subject, lo, hi) == |Rows(pins, subject, lo, hi)|
    decreases |pins|
  {
    if pins != [] {
      hide Counts, IsWithin;
      CountIsCardinality(pins[..|pins| - 1], subject, lo, hi);
      RowsOfPrefix(pins, subject, lo, hi);
    }
  }

  lemma RowsOfPrefix(pins: seq<Pin>, subject: Subject, lo: int, hi: Option<int>)
    requires pins != []
    ensures var n := |pins| - 1;
            var before := Rows(pins[..n], subject, lo, hi);
            && n !in before
            && Rows(pins, subject, lo, hi)
               == if Counts(subject, pins[n]) && IsWithin(pins[n], lo, hi) then before + {n} else before
  {
    hide Counts, IsWithin;
  }

  /**
   The answer to a reservation, in the order of the checks: its challenge exists, is unspent and unexpired and was issued
   for the same profile, wallet and requester; fewer pins than the limit were created for the wallet, and for the
   requester, in the last 24 hours; the identifier is new. Then the challenge is spent and one pending pin is added.
   */
  lemma ReservedExactly(t: PinTables, r: Reservation)
    ensures Reserved(t, r) ==
            if r.challengeId !in t.challenges then Err(CHALLENGE_NOT_FOUND)
            else if t.challenges[r.challengeId].usedAt.Some? then Err(CHALLENGE_USED)
            else if t.challenges[r.challengeId].expiresAt <= r.now then Err(CHALLENGE_EXPIRED)
            else if t.challenges[r.challengeId].profileId != r.profileId || t.challenges[r.challengeId].wallet != r.wallet
                    || t.challenges[r.challengeId].requesterIpHash != r.requesterIpHash then Err(CHALLENGE_MISMATCH)
            else if r.dailyLimit <= |set i | 0 <= i < |t.pins| && t.pins[i].wallet == r.wallet
                                             && r.now - 86_400_000 <= t.pins[i].createdAt| then Err(WALLET_QUOTA_EXCEEDED)
            else if r.dailyLimit <= |set i | 0 <= i < |t.pins| && t.pins[i].requesterIpHash == r.requesterIpHash
                                             && r.now - 86_400_000 <= t.pins[i].createdAt| then Err(IP_QUOTA_EXCEEDED)
            else if exists i :: 0 <= i < |t.pins| && t.pins[i].pinId == r.pinId then Err(DUPLICATE_KEY)
            else
              Ok(PinTables(
                t.challenges[r.challengeId := t.challenges[r.challengeId].(usedAt := Some(r.now))],
                t.pins + [Pin(r.pinId, r.challengeId, r.profileId, r.wallet, r.requesterIpHash, PinPending,
                              r.expiresAt, r.now)]))
  {
    hide CountIn;
    var since := r.now - DAY_MS;
    CountIsCardinality(t.pins, OfWallet(r.wallet), since, None);
    CountIsCardinality(t.pins, OfRequester(r.requesterIpHash), since, None);
    assert Rows(t.pins, OfWallet(r.wallet), since, None)
        == set i | 0 <= i < |t.pins| && t.pins[i].wallet == r.wallet && r.now - 86_400_000 <= t.pins[i].createdAt;
    assert Rows(t.pins, OfRequester(r.requesterIpHash), since, None)
        == set i | 0 <= i < |t.pins| && t.pins[i].requesterIpHash == r.requesterIpHash
                   && r.now - 86_400_000 <= t.pins[i].createdAt;
  }

  /** In every window of 24 hours no wallet and no requester has more pins created than the daily limit. */
  lemma QuotaPerDay(ops: seq<PinOp>, limit: nat, wallet: string, requester: string, at: int)
    requires forall i :: 0 <= i < |ops| && ops[i].Reserve? ==> ops[i].reservation.dailyLimit <= limit
    ensures var pins := After(ops).pins;
            |set i | 0 <= i < |pins| && pins[i].wallet == wallet && at - 86_400_000 <= pins[i].createdAt <= at| <= limit
    ensures var pins := After(ops).pins;
            |set i | 0 <= i < |pins| && pins[i].requesterIpHash == requester
                     && at - 86_400_000 <= pins[i].createdAt <= at| <= limit
  {
    hide After, CountIn;
    RollingQuota(ops, limit, OfWallet(wallet), at);
    RollingQuota(ops, limit, OfRequester(requester), at);
    var pins := After(ops).pins;
    CountIsCardinality(pins, OfWallet(wallet), at - DAY_MS, Some(at));
    CountIsCardinality(pins, OfRequester(requester), at - DAY_MS, Some(at));
    assert Rows(pins, OfWallet(wallet), at - DAY_MS, Some(at))
        == set i | 0 <= i < |pins| && pins[i].wallet == wallet && at - 86_400_000 <= pins[i].createdAt <= at;
    assert Rows(pins, OfRequester(requester), at - DAY_MS, Some(at))
        == set i | 0 <= i < |pins| && pins[i].requesterIpHash == requester && at - 86_400_000 <= pins[i].createdAt <= at;
  }

  // ---- What backs a pin --------------------------------------------------------------------------------------

  predicate IsBacked(t: PinTables, pin: Pin) {
    && pin.challengeId in t.challenges
    && var c := t.challenges[pin.challengeId];
    && c.usedAt == Some(pin.createdAt) && pin.createdAt < c.expiresAt
    && c.profileId == pin.profileId && c.wallet == pin.wallet && c.requesterIpHash == pin.requesterIpHash
  }

  predicate AllBacked(t: PinTables) {
    forall i :: 0 <= i < |t.pins| ==> IsBacked(t, t.pins[i])
  }

  lemma ApplyKeepsBacking(t: PinTables, op: PinOp)
    requires AllBacked(t)
    ensures AllBacked(Apply(t, op))
  {
    hide CountIn;
    var after := Apply(t, op);
    forall i | 0 <= i < |after.pins| ensures IsBacked(after, after.pins[i]) {
      if i < |t.pins| {
        assert IsBacked(t, t.pins[i]);
        if op.Sweep? { assert IsReferenced(t.pins, t.pins[i].challengeId); }
      }
    }
  }

  /**
   Whatever happens to challenges meanwhile, every pin keeps the challenge that it was reserved with: issued for the same
   profile, wallet and requester, spent when the pin was created, and not expired by then.
   */
  lemma {:induction false} EveryPinIsBacked(ops: seq<PinOp>, i: nat)
    requires i < |After(ops).pins|
    ensures var t := After(ops);
            var pin := t.pins[i];
            && pin.challengeId in t.challenges
            && var c := t.challenges[pin.challengeId];
            && c.usedAt == Some(pin.createdAt) && pin.createdAt < c.expiresAt
            && c.profileId == pin.profileId && c.wallet == pin.wallet && c.requesterIpHash == pin.requesterIpHash
  {
    hide After;
    AllPinsAreBacked(ops);
    assert IsBacked(After(ops), After(ops).pins[i]);
  }

  lemma {:induction false} AllPinsAreBacked(ops: seq<PinOp>)
    ensures AllBacked(After(ops))
    decreases |ops|
  {
    hide Apply, IsBacked;
    if ops != [] {
      AllPinsAreBacked(ops[..|ops| - 1]);
      ApplyKeepsBacking(After(ops[..|ops| - 1]), ops[|ops| - 1]);
    }
  }

  /** A status update changes the status of the one pin it names, if it is in an allowed state, and nothing else. */
  lemma MarkedExactly(t: PinTables, pinId: string, allowed: set<PinStatus>, status: PinStatus, i: nat)
    requires i < |t.pins|
    ensures var after := Apply(t, Mark(pinId, allowed, status));
            && after.challenges == t.challenges && |after.pins| == |t.pins|
            && after.pins[i] == (if t.pins[i].pinId == pinId && t.pins[i].status in allowed
                                 then t.pins[i].(status := status) else t.pins[i])
  {
  }

  /** A sweep removes exactly the picked challenges that are expired and back no pin. */
  lemma SweptExactly(t: PinTables, picked: set<string>, now: int, id: string)
    ensures id in Deletable(t, picked, now) <==>
              && id in picked && id in t.challenges && t.challenges[id].expiresAt <= now
              && forall i :: 0 <= i < |t.pins| ==> t.pins[i].challengeId != id
  {
  }

  // ---- Single use ---------------------------------------------------------------------------------------

  predicate SingleUse(t: PinTables) {
    && (forall i, j :: 0 <= i < j < |t.pins| ==> t.pins[i].challengeId != t.pins[j].challengeId)
    && (forall i, j :: 0 <= i < j < |t.pins| ==> t.pins[i].pinId != t.pins[j].pinId)
    && (forall i :: 0 <= i < |t.pins| ==> IsSpent(t, t.pins[i].challengeId))
  }

  predicate IsSpent(t: PinTables, challengeId: string) {
    challengeId in t.challenges && t.challenges[challengeId].usedAt.Some?
  }

  lemma ApplyKeepsSingleUse(t: PinTables, op: PinOp)
    requires SingleUse(t)
    ensures SingleUse(Apply(t, op))
  {
    hide CountIn;
    var after := Apply(t, op);
    forall i | 0 <= i < |after.pins| ensures IsSpent(after, after.pins[i].challengeId) {
      if i < |t.pins| { assert IsSpent(t, t.pins[i].challengeId); }
      if op.Sweep? { assert IsReferenced(t.pins, t.pins[i].challengeId); }
    }
  }

  /** However challenges are created, spent, expired and swept, no challenge ever backs two pins. */
  lemma {:induction false} ChallengesAreSingleUse(ops: seq<PinOp>)
    ensures SingleUse(After(ops))
    ensures var pins := After(ops).pins;
            forall i, j :: 0 <= i < j < |pins| ==>
              pins[i].challengeId != pins[j].challengeId && pins[i].pinId != pins[j].pinId
    decreases |ops|
  {
    hide Apply;
    if ops != [] {
      ChallengesAreSingleUse(ops[..|ops| - 1]);
      ApplyKeepsSingleUse(After(ops[..|ops| - 1]), ops[|ops| - 1]);
    }
  }

  // ---- Status transitions --------------------------------------------------------------------------------

  predicate MayBecome(before: PinStatus, after: PinStatus) {
    || before == after
    || (before.PinPending? && (after.Pinned? || after.PinFailed? || after.Unpinned?))
    || (before.Pinned? && after.Unpinned?)
  }

  /** The status updates the repository makes. */
  predicate IsRepositoryMark(op: PinOp) {
    op.Mark? ==>
      || (op.allowed == {PinPending} && (op.status.Pinned? || op.status.PinFailed?))
      || (op.allowed == {PinPending, Pinned} && op.status.Unpinned?)
  }

  /** Pins are never removed or rewritten; only their status moves, and failed and unpinned are final. */
  lemma {:induction false} PinsOnlyAdvance(ops: seq<PinOp>, more: seq<PinOp>, i: nat)
    requires forall k :: 0 <= k < |more| ==> IsRepositoryMark(more[k])
    requires i < |After(ops).pins|
    ensures i < |After(ops + more).pins|
    ensures var before, after := After(ops).pins[i], After(ops + more).pins[i];
            MayBecome(before.status, after.status) && after == before.(status := after.status)
    decreases |more|
  {
    hide CountIn;
    if more == [] {
      assert ops + more == ops;
    } else {
      var init := more[..|more| - 1];
      PinsOnlyAdvance(ops, init, i);
      assert (ops + more)[..|ops + more| - 1] == ops + init;
      assert IsRepositoryMark(more[|more| - 1]);
    }
  }
}
