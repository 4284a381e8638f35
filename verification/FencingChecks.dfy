/** Each lease operation in the columns of the status row: when it is refused and as what, and the row it leaves. */
module FencingChecks {
  import opened Base
  import opened Fencing

  /** Names of writers and codes of errors, by the codes of their characters. */
  lemma NamesExactly(s: string)
    ensures IsWriterId(s) <==>
              && 1 <= |s| <= 128 && s[0] !in "._:-"
              && forall i :: 0 <= i < |s| ==>
                   48 <= s[i] as int <= 57 || 65 <= s[i] as int <= 90 || 97 <= s[i] as int <= 122 || s[i] in "._:-"
    ensures IsErrorCode(s) <==>
              && 1 <= |s| <= 64 && 65 <= s[0] as int <= 90
              && forall i :: 0 <= i < |s| ==> 65 <= s[i] as int <= 90 || 48 <= s[i] as int <= 57 || s[i] == '_'
  {
  }

  /** The lease is free when there is no row, no end, or an end that has come; epochs stay below 2^53. */
  lemma AcquiredExactly(row: Option<StatusRow>, writerId: string, durationMs: int, now: int)
    ensures Acquire(row, writerId, durationMs, now) ==
            if !IsWriterId(writerId) || durationMs < 10_000 || durationMs > 300_000 then Err(InvalidRequest)
            else if row.Some? && ((row.value.leaseExpiresAt.Some? && row.value.leaseExpiresAt.value > now)
                                  || row.value.epoch >= 9_007_199_254_740_991) then Err(LeaseUnavailable)
            else
              Ok(StatusRow(Starting, None, None, None, None, None, Some(writerId),
                           if row.None? then 1 else row.value.epoch + 1, Some(now + durationMs)))
  {
    hide IsWriterId;
  }

  /** Only the current token renews, only before the end, and only the end moves. */
  lemma RenewedExactly(row: Option<StatusRow>, token: Token, durationMs: int, now: int)
    ensures Renew(row, token, durationMs, now) ==
            if !IsWriterId(token.writerId) || token.epoch < 1 || token.epoch > 9_007_199_254_740_991
               || durationMs < 10_000 || durationMs > 300_000 then Err(InvalidRequest)
            else if && row.Some? && row.value.writerId == Some(token.writerId) && row.value.epoch == token.epoch
                    && row.value.leaseExpiresAt.Some? && now < row.value.leaseExpiresAt.value
            then Ok(row.value.(leaseExpiresAt := Some(now + durationMs)))
            else Err(LeaseLost)
  {
    hide IsWriterId;
  }

  /**
   Which status may be written: tips and index within 32 bits, the hash with the index and only with it, no agreement
   beyond a known tip unless halted, and for a ready one agreement at the lower of both tips.
   */
  lemma AcceptableExactly(u: StatusUpdate)
    ensures IsAcceptable(u) <==>
              && (u.primaryTip.Some? ==> 0 <= u.primaryTip.value <= 0xFFFF_FFFF)
              && (u.secondaryTip.Some? ==> 0 <= u.secondaryTip.value <= 0xFFFF_FFFF)
              && (u.agreedIndex.Some? ==> 0 <= u.agreedIndex.value <= 0xFFFF_FFFF)
              && (u.agreedIndex.Some? <==> u.agreedHash.Some?)
              && (u.agreedHash.Some? ==>
                    && |u.agreedHash.value| == 64
                    && forall i :: 0 <= i < 64 ==> u.agreedHash.value[i] in "0123456789abcdef")
              && (u.state != Halted && u.agreedIndex.Some? && u.primaryTip.Some? ==>
                    u.agreedIndex.value <= u.primaryTip.value)
              && (u.state != Halted && u.agreedIndex.Some? && u.secondaryTip.Some? ==>
                    u.agreedIndex.value <= u.secondaryTip.value)
              && (u.state == Ready ==>
                    && u.primaryTip.Some? && u.secondaryTip.Some? && u.agreedIndex.Some?
                    && u.agreedIndex.value in {u.primaryTip.value, u.secondaryTip.value})
  {
    hide IsLowerHexChar;
    HexIsLiteral();
  }

  /** A status is written by the current token before its lease ends, never as halted, and clears the error. */
  lemma UpdatedExactly(row: Option<StatusRow>, token: Token, u: StatusUpdate, now: int)
    ensures UpdateStatus(row, token, u, now) ==
            if !IsWriterId(token.writerId) || token.epoch < 1 || token.epoch > 9_007_199_254_740_991
               || u.state == Halted || !IsAcceptable(u) then Err(InvalidRequest)
            else if && row.Some? && row.value.writerId == Some(token.writerId) && row.value.epoch == token.epoch
                    && row.value.leaseExpiresAt.Some? && now < row.value.leaseExpiresAt.value
            then Ok(StatusRow(u.state, u.primaryTip, u.secondaryTip, u.agreedIndex, u.agreedHash, None,
                              row.value.writerId, row.value.epoch, row.value.leaseExpiresAt))
            else Err(LeaseLost)
  {
    hide IsWriterId, IsAcceptable;
  }

  /** The current token may give the lease back even after its end; the agreement stays readable. */
  lemma ReleasedExactly(row: Option<StatusRow>, token: Token)
    ensures Release(row, token) ==
            if !IsWriterId(token.writerId) || token.epoch < 1 || token.epoch > 9_007_199_254_740_991
            then Err(InvalidRequest)
            else if row.Some? && row.value.writerId == Some(token.writerId) && row.value.epoch == token.epoch
            then Ok(StatusRow(CatchingUp, row.value.primaryTip, row.value.secondaryTip, row.value.agreedIndex,
                              row.value.agreedHash, None, None, row.value.epoch, None))
            else Err(LeaseLost)
  {
    hide IsWriterId;
  }

  /** The current token may halt, with a code, which also gives the lease back. */
  lemma HaltedExactly(row: Option<StatusRow>, token: Token, u: StatusUpdate, errorCode: string)
    ensures Halt(row, token, u, errorCode) ==
            if !IsWriterId(token.writerId) || token.epoch < 1 || token.epoch > 9_007_199_254_740_991
               || !IsAcceptable(u.(state := Halted)) || !IsErrorCode(errorCode) then Err(InvalidRequest)
            else if row.Some? && row.value.writerId == Some(token.writerId) && row.value.epoch == token.epoch
            then Ok(StatusRow(Halted, u.primaryTip, u.secondaryTip, u.agreedIndex, u.agreedHash, Some(errorCode), None,
                              row.value.epoch, None))
            else Err(LeaseLost)
  {
    hide IsWriterId, IsAcceptable, IsErrorCode;
  }
}
