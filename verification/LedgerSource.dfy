/**
 Two independent XRPL sources read as one: a ledger counts only when both report the same, the effective tip is the
 lower one, and neither tip may go back.
 */
module LedgerSource {
  import opened Base
  import opened LedgerModel
  import opened Replay

  datatype SourceError =
    | SOURCE_UNAVAILABLE
    | SOURCE_DIVERGENCE
    | SOURCE_NETWORK_MISMATCH
    | SOURCE_TIP_REGRESSION

  datatype Tips = Tips(primary: nat, secondary: nat, effective: nat)

  datatype PreflightReply = PreflightReply(networkId: int, activationLedger: Ledger, tip: nat)

  /** One source as its answers: None is a failed request. The first argument counts the requests made so far. */
  datatype Endpoint = Endpoint(
    connects: nat -> bool,
    preflight: nat -> Option<PreflightReply>,
    tip: nat -> Option<nat>,
    ledger: (nat, nat) -> Option<Ledger>)

  /** The two answers to one ledger request, when they agree. */
  function AgreedLedger(primary: Endpoint, secondary: Endpoint, call: nat, ledgerIndex: nat): Option<Ledger> {
    if primary.ledger(call, ledgerIndex) == secondary.ledger(call, ledgerIndex)
    then primary.ledger(call, ledgerIndex) else None
  }

  /** The assumption behind the quorum: two independent sources never agree on a wrong ledger. */
  ghost predicate Truthful(s: Setting, primary: Endpoint, secondary: Endpoint) {
    forall call: nat, ledgerIndex: nat ::
      AgreedLedger(primary, secondary, call, ledgerIndex).Some? ==>
        AgreedLedger(primary, secondary, call, ledgerIndex).value == s.history(ledgerIndex)
  }

  predicate TipsDoNotRegress(previous: Option<Tips>, current: Tips) {
    previous.None? || (previous.value.primary <= current.primary && previous.value.secondary <= current.secondary)
  }

  class QuorumLedgerSource {
    const primary: Endpoint
    const secondary: Endpoint
    var calls: nat
    var lastTips: Option<Tips>

    constructor (primary: Endpoint, secondary: Endpoint)
      ensures this.primary == primary && this.secondary == secondary
      ensures calls == 0 && lastTips == None
    {
      this.primary, this.secondary := primary, secondary;
      calls, lastTips := 0, None;
    }

    /** The tips that both sources name in one call. */
    function TipsAt(call: nat): Option<Tips> {
      if primary.tip(call).None? || secondary.tip(call).None? then None
      else
        var p, q := primary.tip(call).value, secondary.tip(call).value;
        Some(Tips(p, q, Min(p, q)))
    }

    method Connect() returns (r: Result<(), SourceError>)
      modifies this`calls
      ensures r.Ok? <==> primary.connects(old(calls)) && secondary.connects(old(calls))
      ensures calls == old(calls) + 1
    {
      var ok := primary.connects(calls) && secondary.connects(calls);
      calls := calls + 1;
      if ok { return Ok(()); } else { return Err(SOURCE_UNAVAILABLE); }
    }

    /** Either both tips move on together, or the recorded ones stay. */
    method RecordTips(p: nat, q: nat) returns (r: Result<Tips, SourceError>)
      modifies this`lastTips
      ensures r == if old(lastTips).Some? && (p < old(lastTips).value.primary || q < old(lastTips).value.secondary)
                   then Err(SOURCE_TIP_REGRESSION)
                   else Ok(Tips(p, q, if p <= q then p else q))
      ensures lastTips == if r.Ok? then Some(r.value) else old(lastTips)
    {
      var tips := Tips(p, q, Min(p, q));
      if !TipsDoNotRegress(lastTips, tips) { return Err(SOURCE_TIP_REGRESSION); }
      lastTips := Some(tips);
      return Ok(tips);
    }

    method Preflight(profile: Profile) returns (r: Result<Tips, SourceError>)
      modifies this
      ensures calls == old(calls) + 1
      ensures r.Ok? ==>
                var p, q := primary.preflight(old(calls)), secondary.preflight(old(calls));
                && p.Some? && q.Some? && p.value.networkId == q.value.networkId == profile.networkId
                && p.value.activationLedger == q.value.activationLedger
                && r.value.primary == p.value.tip && r.value.secondary == q.value.tip
                && r.value.effective == if r.value.primary <= r.value.secondary then r.value.primary else r.value.secondary
      ensures r.Err? ==>
                var p, q := primary.preflight(old(calls)), secondary.preflight(old(calls));
                r.error ==
                if p.None? || q.None? then SOURCE_UNAVAILABLE
                else if p.value.networkId != profile.networkId || q.value.networkId != profile.networkId
                then SOURCE_NETWORK_MISMATCH
                else if p.value.activationLedger != q.value.activationLedger then SOURCE_DIVERGENCE
                else SOURCE_TIP_REGRESSION
      ensures r.Ok? ==> lastTips == Some(r.value) && TipsDoNotRegress(old(lastTips), r.value)
      ensures r.Err? ==> lastTips == old(lastTips)
    {
      var p, q := primary.preflight(calls), secondary.preflight(calls);
      calls := calls + 1;
      if p.None? || q.None? { return Err(SOURCE_UNAVAILABLE); }
      if p.value.networkId != profile.networkId || q.value.networkId != profile.networkId {
        return Err(SOURCE_NETWORK_MISMATCH);
      }
      if p.value.activationLedger != q.value.activationLedger { return Err(SOURCE_DIVERGENCE); }
      r := RecordTips(p.value.tip, q.value.tip);
    }

    method GetValidatedLedgerTips() returns (r: Result<Tips, SourceError>)
      modifies this
      ensures calls == old(calls) + 1
      ensures r.Ok? <==> TipsAt(old(calls)).Some? && TipsDoNotRegress(old(lastTips), TipsAt(old(calls)).value)
      ensures r.Ok? ==> Some(r.value) == TipsAt(old(calls))
      ensures r.Ok? ==>
                && primary.tip(old(calls)) == Some(r.value.primary) && secondary.tip(old(calls)) == Some(r.value.secondary)
                && r.value.effective == (if r.value.primary <= r.value.secondary then r.value.primary else r.value.secondary)
                && (old(lastTips).Some? ==> old(lastTips).value.primary <= r.value.primary
                                            && old(lastTips).value.secondary <= r.value.secondary)
      ensures r.Err? ==>
                r.error == if primary.tip(old(calls)).None? || secondary.tip(old(calls)).None? then SOURCE_UNAVAILABLE
                           else SOURCE_TIP_REGRESSION
      ensures r.Ok? ==> lastTips == Some(r.value) && TipsDoNotRegress(old(lastTips), r.value)
      ensures r.Err? ==> lastTips == old(lastTips)
    {
      var p, q := primary.tip(calls), secondary.tip(calls);
      calls := calls + 1;
      if p.None? || q.None? { return Err(SOURCE_UNAVAILABLE); }
      r := RecordTips(p.value, q.value);
    }

    /** A ledger the quorum agrees on is the validated one. */
    method GetLedger(s: Setting, ledgerIndex: nat) returns (r: Result<Ledger, SourceError>)
      requires Truthful(s, primary, secondary)
      modifies this`calls
      ensures calls == old(calls) + 1
      ensures r.Ok? <==> AgreedLedger(primary, secondary, old(calls), ledgerIndex).Some?
      ensures var p, q := primary.ledger(old(calls), ledgerIndex), secondary.ledger(old(calls), ledgerIndex);
              r == if p.None? || q.None? then Err(SOURCE_UNAVAILABLE)
                   else if p != q then Err(SOURCE_DIVERGENCE)
                   else Ok(p.value)
      ensures r.Ok? ==> r.value == s.history(ledgerIndex)
    {
      var p, q := primary.ledger(calls, ledgerIndex), secondary.ledger(calls, ledgerIndex);
      assert p == q ==> p == AgreedLedger(primary, secondary, calls, ledgerIndex);
      calls := calls + 1;
      if p.None? || q.None? { return Err(SOURCE_UNAVAILABLE); }
      if p != q { return Err(SOURCE_DIVERGENCE); }
      return Ok(p.value);
    }
  }
}
