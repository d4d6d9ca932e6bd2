/** Token quotas: usage accounting and the start gate (runtime/quota.py). Floats
    are modelled as reals. */
module Quota {
  import opened Wrappers

  datatype QuotaState = QuotaState(used: int, limit: Option<int>, remaining: Option<real>)

  datatype Policy = Policy(warningBelow: real, pauseBelow: real, hardStop: bool, manualLimit: Option<int>)

  datatype Verdict = Unknown | Paused | Warning | Fine

  /** A limit as JSON stores it: 0 reads back as no limit. */
  function Truthy(limit: Option<int>): Option<int> {
    if limit == Some(0) then None else limit
  }

  function Percent(used: int, limit: int): real
    requires limit != 0
  {
    var left := 100.0 - used as real / limit as real * 100.0;
    if left >= 0.0 then left else 0.0
  }

  function Updated(s: QuotaState, delta: int, percent: Option<real>, limit: Option<int>): QuotaState {
    var newLimit := if limit.Some? then limit else s.limit;
    var used := s.used + delta;
    var computed := if percent.None? && Truthy(newLimit).Some? then Some(Percent(used, newLimit.value)) else percent;
    QuotaState(used, newLimit, if computed.Some? then computed else s.remaining)
  }

  /** What a report does to the state before it: tokens add up, a limit replaces, and the
      share is the reported one, or else what the total leaves of a positive limit,
      never below 0; without either it stays. */
  ghost predicate Reported(before: QuotaState, after: QuotaState, delta: int, percent: Option<real>,
                           limit: Option<int>)
  {
    && after.used == before.used + delta
    && (if limit.Some? then after.limit == limit else after.limit == before.limit)
    && (percent.Some? ==> after.remaining == percent)
    && (percent.None? && (after.limit.None? || after.limit == Some(0)) ==> after.remaining == before.remaining)
    && (percent.None? && after.limit.Some? && after.limit.value > 0 ==>
          && after.remaining.Some?
          && (after.used >= after.limit.value ==> after.remaining.value == 0.0)
          && (after.used < after.limit.value ==>
                after.remaining.value * after.limit.value as real
                == 100.0 * (after.limit.value - after.used) as real))
  }

  lemma UpdateMeans(before: QuotaState, delta: int, percent: Option<real>, limit: Option<int>)
    ensures Reported(before, Updated(before, delta, percent, limit), delta, percent, limit)
  {
    var after := Updated(before, delta, percent, limit);
    if after.limit.Some? && after.limit.value > 0 {
      PercentMeans(after.used, after.limit.value);
    }
  }

  lemma PercentMeans(used: int, limit: int)
    requires limit > 0
    ensures used >= limit ==> Percent(used, limit) == 0.0
    ensures used < limit ==> Percent(used, limit) * limit as real == 100.0 * (limit - used) as real
  {
    var u, l := used as real, limit as real;
    var share := u / l;
    assert share * l == u;
    BelowOneIff(share, l);
    assert (100.0 - share * 100.0) * l == 100.0 * l - 100.0 * (share * l);
  }

  lemma BelowOneIff(share: real, whole: real)
    requires whole > 0.0
    ensures share < 1.0 <==> share * whole < whole
  {
    if share < 1.0 {
      assert (1.0 - share) * whole > 0.0;
    } else {
      assert (share - 1.0) * whole >= 0.0;
    }
  }

  function Gate(policy: Policy, s: QuotaState): Verdict {
    match s.remaining
    case None => Unknown
    case Some(r) =>
      if r < policy.pauseBelow && policy.hardStop then Paused
      else if r < policy.warningBelow then Warning
      else Fine
  }

  class QuotaStore {
    var stored: Option<QuotaState>

    constructor ()
      ensures stored.None?
    {
      stored := None;
    }

    function Load(policy: Policy): QuotaState
      reads this
    {
      match stored
      case None => QuotaState(0, policy.manualLimit, None)
      case Some(s) => s.(limit := Truthy(s.limit))
    }

    method UpdateUsage(policy: Policy, delta: int, percent: Option<real>, limit: Option<int>)
        returns (s: QuotaState)
      modifies this
      ensures s == Updated(old(Load(policy)), delta, percent, limit) && stored == Some(s)
      ensures old(stored).None? ==> Reported(QuotaState(0, policy.manualLimit, None), s, delta, percent, limit)
      ensures old(stored).Some? ==>
                var t := old(stored).value;
                Reported(if t.limit == Some(0) then t.(limit := None) else t, s, delta, percent, limit)
    {
      var before := Load(policy);
      var newLimit := if limit.Some? then limit else before.limit;
      var used := before.used + delta;
      var remaining := percent;
      if remaining.None? && newLimit.Some? && newLimit.value != 0 {
        remaining := Some(Percent(used, newLimit.value));
      }
      s := QuotaState(used, newLimit, if remaining.Some? then remaining else before.remaining);
      stored := Some(s);
      UpdateMeans(before, delta, percent, limit);
    }

    /** A start is refused exactly if a share is stored that is below the pause
        threshold of a hard-stop policy; a missing record or share always allows. */
    method AllowsStart(policy: Policy) returns (allowed: bool, s: QuotaState, verdict: Verdict)
      ensures !allowed <==>
                && stored.Some? && stored.value.remaining.Some?
                && stored.value.remaining.value < policy.pauseBelow && policy.hardStop
      ensures !allowed <==> verdict == Paused
      ensures verdict == Unknown <==> stored.None? || stored.value.remaining.None?
      ensures verdict == Warning <==>
                && allowed && stored.Some? && stored.value.remaining.Some?
                && stored.value.remaining.value < policy.warningBelow
      ensures stored.Some? ==> s.used == stored.value.used && s.remaining == stored.value.remaining
      ensures stored.None? ==> s == QuotaState(0, policy.manualLimit, None)
      ensures stored.Some? ==> s.limit == if stored.value.limit == Some(0) then None else stored.value.limit
      ensures verdict == Gate(policy, s)
    {
      s := Load(policy);
      if s.remaining.None? {
        return true, s, Unknown;
      }
      var remaining := s.remaining.value;
      if remaining < policy.pauseBelow && policy.hardStop {
        return false, s, Paused;
      }
      if remaining < policy.warningBelow {
        return true, s, Warning;
      }
      return true, s, Fine;
    }
  }

  // ---- Runs of updates against one positive limit ----------------------

  /** The state after a sequence of plain usage reports. */
  function After(s: QuotaState, deltas: seq<nat>): QuotaState {
    if deltas == [] then s
    else Updated(After(s, deltas[..|deltas| - 1]), deltas[|deltas| - 1], None, None)
  }

  function Sum(deltas: seq<nat>): nat {
    if deltas == [] then 0 else Sum(deltas[..|deltas| - 1]) + deltas[|deltas| - 1]
  }

  lemma ShareGrows(a: int, b: int, limit: int)
    requires 0 <= a <= b && limit > 0
    ensures 0.0 <= a as real / limit as real <= b as real / limit as real
  {
    var l, x, y := limit as real, a as real, b as real;
    assert y / l - x / l == (y - x) / l;
    assert (y - x) / l >= 0.0;
    assert x / l >= 0.0;
  }

  lemma PercentFalls(a: int, b: int, limit: int)
    requires 0 <= a <= b && limit > 0
    ensures 0.0 <= Percent(b, limit) <= Percent(a, limit) <= 100.0
  {
    ShareGrows(a, b, limit);
  }

  /** Conservation: tokens used are the start value plus everything reported, and
      the remaining share is a function of that total alone. */
  lemma {:induction false} UsageIsConserved(s: QuotaState, deltas: seq<nat>)
    requires s.limit.Some? && s.limit.value > 0 && s.used >= 0
    ensures After(s, deltas).limit == s.limit
    ensures After(s, deltas).used == s.used + Sum(deltas)
    ensures deltas != [] ==>
              After(s, deltas).remaining == Some(Percent(s.used + Sum(deltas), s.limit.value))
    ensures deltas != [] ==> 0.0 <= After(s, deltas).remaining.value <= 100.0
  {
    if deltas != [] {
      UsageIsConserved(s, deltas[..|deltas| - 1]);
      PercentFalls(s.used + Sum(deltas), s.used + Sum(deltas), s.limit.value);
    }
  }

  /** The stored share does not claim less than the stored usage leaves. */
  ghost predicate Honest(s: QuotaState) {
    s.remaining.Some? && s.limit.Some? && s.limit.value > 0 ==>
      s.remaining.value >= Percent(s.used, s.limit.value)
  }

  lemma {:induction false} SumOfPrefix(deltas: seq<nat>, i: nat, j: nat)
    requires i <= j <= |deltas|
    ensures Sum(deltas[..i]) <= Sum(deltas[..j])
    decreases j
  {
    if i < j {
      assert deltas[..j][..j - 1] == deltas[..j - 1];
      SumOfPrefix(deltas, i, j - 1);
    }
  }

  /** The remaining share never rises along a run. */
  lemma RemainingNeverRises(s: QuotaState, deltas: seq<nat>, i: nat, j: nat)
    requires s.limit.Some? && s.limit.value > 0 && s.used >= 0 && Honest(s) && i <= j <= |deltas|
    ensures After(s, deltas[..i]).remaining.Some? ==>
              && After(s, deltas[..j]).remaining.Some?
              && After(s, deltas[..j]).remaining.value <= After(s, deltas[..i]).remaining.value
  {
    SumOfPrefix(deltas, i, j);
    SharesFall(s, deltas[..i], deltas[..j]);
  }

  /** The share after some reports is the one its total leaves. */
  lemma ShareAfter(s: QuotaState, deltas: seq<nat>)
    requires s.limit.Some? && s.limit.value > 0 && s.used >= 0
    ensures After(s, deltas).remaining ==
              if deltas == [] then s.remaining else Some(Percent(s.used + Sum(deltas), s.limit.value))
  {
    UsageIsConserved(s, deltas);
  }

  lemma SharesFall(s: QuotaState, early: seq<nat>, late: seq<nat>)
    requires s.limit.Some? && s.limit.value > 0 && s.used >= 0 && Honest(s)
    requires Sum(early) <= Sum(late) && |early| <= |late|
    ensures After(s, early).remaining.Some? ==>
              && After(s, late).remaining.Some?
              && After(s, late).remaining.value <= After(s, early).remaining.value
  {
    ShareAfter(s, early);
    ShareAfter(s, late);
    PercentFalls(s.used + Sum(early), s.used + Sum(late), s.limit.value);
    PercentFalls(s.used, s.used + Sum(late), s.limit.value);
  }

  /** Once a hard-stop policy refuses a start, every later start is refused. */
  lemma RefusalIsFinal(policy: Policy, s: QuotaState, deltas: seq<nat>, i: nat, j: nat)
    requires s.limit.Some? && s.limit.value > 0 && s.used >= 0 && Honest(s) && i <= j <= |deltas|
    requires Gate(policy, After(s, deltas[..i])) == Paused
    ensures Gate(policy, After(s, deltas[..j])) == Paused
  {
    RemainingNeverRises(s, deltas, i, j);
  }

  /** An explicitly reported share is overwritten by the next plain report. It can
      rise then, and a refused start be allowed again, exactly if the stored share
      was below what the stored usage leaves. */
  lemma ExplicitShareHoldsIff(s: QuotaState)
    requires s.limit.Some? && s.limit.value > 0 && s.used >= 0 && s.remaining.Some?
    ensures (forall delta: nat :: Updated(s, delta, None, None).remaining.value <= s.remaining.value)
            <==> Honest(s)
  {
    forall delta: nat ensures Updated(s, delta, None, None).remaining.value <= Percent(s.used, s.limit.value) {
      PercentFalls(s.used, s.used + delta, s.limit.value);
    }
    assert Updated(s, 0, None, None).remaining == Some(Percent(s.used, s.limit.value));
  }

  /** A provider reports that 10 per cent are left, and a hard stop at 20 refuses;
      the next plain report of one token out of 100 allows a start again. */
  lemma PlainReportLiftsRefusal()
    ensures var policy, s := Policy(30.0, 20.0, true, None), QuotaState(0, Some(100), Some(10.0));
            && !Honest(s) && Gate(policy, s) == Paused
            && Updated(s, 1, None, None).remaining == Some(99.0)
            && Gate(policy, Updated(s, 1, None, None)) == Fine
  {
    assert 1 as real / 100 as real * 100.0 == 1.0;
  }
}
