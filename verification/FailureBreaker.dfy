/**
Holding a provider back after consecutive ambiguous failures
(`failure_breaker.rs`). Instants and durations are whole time units.
*/
module FailureBreaker {
  import opened Results

  const U32_MAX := 0xffff_ffff

  datatype Policy = Policy(threshold: nat, initial: nat, longest: nat)

  datatype Breaker = Breaker(failures: nat, openUntil: Option<int>, nextCooldown: nat)

  function New(p: Policy): Breaker {
    Breaker(0, None, p.initial)
  }

  function Least(a: nat, b: nat): nat {
    if a < b then a else b
  }

  predicate IsOpen(b: Breaker, now: int) {
    b.openUntil.Some? && b.openUntil.value > now
  }

  function Failing(p: Policy, b: Breaker, now: int): Breaker {
    var failures := Least(b.failures + 1, U32_MAX);
    if !IsOpen(b, now) && failures >= p.threshold then
      Breaker(failures, Some(now + b.nextCooldown), Least(b.nextCooldown * 2, p.longest))
    else b.(failures := failures)
  }

  function Completing(p: Policy, b: Breaker): Breaker {
    b.(failures := 0, nextCooldown := p.initial)
  }

  class FailureGate {
    const policy: Policy
    var consecutiveFailures: nat
    var openUntil: Option<int>
    var nextCooldown: nat

    constructor (p: Policy)
      ensures policy == p && State() == New(p)
    {
      policy := p;
      consecutiveFailures, openUntil, nextCooldown := 0, None, p.initial;
    }

    function State(): Breaker
      reads this
    {
      Breaker(consecutiveFailures, openUntil, nextCooldown)
    }

    /** How much longer it stays open: some positive time exactly while it is,
        and all of that time. */
    function OpenFor(now: int): (remaining: Option<nat>)
      reads this
      ensures remaining.Some? <==> IsOpen(State(), now)
      ensures remaining.Some? ==> remaining.value > 0 && !IsOpen(State(), now + remaining.value)
      ensures remaining.Some? ==> forall t | now <= t < now + remaining.value :: IsOpen(State(), t)
    {
      if openUntil.Some? && openUntil.value > now then Some(openUntil.value - now) else None
    }

    method RecordAmbiguousFailure(now: int)
      modifies this
      ensures State() == Failing(policy, old(State()), now)
    {
      consecutiveFailures := Least(consecutiveFailures + 1, U32_MAX);
      var open := openUntil.Some? && openUntil.value > now;
      if !open && consecutiveFailures >= policy.threshold {
        openUntil := Some(now + nextCooldown);
        nextCooldown := Least(nextCooldown * 2, policy.longest);
      }
    }

    method RecordCompletion()
      modifies this
      ensures State() == Completing(policy, old(State()))
    {
      consecutiveFailures := 0;
      nextCooldown := policy.initial;
    }
  }

  // ---------------------------------------------------------------------
  // Runs of failures.

  /** An open period, and the number of the failure that opened it. */
  datatype Period = Period(at: int, until: int, failure: nat)

  /** The periods opened by failures at `times`, `seen` failures having come
      before with no completion between. */
  function Periods(p: Policy, b: Breaker, times: seq<int>, seen: nat): seq<Period>
    decreases |times|
  {
    if |times| == 0 then []
    else
      var next := Failing(p, b, times[0]);
      (if !IsOpen(b, times[0]) && next.failures >= p.threshold && next.openUntil.Some?
       then [Period(times[0], next.openUntil.value, seen + 1)] else [])
      + Periods(p, next, times[1..], seen + 1)
  }

  predicate Monotone(times: seq<int>) {
    forall i, j | 0 <= i < j < |times| :: times[i] <= times[j]
  }

  function Doubled(initial: nat, k: nat): nat {
    if k == 0 then initial else 2 * Doubled(initial, k - 1)
  }

  /** The cooldown of the `k`-th opening, counting from 0. */
  function Cooldown(p: Policy, k: nat): nat {
    Least(Doubled(p.initial, k), p.longest)
  }

  /** The breaker after `k` openings and `seen` failures since a completion. */
  predicate Reached(p: Policy, b: Breaker, k: nat, seen: nat) {
    b.nextCooldown == Cooldown(p, k) && b.failures == Least(seen, U32_MAX)
  }

  lemma CooldownGrows(p: Policy, k: nat)
    ensures Cooldown(p, k + 1) == Least(Cooldown(p, k) * 2, p.longest)
  {
  }

  /** What the periods of one run of failures are like. */
  predicate Grow(p: Policy, periods: seq<Period>, k: nat) {
    && (forall i | 0 <= i < |periods| ::
          periods[i].until == periods[i].at + Cooldown(p, k + i) && periods[i].failure >= p.threshold)
    && (forall i | 0 <= i < |periods| - 1 :: periods[i].until <= periods[i + 1].at)
  }

  lemma GrowCons(p: Policy, first: Period, rest: seq<Period>, k: nat)
    requires Grow(p, rest, k + 1)
    requires first.until == first.at + Cooldown(p, k) && first.failure >= p.threshold
    requires |rest| > 0 ==> first.until <= rest[0].at
    ensures Grow(p, [first] + rest, k)
  {
  }

  lemma {:induction false} PeriodsGrow(p: Policy, b: Breaker, times: seq<int>, k: nat, seen: nat)
    requires Reached(p, b, k, seen) && Monotone(times) && p.threshold <= U32_MAX
    ensures Grow(p, Periods(p, b, times, seen), k)
    ensures |Periods(p, b, times, seen)| > 0 && b.openUntil.Some? ==>
        b.openUntil.value <= Periods(p, b, times, seen)[0].at
    decreases |times|
  {
    if |times| != 0 {
      var now, next := times[0], Failing(p, b, times[0]);
      var opens := !IsOpen(b, now) && next.failures >= p.threshold;
      CooldownGrows(p, k);
      PeriodsGrow(p, next, times[1..], if opens then k + 1 else k, seen + 1);
      var rest := Periods(p, next, times[1..], seen + 1);
      if opens {
        GrowCons(p, Period(now, now + b.nextCooldown, seen + 1), rest, k);
      } else {
        assert [] + rest == rest;
      }
    }
  }

  function CooldownSum(p: Policy, k: nat): nat {
    if k == 0 then 0 else CooldownSum(p, k - 1) + Cooldown(p, k - 1)
  }

  lemma {:induction false} SpanOfPeriods(p: Policy, periods: seq<Period>, k: nat)
    requires Grow(p, periods, 0) && k < |periods|
    ensures periods[k].at - periods[0].at >= CooldownSum(p, k)
  {
    if k != 0 {
      SpanOfPeriods(p, periods, k - 1);
      assert periods[k - 1].until <= periods[k].at;
    }
  }

  lemma FreshIsReached(p: Policy)
    requires p.initial <= p.longest
    ensures Reached(p, New(p), 0, 0)
    ensures forall b :: Reached(p, Completing(p, b), 0, 0)
  {
  }

  /** Breaker growth. From a fresh breaker, or just after a completion, and with
      no completion after: no opening comes before `threshold` failures, open
      periods never overlap, the `k`-th lasts its doubled and capped cooldown, and
      `k + 1` openings take at least the first `k` cooldowns together. */
  lemma BreakerGrowth(p: Policy, b: Breaker, times: seq<int>)
    requires p.initial <= p.longest && p.threshold <= U32_MAX && Monotone(times)
    requires b == New(p) || b == Completing(p, b)
    ensures var periods := Periods(p, b, times, 0);
            && (forall i | 0 <= i < |periods| ::
                  && periods[i].until - periods[i].at == Least(Doubled(p.initial, i), p.longest)
                  && periods[i].failure >= p.threshold
                  && periods[i].at - periods[0].at >= CooldownSum(p, i))
            && (forall i | 0 <= i < |periods| - 1 :: periods[i].until <= periods[i + 1].at)
  {
    FreshIsReached(p);
    PeriodsGrow(p, b, times, 0, 0);
    var periods := Periods(p, b, times, 0);
    forall i | 0 <= i < |periods| ensures periods[i].at - periods[0].at >= CooldownSum(p, i) {
      SpanOfPeriods(p, periods, i);
    }
  }

  function After(p: Policy, b: Breaker, times: seq<int>): Breaker
    decreases |times|
  {
    if |times| == 0 then b else After(p, Failing(p, b, times[0]), times[1..])
  }

  lemma {:induction false} FailuresCounted(p: Policy, b: Breaker, times: seq<int>, k: nat, seen: nat)
    returns (later: nat)
    requires Reached(p, b, k, seen) && p.threshold <= U32_MAX
    ensures Reached(p, After(p, b, times), later, seen + |times|)
    decreases |times|
  {
    if |times| != 0 {
      var opens := !IsOpen(b, times[0]) && Failing(p, b, times[0]).failures >= p.threshold;
      CooldownGrows(p, k);
      later := FailuresCounted(p, Failing(p, b, times[0]), times[1..], if opens then k + 1 else k, seen + 1);
    } else {
      later := k;
    }
  }

  lemma {:induction false} AfterOneMore(p: Policy, b: Breaker, times: seq<int>, now: int)
    ensures After(p, b, times + [now]) == Failing(p, After(p, b, times), now)
    decreases |times|
  {
    if |times| == 0 {
      assert times + [now] == [now] && [now][1..] == [];
    } else {
      assert (times + [now])[0] == times[0] && (times + [now])[1..] == times[1..] + [now];
      AfterOneMore(p, Failing(p, b, times[0]), times[1..], now);
    }
  }

  lemma CooldownPositive(p: Policy, k: nat)
    requires p.initial > 0 && p.longest > 0
    ensures Cooldown(p, k) > 0
  {
    if k > 0 {
      CooldownPositive(p, k - 1);
      CooldownGrows(p, k - 1);
    }
  }

  /** The threshold, both ways. After any failures in a row from a closed start, the
      breaker is open right after one more exactly when that makes `threshold` of them or
      it was open already. */
  lemma ThresholdOpens(p: Policy, b: Breaker, times: seq<int>, now: int)
    requires 0 < p.initial <= p.longest && p.threshold <= U32_MAX
    requires b == New(p) || b == Completing(p, b)
    ensures var before := After(p, b, times);
            IsOpen(After(p, b, times + [now]), now) <==> IsOpen(before, now) || |times| + 1 >= p.threshold
  {
    FreshIsReached(p);
    var k := FailuresCounted(p, b, times, 0, 0);
    CooldownPositive(p, k);
    AfterOneMore(p, b, times, now);
  }

  // ---------------------------------------------------------------------
  // Failures and completions, mixed.

  datatype Act = Fails(at: int) | Completes

  function Acted(p: Policy, b: Breaker, act: Act): Breaker {
    match act
    case Fails(at) => Failing(p, b, at)
    case Completes => Completing(p, b)
  }

  function ActedAll(p: Policy, b: Breaker, acts: seq<Act>): Breaker
    decreases |acts|
  {
    if |acts| == 0 then b else ActedAll(p, Acted(p, b, acts[0]), acts[1..])
  }

  /** An opening lasts. As long as the breaker would be open, neither completions nor further
      failures close it early or prolong it. */
  lemma {:induction false} OpeningLasts(p: Policy, b: Breaker, acts: seq<Act>, now: int)
    requires IsOpen(b, now) && forall a | a in acts && a.Fails? :: a.at <= now
    ensures IsOpen(ActedAll(p, b, acts), now) && ActedAll(p, b, acts).openUntil == b.openUntil
    decreases |acts|
  {
    if |acts| != 0 {
      assert acts[0] in acts && forall a | a in acts[1..] :: a in acts;
      OpeningLasts(p, Acted(p, b, acts[0]), acts[1..], now);
    }
  }

  /** And a completion starts the count and the cooldown anew: with the breaker closed, it takes
      as many failures to open it as from the start, and for as long. */
  lemma {:induction false} CompletionStartsAnew(p: Policy, b: Breaker, acts: seq<Act>)
    ensures var (after, anew) := (ActedAll(p, Completing(p, b), acts), ActedAll(p, New(p), acts));
            (forall a | a in acts && a.Fails? :: !IsOpen(b, a.at)) ==>
              && after.failures == anew.failures && after.nextCooldown == anew.nextCooldown
              && (anew.openUntil.Some? ==> after.openUntil == anew.openUntil)
  {
    if forall a | a in acts && a.Fails? :: !IsOpen(b, a.at) {
      SameCount(p, Completing(p, b), New(p), acts, b.openUntil);
    }
  }

  /** Two breakers alike but for an opening that is over. */
  lemma {:induction false} SameCount(p: Policy, b: Breaker, c: Breaker, acts: seq<Act>, past: Option<int>)
    requires b.failures == c.failures && b.nextCooldown == c.nextCooldown
    requires b.openUntil == c.openUntil || (c.openUntil.None? && b.openUntil == past)
    requires forall a | a in acts && a.Fails? :: past.Some? ==> past.value <= a.at
    ensures var (after, anew) := (ActedAll(p, b, acts), ActedAll(p, c, acts));
            && after.failures == anew.failures && after.nextCooldown == anew.nextCooldown
            && (anew.openUntil.Some? ==> after.openUntil == anew.openUntil)
    decreases |acts|
  {
    if |acts| != 0 {
      assert acts[0] in acts && forall a | a in acts[1..] :: a in acts;
      SameCount(p, Acted(p, b, acts[0]), Acted(p, c, acts[0]), acts[1..], past);
    }
  }
}
