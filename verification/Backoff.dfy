/**
 The retry backoff (`BackoffPolicy`) and the rate limiter the metadata writer
 keeps with it (KIP-580).

 Delays are real numbers of nanoseconds. `draw` is the random draw of the
 jitter, as a fraction of its range.
 */
module Backoff {
  import opened Wrappers

  const U32_MAX: nat := 0xFFFF_FFFF
  const I32_MAX: nat := 0x7FFF_FFFF

  // ---- the policy ----

  datatype Policy = Policy(initial: nat, max: nat, multiplier: real, jitter: real)
  {
    /** The ceiling of the curve: never below where the curve starts. */
    function Ceiling(): (c: nat)
      ensures c >= initial && c >= max && (c == initial || c == max)
    {
      if max >= initial then max else initial
    }

    /** The jitter factor as it is read: clamped to `[0, 1]`. */
    function JitterFactor(): (f: real)
      ensures 0.0 <= f <= 1.0
    {
      if jitter < 0.0 then 0.0 else if jitter > 1.0 then 1.0 else jitter
    }
  }

  predicate IsDraw(draw: real) {
    -1.0 <= draw <= 1.0
  }

  function Power(x: real, n: nat): real {
    if n == 0 then 1.0 else x * Power(x, n - 1)
  }

  function MinReal(a: real, b: real): real {
    if a <= b then a else b
  }

  function MaxReal(a: real, b: real): real {
    if a >= b then a else b
  }

  function Exponent(attempt: nat): nat {
    if attempt == 0 then 0 else if attempt - 1 <= I32_MAX then attempt - 1 else I32_MAX
  }

  function Exponential(p: Policy, n: nat): real {
    p.initial as real * Power(p.multiplier, n)
  }

  /** The curve without jitter: exponential up to the ceiling. */
  function Base(p: Policy, attempt: nat): real {
    if p.initial >= p.Ceiling() then p.Ceiling() as real
    else MinReal(Exponential(p, Exponent(attempt)), p.Ceiling() as real)
  }

  /** How far the jitter can move a value. */
  function JitterRange(p: Policy, base: real): real {
    p.JitterFactor() * base
  }

  /** A value moved within a range around it, if there is any. */
  function Jittered(base: real, range: real, draw: real): real {
    if range > 0.0 then base + range * draw else base
  }

  /** `calculate_backoff`. */
  function Delay(p: Policy, attempt: nat, draw: real): real {
    if attempt == 0 then 0.0
    else
      var base := Base(p, attempt);
      MaxReal(Jittered(base, JitterRange(p, base), draw), p.initial as real)
  }

  lemma Scaled(x: real, a: real, b: real)
    requires x >= 0.0 && a <= b
    ensures x * a <= x * b
  {
    assert x * (b - a) >= 0.0;
  }

  lemma {:induction false} PowerGrows(x: real, n: nat)
    requires x >= 1.0
    ensures 1.0 <= Power(x, n) <= Power(x, n + 1)
  {
    if n > 0 {
      PowerGrows(x, n - 1);
    }
    Scaled(Power(x, n), 1.0, x);
  }

  lemma BernoulliStep(q: real, d: real, m: real)
    requires q >= 1.0 + m * d && d * q >= d
    ensures (1.0 + d) * q >= 1.0 + (m + 1.0) * d
  {
    assert (1.0 + d) * q == q + d * q && (m + 1.0) * d == m * d + d;
  }

  /** Bernoulli's inequality. */
  lemma {:induction false} PowerAtLeast(x: real, n: nat)
    requires x >= 1.0
    ensures Power(x, n) >= 1.0 + n as real * (x - 1.0)
  {
    if n > 0 {
      PowerAtLeast(x, n - 1);
      PowerGrows(x, n - 1);
      Scaled(x - 1.0, 1.0, Power(x, n - 1));
      BernoulliStep(Power(x, n - 1), x - 1.0, (n - 1) as real);
    }
  }

  lemma ExponentialGrows(p: Policy, n: nat)
    requires p.multiplier >= 1.0
    ensures p.initial as real <= Exponential(p, n) <= Exponential(p, n + 1)
  {
    PowerGrows(p.multiplier, n);
    hide Power;
    Scaled(p.initial as real, 1.0, Power(p.multiplier, n));
    Scaled(p.initial as real, Power(p.multiplier, n), Power(p.multiplier, n + 1));
  }

  /** A growing curve never falls, starting from the initial delay, and stays below the ceiling. */
  lemma BaseGrows(p: Policy, attempt: nat)
    requires p.multiplier >= 1.0 && attempt > 0
    ensures p.initial as real <= Base(p, attempt) <= Base(p, attempt + 1) <= p.Ceiling() as real
  {
    hide Exponential;
    ExponentialGrows(p, Exponent(attempt));
  }

  lemma ProductGrows(m: real, a: real)
    requires m >= 1.0 && a >= 0.0
    ensures m * a >= a
  {
    Scaled(a, 1.0, m);
  }

  lemma ExponentialSteps(p: Policy, n: nat)
    ensures Exponential(p, 0) == p.initial as real && Exponential(p, n + 1) == p.multiplier * Exponential(p, n)
  {
    var x, q, m := p.initial as real, Power(p.multiplier, n), p.multiplier;
    assert Power(m, n + 1) == m * q;
    assert x * (m * q) == m * (x * q);
  }

  /**
   The curve: the first attempt waits the initial delay, and each further one
   the multiple of the one before, until that would exceed the ceiling.
   */
  lemma CurveSteps(p: Policy, attempt: nat)
    requires p.multiplier >= 1.0 && 0 < attempt <= I32_MAX
    ensures Base(p, 1) == p.initial as real
    ensures p.multiplier * Base(p, attempt) <= p.Ceiling() as real ==> Base(p, attempt + 1) == p.multiplier * Base(p, attempt)
    ensures p.multiplier * Base(p, attempt) > p.Ceiling() as real ==> Base(p, attempt + 1) == p.Ceiling() as real
  {
    hide Exponential;
    var e := Exponential(p, attempt - 1);
    ExponentialSteps(p, 0);
    ExponentialSteps(p, attempt - 1);
    ExponentialGrows(p, attempt - 1);
    ProductGrows(p.multiplier, p.Ceiling() as real);
    if e > p.Ceiling() as real {
      Scaled(p.multiplier, p.Ceiling() as real, e);
    }
  }

  /** What the curve would be if it grew by its first step only. */
  function Linear(p: Policy, n: nat): real {
    p.initial as real * (1.0 + n as real * (p.multiplier - 1.0))
  }

  lemma ExponentialAtLeast(p: Policy, n: nat)
    requires p.multiplier >= 1.0
    ensures Exponential(p, n) >= Linear(p, n)
  {
    PowerAtLeast(p.multiplier, n);
    hide Power;
    Scaled(p.initial as real, 1.0 + n as real * (p.multiplier - 1.0), Power(p.multiplier, n));
  }

  /** It reaches the ceiling no later than linear growth by the first step would. */
  lemma CeilingIsReached(p: Policy, attempt: nat)
    requires p.multiplier >= 1.0 && 0 < attempt <= I32_MAX && Linear(p, attempt - 1) >= p.Ceiling() as real
    ensures Base(p, attempt) == p.Ceiling() as real
  {
    hide Exponential, Linear;
    ExponentialAtLeast(p, attempt - 1);
  }

  lemma ProductBounds(range: real, draw: real)
    requires range >= 0.0 && IsDraw(draw)
    ensures -range <= range * draw <= range
  {
    assert range * (1.0 - draw) >= 0.0 && range * (1.0 + draw) >= 0.0;
  }

  /** The jitter moves a value by no more than its range. */
  lemma JitterBounds(base: real, range: real, draw: real)
    requires IsDraw(draw)
    ensures range > 0.0 ==> base - range <= Jittered(base, range, draw) <= base + range
    ensures range <= 0.0 ==> Jittered(base, range, draw) == base
  {
    if range > 0.0 {
      ProductBounds(range, draw);
      var moved := range * draw;
      assert Jittered(base, range, draw) == base + moved;
    }
  }

  lemma RangeGrows(p: Policy, a: real, b: real)
    requires a <= b
    ensures JitterRange(p, a) <= JitterRange(p, b) && (b >= 0.0 ==> JitterRange(p, b) >= 0.0)
  {
    Scaled(p.JitterFactor(), a, b);
  }

  lemma JitterIsExact(base: real, range: real, draw: real)
    requires range >= 0.0
    ensures Jittered(base, range, draw) == base + range * draw
  {
    if range == 0.0 {
      assert range * draw == 0.0;
    }
  }

  /** The jitter moves the curve by its fraction of it, to either side, but never below the initial delay. */
  lemma DelayIsExact(p: Policy, attempt: nat, draw: real)
    requires p.multiplier >= 1.0 && attempt > 0 && IsDraw(draw)
    ensures var f := if p.jitter < 0.0 then 0.0 else if p.jitter > 1.0 then 1.0 else p.jitter;
            var moved := Base(p, attempt) + f * Base(p, attempt) * draw;
            Delay(p, attempt, draw) == if moved >= p.initial as real then moved else p.initial as real
    ensures Delay(p, 0, draw) == 0.0
  {
    hide Base, Jittered;
    BaseGrows(p, attempt);
    RangeGrows(p, Base(p, attempt), Base(p, attempt));
    JitterIsExact(Base(p, attempt), JitterRange(p, Base(p, attempt)), draw);
  }

  /**
   Whatever the multiplier, the attempt and the draw: never below the initial
   delay, below the curve by the jitter at most, and above the ceiling by the
   jitter at most.
   */
  lemma DelayBounds(p: Policy, attempt: nat, draw: real)
    requires attempt > 0 && IsDraw(draw)
    ensures p.initial as real <= Delay(p, attempt, draw)
    ensures Delay(p, attempt, draw) <= p.Ceiling() as real + JitterRange(p, p.Ceiling() as real)
    ensures Base(p, attempt) >= 0.0 ==> Base(p, attempt) - JitterRange(p, Base(p, attempt)) <= Delay(p, attempt, draw)
  {
    hide Base, Jittered, JitterRange;
    BaseBelowCeiling(p, attempt);
    RangeGrows(p, Base(p, attempt), p.Ceiling() as real);
    RangeGrows(p, Base(p, attempt), Base(p, attempt));
    JitterBounds(Base(p, attempt), JitterRange(p, Base(p, attempt)), draw);
  }

  lemma BaseBelowCeiling(p: Policy, attempt: nat)
    ensures Base(p, attempt) <= p.Ceiling() as real
  {
  }

  /** The first attempt can draw the initial delay itself, so the lower bound is met. */
  lemma InitialIsDrawn(p: Policy)
    ensures Base(p, 1) == Delay(p, 1, 0.0) == p.initial as real
  {
    assert Power(p.multiplier, 0) == 1.0;
  }

  // ---- the rate limiter ----

  datatype Limiter = Limiter(lastCompleted: Option<nat>, failures: nat, delay: real)

  const NEW_LIMITER := Limiter(None, 0, 0.0)

  /** A fetch is allowed at `now`. */
  predicate Allows(l: Limiter, now: nat) {
    l.lastCompleted.None? || SatSub(now, l.lastCompleted.value) as real >= l.delay
  }

  /** Account a fetch completed at `now`. */
  function Completed(l: Limiter, p: Policy, ok: bool, now: nat, draw: real): Limiter {
    var failures := if ok then 0 else if l.failures < U32_MAX then l.failures + 1 else U32_MAX;
    Limiter(Some(now), failures, Delay(p, if ok then 1 else failures, draw))
  }

  class RefreshBackoffState {
    var lastCompleted: Option<nat>
    var failures: nat
    var delay: real

    function Value(): Limiter
      reads this
    {
      Limiter(lastCompleted, failures, delay)
    }

    constructor ()
      ensures Value() == NEW_LIMITER && forall now :: Allows(Value(), now)
    {
      lastCompleted, failures, delay := None, 0, 0.0;
    }

    /** How long to wait before a fetch is allowed: exactly until then. */
    method Remaining(now: nat) returns (wait: Option<real>)
      requires lastCompleted.Some? ==> lastCompleted.value <= now
      ensures wait.None? <==> Allows(Value(), now)
      ensures wait.Some? ==> forall later: nat :: now <= later ==>
                (Allows(Value(), later) <==> (later - now) as real >= wait.value)
    {
      if lastCompleted.None? {
        return None;
      }
      var elapsed := SatSub(now, lastCompleted.value) as real;
      if elapsed >= delay {
        return None;
      }
      wait := Some(delay - elapsed);
    }

    /** A success drops back to the initial delay. */
    method RecordSuccess(p: Policy, now: nat, draw: real)
      requires IsDraw(draw)
      modifies this
      ensures Value() == Completed(old(Value()), p, true, now, draw)
      ensures p.initial as real <= delay <= p.Ceiling() as real + JitterRange(p, p.Ceiling() as real)
      ensures forall later: nat :: Allows(Value(), later) && p.initial > 0 ==> later >= now + p.initial
    {
      failures := 0;
      delay := Delay(p, 1, draw);
      lastCompleted := Some(now);
      DelayBounds(p, 1, draw);
    }

    /** A failure goes one step along the curve; the count saturates. */
    method RecordFailure(p: Policy, now: nat, draw: real)
      requires IsDraw(draw)
      modifies this
      ensures Value() == Completed(old(Value()), p, false, now, draw)
      ensures failures <= U32_MAX && (old(failures) < U32_MAX ==> failures == old(failures) + 1)
      ensures p.initial as real <= delay <= p.Ceiling() as real + JitterRange(p, p.Ceiling() as real)
      ensures forall later: nat :: Allows(Value(), later) && p.initial > 0 ==> later >= now + p.initial
    {
      failures := if failures < U32_MAX then failures + 1 else U32_MAX;
      delay := Delay(p, failures, draw);
      lastCompleted := Some(now);
      DelayBounds(p, failures, draw);
    }
  }
}
