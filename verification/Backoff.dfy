/** The arithmetic of the retry delays. */
module Backoff {
  import opened Common
  import opened Retrying

  lemma {:induction false} PowGrows(m: real, n: nat)
    requires m >= 1.0
    ensures Pow(m, n) >= 1.0
    ensures Pow(m, n + 1) >= Pow(m, n)
  {
    if n > 0 {
      PowGrows(m, n - 1);
    }
    assert (m - 1.0) * Pow(m, n) >= 0.0;
  }

  lemma BaseStep(cfg: Config, k: nat)
    requires cfg.Growing() && k >= 1
    ensures 0.0 <= Base(cfg, k) <= Base(cfg, k + 1) <= cfg.maxDelay as real
  {
    PowGrows(cfg.multiplier, k - 1);
    assert cfg.initialDelay as real * Pow(cfg.multiplier, k - 1) >= 0.0;
    assert cfg.initialDelay as real * (Pow(cfg.multiplier, k) - Pow(cfg.multiplier, k - 1)) >= 0.0;
  }

  /** Without jitter delays never shrink, and once at the cap they stay there. */
  lemma {:induction false} UnjitteredDelaysGrow(cfg: Config, j: nat, k: nat, u: real, v: real)
    requires cfg.Growing() && !cfg.jitter && 1 <= j <= k
    ensures Base(cfg, j) <= Base(cfg, k)
    ensures 0 <= DelayFor(cfg, j, u) <= DelayFor(cfg, k, v) <= cfg.maxDelay
    ensures DelayFor(cfg, j, u) == cfg.maxDelay ==> DelayFor(cfg, k, v) == cfg.maxDelay
    decreases k
  {
    BaseStep(cfg, j);
    BaseStep(cfg, k);
    if j < k {
      UnjitteredDelaysGrow(cfg, j, k - 1, u, v);
      BaseStep(cfg, k - 1);
    }
    TruncateMonotone(Base(cfg, j), Base(cfg, k));
    TruncateMonotone(Base(cfg, k), cfg.maxDelay as real);
  }

  lemma ProductNotNegative(x: real, y: real)
    requires x >= 0.0 && y >= 0.0
    ensures x * y >= 0.0
  {
  }

  lemma JitterRange(base: real, u: real)
    requires base >= 0.0 && 0.0 <= u < 1.0
    ensures 0.75 * base <= Jittered(base, u) <= 1.25 * base
  {
    var shift, quarter := u * 2.0 - 1.0, base * 0.25;
    ProductNotNegative(1.0 + shift, quarter);
    ProductNotNegative(1.0 - shift, quarter);
  }

  /** With jitter the branch for negative delays is never taken, and the delay lies between
      three quarters of the base and the smaller of five quarters and the cap. */
  lemma {:induction false} JitteredDelayRange(cfg: Config, k: nat, u: real)
    requires cfg.Growing() && k >= 1 && 0.0 <= u < 1.0
    ensures Jittered(Base(cfg, k), u) >= 0.0
    ensures Truncate(0.75 * Base(cfg, k)) <= DelayFor(cfg, k, u) <= cfg.maxDelay
    ensures 0 <= DelayFor(cfg, k, u) && DelayFor(cfg, k, u) as real <= 1.25 * Base(cfg, k)
  {
    BaseStep(cfg, k);
    var base := Base(cfg, k);
    JitterRange(base, u);
    if cfg.jitter {
      TruncateMonotone(0.75 * base, Capped(Jittered(base, u), cfg.maxDelay));
    } else {
      TruncateMonotone(0.75 * base, base);
    }
  }

  // ----- The exact delay -----

  function Least(x: real, y: real): real {
    if x <= y then x else y
  }

  /** The multiple of a delay, but not more than the cap. */
  function NextDelay(cfg: Config, delay: real): real {
    Least(cfg.multiplier * delay, cfg.maxDelay as real)
  }

  /** The delay before jitter, from one attempt to the next: the first is the initial delay, each
      further one the multiple of the one before, never more than the cap. */
  function Stepwise(cfg: Config, k: nat): real
    requires k >= 1
  {
    if k == 1 then Least(cfg.initialDelay as real, cfg.maxDelay as real)
    else NextDelay(cfg, Stepwise(cfg, k - 1))
  }

  /** With the random number u: times a factor from 0.75 at u = 0 over 1 at u = 1/2 towards 1.25
      at u = 1, again not more than the cap, in whole nanoseconds. */
  function WithJitter(cfg: Config, delay: real, u: real): int {
    Least(delay * (0.75 + u / 2.0), cfg.maxDelay as real).Floor
  }

  lemma ProductKeepsOrder(m: real, x: real, y: real)
    requires m >= 1.0 && 0.0 <= y <= x
    ensures m * x >= y && m * x >= m * y
  {
    ProductNotNegative(m - 1.0, x);
    ProductNotNegative(m, x - y);
  }

  lemma NextTerm(i: real, m: real, p: real)
    ensures m * (i * p) == i * (m * p)
  {
  }

  lemma CapLater(cfg: Config, term: real)
    requires cfg.Growing() && term >= 0.0
    ensures NextDelay(cfg, Capped(term, cfg.maxDelay)) == Capped(cfg.multiplier * term, cfg.maxDelay)
  {
    var m, cap := cfg.multiplier, cfg.maxDelay as real;
    if term > cap {
      ProductKeepsOrder(m, term, cap);
      ProductKeepsOrder(m, cap, cap);
    }
  }

  /** The n-th delay without the cap. */
  function Term(cfg: Config, n: nat): real {
    cfg.initialDelay as real * Pow(cfg.multiplier, n)
  }

  lemma TermStep(cfg: Config, n: nat)
    requires cfg.Growing()
    ensures Term(cfg, n) >= 0.0 && Term(cfg, n + 1) == cfg.multiplier * Term(cfg, n)
  {
    PowGrows(cfg.multiplier, n);
    ProductNotNegative(cfg.initialDelay as real, Pow(cfg.multiplier, n));
    NextTerm(cfg.initialDelay as real, cfg.multiplier, Pow(cfg.multiplier, n));
  }

  lemma FirstTerm(cfg: Config)
    ensures Term(cfg, 0) == cfg.initialDelay as real
  {
    assert Pow(cfg.multiplier, 0) == 1.0;
  }

  lemma BaseTerm(cfg: Config, n: nat)
    ensures Base(cfg, n + 1) == Capped(Term(cfg, n), cfg.maxDelay)
  {
  }

  lemma {:induction false} BaseIsStepwise(cfg: Config, k: nat)
    requires cfg.Growing() && k >= 1
    ensures Base(cfg, k) == Stepwise(cfg, k)
  {
    hide NextDelay, Base, Term;
    BaseTerm(cfg, k - 1);
    if k == 1 {
      FirstTerm(cfg);
    } else {
      BaseTerm(cfg, k - 2);
      TermStep(cfg, k - 2);
      BaseIsStepwise(cfg, k - 1);
      CapLater(cfg, Term(cfg, k - 2));
    }
  }

  lemma JitterFactor(base: real, u: real)
    ensures Jittered(base, u) == base * (0.75 + u / 2.0)
  {
  }

  lemma DelayUnderCap(cfg: Config, k: nat, u: real)
    requires k >= 1 && Jittered(Base(cfg, k), u) >= 0.0
    ensures DelayFor(cfg, k, u) ==
            Truncate(if cfg.jitter then Capped(Jittered(Base(cfg, k), u), cfg.maxDelay) else Base(cfg, k))
  {
  }

  lemma JitterUnderCap(cfg: Config, b: real, u: real)
    requires b >= 0.0 && 0.0 <= u < 1.0 && cfg.maxDelay >= 0
    ensures Truncate(Capped(Jittered(b, u), cfg.maxDelay)) == WithJitter(cfg, b, u)
  {
    JitterFactor(b, u);
    JitterRange(b, u);
    hide Jittered;
  }

  /** For a growing backoff, the delay is that amount in whole nanoseconds, or jittered. */
  lemma {:induction false} DelayExactly(cfg: Config, k: nat, u: real)
    requires cfg.Growing() && k >= 1 && 0.0 <= u < 1.0
    ensures DelayFor(cfg, k, u) ==
            if cfg.jitter then WithJitter(cfg, Stepwise(cfg, k), u) else Stepwise(cfg, k).Floor
  {
    hide Base, Jittered, Stepwise, WithJitter;
    BaseStep(cfg, k);
    BaseIsStepwise(cfg, k);
    JitterRange(Base(cfg, k), u);
    DelayUnderCap(cfg, k, u);
    JitterUnderCap(cfg, Stepwise(cfg, k), u);
  }

  // ----- Total sleep of one Retry -----

  /** initial + initial*m + ... + initial*m^(n-1). */
  function Geometric(cfg: Config, n: nat): real {
    if n == 0 then 0.0 else Geometric(cfg, n - 1) + cfg.initialDelay as real * Pow(cfg.multiplier, n - 1)
  }

  lemma GeometricStep(i: real, m: real, p: real, g: real)
    requires (m - 1.0) * g == i * (p - 1.0)
    ensures (m - 1.0) * (g + i * p) == i * (m * p - 1.0)
  {
    assert (m - 1.0) * (g + i * p) == (m - 1.0) * g + (m - 1.0) * (i * p);
    assert (m - 1.0) * (i * p) == i * (m * p) - i * p;
  }

  lemma {:induction false} GeometricClosedForm(cfg: Config, n: nat)
    ensures (cfg.multiplier - 1.0) * Geometric(cfg, n) ==
            cfg.initialDelay as real * (Pow(cfg.multiplier, n) - 1.0)
  {
    if n > 0 {
      GeometricClosedForm(cfg, n - 1);
      var i, m, p, g := cfg.initialDelay as real, cfg.multiplier, Pow(cfg.multiplier, n - 1), Geometric(cfg, n - 1);
      assert Geometric(cfg, n) == g + i * p && Pow(m, n) == m * p;
      hide Geometric, Pow;
      GeometricStep(i, m, p, g);
    }
  }

  predicate FairDice(env: nat -> Attempt, n: nat) {
    forall i | 0 <= i < n :: 0.0 <= env(i).u < 1.0
  }

  lemma {:induction false} SleepCapped(cfg: Config, env: nat -> Attempt, n: nat)
    requires cfg.Growing() && FairDice(env, n)
    ensures 0 <= Slept(cfg, env, n) <= n * cfg.maxDelay
  {
    hide DelayFor, Jittered, Base;
    if n > 0 {
      SleepCapped(cfg, env, n - 1);
      JitteredDelayRange(cfg, n, env(n - 1).u);
      assert n * cfg.maxDelay == (n - 1) * cfg.maxDelay + cfg.maxDelay;
    }
  }

  lemma BaseBelowTerm(cfg: Config, n: nat)
    requires n >= 1
    ensures Base(cfg, n) <= cfg.initialDelay as real * Pow(cfg.multiplier, n - 1)
  {
  }

  lemma {:induction false} SleepGeometric(cfg: Config, env: nat -> Attempt, n: nat)
    requires cfg.Growing() && FairDice(env, n)
    ensures Slept(cfg, env, n) as real <= 1.25 * Geometric(cfg, n)
  {
    hide DelayFor, Jittered, Base, Pow;
    if n > 0 {
      SleepGeometric(cfg, env, n - 1);
      JitteredDelayRange(cfg, n, env(n - 1).u);
      BaseBelowTerm(cfg, n);
    }
  }

  lemma {:induction false} GeometricGrows(cfg: Config, j: nat, k: nat)
    requires cfg.Growing() && j <= k
    ensures Geometric(cfg, j) <= Geometric(cfg, k)
  {
    if j < k {
      GeometricGrows(cfg, j, k - 1);
      PowGrows(cfg.multiplier, k - 1);
      assert cfg.initialDelay as real * Pow(cfg.multiplier, k - 1) >= 0.0;
    }
  }

  lemma MultiplesGrow(j: nat, k: nat, d: int)
    requires j <= k && d >= 0
    ensures j * d <= k * d
  {
  }

  /** However many calls a Retry makes, it sleeps at most maxRetries times the cap and at most
      five quarters of the geometric sum over maxRetries delays. */
  lemma TotalSleep(cfg: Config, env: nat -> Attempt, calls: nat)
    requires cfg.Growing() && 1 <= calls <= cfg.maxRetries + 1 && FairDice(env, calls - 1)
    ensures 0 <= Slept(cfg, env, calls - 1) <= cfg.maxRetries * cfg.maxDelay
    ensures Slept(cfg, env, calls - 1) as real <= 1.25 * Geometric(cfg, cfg.maxRetries)
  {
    hide DelayFor, Slept, Geometric;
    SleepCapped(cfg, env, calls - 1);
    SleepGeometric(cfg, env, calls - 1);
    GeometricGrows(cfg, calls - 1, cfg.maxRetries);
    MultiplesGrow(calls - 1, cfg.maxRetries, cfg.maxDelay);
  }

  /** The sum of the first n delays before jitter. */
  function StepwiseSum(cfg: Config, n: nat): real {
    if n == 0 then 0.0 else StepwiseSum(cfg, n - 1) + Stepwise(cfg, n)
  }

  lemma {:induction false} DelayNear(cfg: Config, k: nat, u: real)
    requires cfg.Growing() && k >= 1 && 0.0 <= u < 1.0
    ensures var b, d := Stepwise(cfg, k), DelayFor(cfg, k, u) as real;
            (if cfg.jitter then 0.75 * b - 1.0 < d <= 1.25 * b else b - 1.0 < d <= b)
  {
    DelayExactly(cfg, k, u);
    BaseStep(cfg, k);
    BaseIsStepwise(cfg, k);
    JitteredDelayRange(cfg, k, u);
    hide Base, DelayFor, Stepwise;
  }

  /** The sleep of a Retry from both sides: without jitter the sum of the delays, with jitter three
      to five quarters of it, less at most one nanosecond for each sleep. */
  lemma {:induction false} SleepBetween(cfg: Config, env: nat -> Attempt, n: nat)
    requires cfg.Growing() && FairDice(env, n)
    ensures var sum, slept := StepwiseSum(cfg, n), Slept(cfg, env, n) as real;
            if cfg.jitter then 0.75 * sum - n as real <= slept <= 1.25 * sum
            else sum - n as real <= slept <= sum
  {
    if n > 0 {
      SleepBetween(cfg, env, n - 1);
      DelayNear(cfg, n, env(n - 1).u);
      hide DelayFor, Stepwise;
    }
  }
}
