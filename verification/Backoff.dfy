/** The retry delay of app/worker/photo_jobs.py. The random draw is any value up to the ceiling. */
module Backoff {
  import opened Records

  function Pow2(n: nat): (p: nat)
    ensures p > n
  {
    if n == 0 then 1 else 2 * Pow2(n - 1)
  }

  /** The largest delay, in milliseconds, that calculate_backoff can return. */
  function Ceiling(cfg: Settings, attempts: nat): nat {
    Min(cfg.maxDelay, cfg.minDelay * Pow2(attempts))
  }

  /** The ceilings of the failures recorded at attempts 1, 2, ..., n, added up. */
  function CeilingSum(cfg: Settings, n: nat): nat {
    if n == 0 then 0 else CeilingSum(cfg, n - 1) + Ceiling(cfg, n)
  }

  lemma {:induction false} CeilingMonotone(cfg: Settings, a: nat, b: nat)
    requires a <= b
    ensures Ceiling(cfg, a) <= Ceiling(cfg, b) <= cfg.maxDelay
    decreases b - a
  {
    if a < b {
      CeilingMonotone(cfg, a + 1, b);
      assert cfg.minDelay * Pow2(a) <= cfg.minDelay * Pow2(a + 1);
    }
  }

  /** The ceiling starts at the base delay and doubles with every attempt until it is cut off at the maximum. */
  lemma CeilingDoubles(cfg: Settings, a: nat)
    ensures Ceiling(cfg, 0) == Min(cfg.maxDelay, cfg.minDelay)
    ensures Ceiling(cfg, a + 1) == Min(cfg.maxDelay, 2 * Ceiling(cfg, a))
  {
    assert cfg.minDelay * Pow2(a + 1) == 2 * (cfg.minDelay * Pow2(a));
  }

  lemma MulAtLeast(k: nat, p: nat)
    requires k > 0
    ensures k * p >= p
  {
    assert k * p == p + (k - 1) * p;
  }

  /** Once the ceiling has reached the maximum delay it stays there, and unless the base delay is zero it gets there. */
  lemma CeilingSaturates(cfg: Settings, a: nat, b: nat)
    requires a <= b
    ensures Ceiling(cfg, a) == cfg.maxDelay ==> Ceiling(cfg, b) == cfg.maxDelay
    ensures cfg.minDelay > 0 && cfg.maxDelay <= a ==> Ceiling(cfg, a) == cfg.maxDelay
  {
    CeilingMonotone(cfg, a, b);
    if cfg.minDelay > 0 {
      MulAtLeast(cfg.minDelay, Pow2(a));
    }
  }

  lemma {:induction false} CeilingSumMonotone(cfg: Settings, a: nat, b: nat)
    requires a <= b
    ensures CeilingSum(cfg, a) <= CeilingSum(cfg, b)
    decreases b - a
  {
    if a < b {
      CeilingSumMonotone(cfg, a + 1, b);
    }
  }

  /** The two closed bounds of the summed ceilings: linear in the maximum delay, geometric in the base delay. */
  lemma {:induction false} CeilingSumBounds(cfg: Settings, n: nat)
    ensures CeilingSum(cfg, n) <= n * cfg.maxDelay
    ensures CeilingSum(cfg, n) <= cfg.minDelay * (Pow2(n + 1) - 2)
  {
    if n > 0 {
      CeilingSumBounds(cfg, n - 1);
      SumStep(cfg.minDelay, Pow2(n));
      assert (n - 1) * cfg.maxDelay + cfg.maxDelay == n * cfg.maxDelay;
    }
  }

  lemma SumStep(base: nat, p: nat)
    ensures base * (p - 2) + base * p == base * (2 * p - 2)
  {
  }
}
