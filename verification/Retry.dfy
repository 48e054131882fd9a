/** Retry with capped exponential backoff and jitter. */
module Retrying {
  import opened Common

  datatype RawConfig = RawConfig(maxRetries: int, initialDelay: int, maxDelay: int, multiplier: real,
                                 jitter: bool, retryable: Option<Err -> bool>)

  datatype Config = Config(maxRetries: nat, initialDelay: int, maxDelay: int, multiplier: real,
                           jitter: bool, retryable: Err -> bool)
  {
    /** A growing backoff over non-negative durations. */
    predicate Growing() {
      initialDelay >= 0 && maxDelay >= 0 && multiplier >= 1.0
    }
  }

  predicate DefaultRetryable(err: Err) {
    err.Error? && !err.isContext
  }

  function WithDefaults(raw: RawConfig): (c: Config)
    ensures raw.initialDelay > 0 && raw.maxDelay > 0 && (raw.multiplier == 0.0 || raw.multiplier >= 1.0) ==> c.Growing()
    ensures c.maxRetries == if raw.maxRetries >= 0 then raw.maxRetries else 0
    ensures c.initialDelay == if raw.initialDelay == 0 then 100_000_000 else raw.initialDelay
    ensures c.maxDelay == if raw.maxDelay == 0 then 30 * SECOND else raw.maxDelay
    ensures c.multiplier == if raw.multiplier == 0.0 then 2.0 else raw.multiplier
    ensures c.jitter == raw.jitter
    ensures raw.retryable.Some? ==> c.retryable == raw.retryable.value
    ensures raw.retryable.None? ==> forall e :: c.retryable(e) <==> e.Error? && !e.isContext
  {
    Config(if raw.maxRetries < 0 then 0 else raw.maxRetries,
           if raw.initialDelay == 0 then 100_000_000 else raw.initialDelay,
           if raw.maxDelay == 0 then 30 * SECOND else raw.maxDelay,
           if raw.multiplier == 0.0 then 2.0 else raw.multiplier,
           raw.jitter,
           match raw.retryable { case Some(f) => f case None => e => DefaultRetryable(e) })
  }

  // ----- Delays -----

  function Pow(m: real, n: nat): real {
    if n == 0 then 1.0 else m * Pow(m, n - 1)
  }

  function Capped(x: real, cap: int): real {
    if x > cap as real then cap as real else x
  }

  /** The delay before jitter and before the fraction is dropped. */
  function Base(cfg: Config, attempt: nat): real
    requires attempt >= 1
  {
    Capped(cfg.initialDelay as real * Pow(cfg.multiplier, attempt - 1), cfg.maxDelay)
  }

  /** Jitter of up to a quarter either way; u is the random number, 0 <= u < 1. */
  function Jittered(base: real, u: real): real {
    base + (u * 2.0 - 1.0) * (base * 0.25)
  }

  function DelayFor(cfg: Config, attempt: nat, u: real): int
    requires attempt >= 1
  {
    var base := Base(cfg, attempt);
    if !cfg.jitter then Truncate(base)
    else
      var shaken := Jittered(base, u);
      Truncate(Capped(if shaken < 0.0 then cfg.initialDelay as real else shaken, cfg.maxDelay))
  }

  /** Time spent in the first n sleeps. */
  function Slept(cfg: Config, env: nat -> Attempt, n: nat): int {
    if n == 0 then 0 else Slept(cfg, env, n - 1) + DelayFor(cfg, n, env(n - 1).u)
  }

  // ----- The loop -----

  /** One call of the function and what surrounds it: its error, ctx.Err() afterwards, the
      random number drawn for the next delay, and the context error that ended the sleep. */
  datatype Attempt = Attempt(err: Err, ctxErr: Err, u: real, sleepErr: Err)

  datatype RetryResult = Success | Exhausted(attempts: nat, last: Err) | Interrupted(ctxErr: Err)

  /** One call of the OnRetry callback. */
  datatype Notice = Notice(attempt: nat, delay: int, err: Err)

  /** After call k the loop goes on: the error is retryable, a retry is left, nothing was cancelled. */
  predicate GoesOn(cfg: Config, env: nat -> Attempt, k: nat) {
    && env(k).err.Error? && cfg.retryable(env(k).err)
    && k < cfg.maxRetries
    && env(k).ctxErr.NoError? && env(k).sleepErr.NoError?
  }

  /** OnRetry is called after call k: the loop goes on, or the following sleep is cancelled. */
  predicate Notifies(cfg: Config, env: nat -> Attempt, k: nat) {
    && env(k).err.Error? && cfg.retryable(env(k).err)
    && k < cfg.maxRetries && env(k).ctxErr.NoError?
  }

  /** What Retry returns when call k was the last. */
  function ResultAt(cfg: Config, env: nat -> Attempt, k: nat): RetryResult {
    if env(k).err.NoError? then Success
    else if !cfg.retryable(env(k).err) || k >= cfg.maxRetries then Exhausted(cfg.maxRetries + 1, env(k).err)
    else if env(k).ctxErr.Error? then Interrupted(env(k).ctxErr)
    else Interrupted(env(k).sleepErr)
  }

  /** Why a Retry makes this many calls, and what it returns: every call but the last failed with a
      retryable error under a live context; the last succeeded, failed for good, used up the last
      retry, or was followed by the end of the context. */
  lemma CallsExactly(cfg: Config, env: nat -> Attempt, calls: nat)
    requires calls >= 1 && (forall i | 0 <= i < calls - 1 :: GoesOn(cfg, env, i)) && !GoesOn(cfg, env, calls - 1)
    ensures calls <= cfg.maxRetries + 1
    ensures forall i: nat | i < calls - 1 ::
              env(i).err.Error? && cfg.retryable(env(i).err) && env(i).ctxErr.NoError? && env(i).sleepErr.NoError?
    ensures var last, r := env(calls - 1), ResultAt(cfg, env, calls - 1);
            if last.err.NoError? then r == Success
            else if !cfg.retryable(last.err) || calls == cfg.maxRetries + 1
            then r == Exhausted(cfg.maxRetries + 1, last.err)
            else if last.ctxErr.Error? then r == Interrupted(last.ctxErr)
            else last.sleepErr.Error? && r == Interrupted(last.sleepErr)
  {
    forall i: nat | i < calls - 1
      ensures env(i).err.Error? && cfg.retryable(env(i).err) && env(i).ctxErr.NoError? && env(i).sleepErr.NoError?
    {
      assert GoesOn(cfg, env, i);
    }
    assert calls > 1 ==> GoesOn(cfg, env, calls - 2);
  }

  class Retryer {
    const config: Config

    constructor (raw: RawConfig)
      ensures config == WithDefaults(raw)
    {
      config := WithDefaults(raw);
    }

    method CalculateDelay(attempt: nat, u: real) returns (d: int)
      requires attempt >= 1
      ensures d == DelayFor(config, attempt, u)
    {
      var delay := config.initialDelay as real * Pow(config.multiplier, attempt - 1);
      if delay > config.maxDelay as real {
        delay := config.maxDelay as real;
      }
      assert delay == Base(config, attempt);
      if config.jitter {
        d := Shake(delay, u);
        return;
      }
      d := Truncate(delay);
    }

    /** The jitter part of calculateDelay. */
    method Shake(base: real, u: real) returns (d: int)
      ensures var shaken := Jittered(base, u);
              d == Truncate(Capped(if shaken < 0.0 then config.initialDelay as real else shaken, config.maxDelay))
    {
      var delay := base;
      var jitterRange := delay * 0.25;
      var jitter := (u * 2.0 - 1.0) * jitterRange;
      delay := delay + jitter;
      ghost var shaken := Jittered(base, u);
      assert delay == shaken;
      hide Jittered;
      if delay < 0.0 {
        delay := config.initialDelay as real;
      }
      if delay > config.maxDelay as real {
        delay := config.maxDelay as real;
      }
      d := Truncate(delay);
    }

    /** The function is scripted: its k-th call is env(k).  `calls` is how often it was called,
        `notices` what OnRetry saw, `slept` the total of the completed sleeps. */
    method Retry(env: nat -> Attempt)
      returns (result: RetryResult, calls: nat, notices: seq<Notice>, slept: int)
      ensures 1 <= calls <= config.maxRetries + 1
      ensures forall i | 0 <= i < calls - 1 :: GoesOn(config, env, i)
      ensures !GoesOn(config, env, calls - 1)
      ensures result == ResultAt(config, env, calls - 1)
      ensures result == Success <==> env(calls - 1).err == NoError
      ensures |notices| == if Notifies(config, env, calls - 1) then calls else calls - 1
      ensures forall i | 0 <= i < |notices| ::
                notices[i] == Notice(i + 1, DelayFor(config, i + 1, env(i).u), env(i).err)
      ensures slept == Slept(config, env, calls - 1)
    {
      notices, calls, slept := [], 0, 0;
      var lastErr := NoError;
      for attempt := 0 to config.maxRetries + 1
        invariant calls == attempt && |notices| == attempt && slept == Slept(config, env, attempt)
        invariant forall i | 0 <= i < attempt :: GoesOn(config, env, i)
        invariant forall i | 0 <= i < attempt ::
                    notices[i] == Notice(i + 1, DelayFor(config, i + 1, env(i).u), env(i).err)
      {
        calls := attempt + 1;
        var now := env(attempt);
        if now.err.NoError? {
          return Success, calls, notices, slept;
        }
        lastErr := now.err;
        if !config.retryable(now.err) {
          break;
        }
        if attempt >= config.maxRetries {
          break;
        }
        if now.ctxErr.Error? {
          return Interrupted(now.ctxErr), calls, notices, slept;
        }
        var delay := CalculateDelay(attempt + 1, now.u);
        notices := notices + [Notice(attempt + 1, delay, now.err)];
        if now.sleepErr.Error? {
          return Interrupted(now.sleepErr), calls, notices, slept;
        }
        slept := slept + delay;
      }
      assert calls > config.maxRetries ==> !GoesOn(config, env, calls - 1);
      result := Exhausted(config.maxRetries + 1, lastErr);
    }
  }
}
