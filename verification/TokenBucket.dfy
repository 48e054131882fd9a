/** The token bucket limiter object and the functions its operations compute.
    Token amounts are reals, instants whole nanoseconds, rates tokens per second. */
module TokenBucket {
  import opened Common

  datatype Bucket = Bucket(tokens: real, lastRefill: int, maxTokens: real, refillRate: real,
                           allowed: nat, rejected: nat)

  /** Tokens that flow in over `ns` nanoseconds. */
  function Inflow(rate: real, ns: int): real {
    rate * (ns as real / 1_000_000_000.0)
  }

  function Min(a: real, b: real): real {
    if a < b then a else b
  }

  function Refilled(b: Bucket, now: int): Bucket {
    b.(tokens := Min(b.tokens + Inflow(b.refillRate, now - b.lastRefill), b.maxTokens), lastRefill := now)
  }

  /** Allow decides on the refilled bucket. */
  function Taken(b: Bucket): Bucket {
    if b.tokens >= 1.0 then b.(tokens := b.tokens - 1.0, allowed := b.allowed + 1)
    else b.(rejected := b.rejected + 1)
  }

  /** Reserve's answer on the refilled bucket. */
  function Delay(b: Bucket): int
    requires b.refillRate != 0.0
  {
    if b.tokens >= 1.0 then 0 else Truncate((1.0 - b.tokens) / b.refillRate * 1_000_000_000.0)
  }

  function Rerated(b: Bucket, rate: real, burst: int): Bucket {
    b.(refillRate := rate, maxTokens := burst as real, tokens := Min(b.tokens, burst as real))
  }

  function Emptied(b: Bucket, now: int): Bucket {
    b.(tokens := b.maxTokens, lastRefill := now, allowed := 0, rejected := 0)
  }

  datatype Op =
    | Request(now: int)               // Allow
    | Look(now: int)                  // Stats or Reserve
    | SetRate(rate: real, burst: int)
    | Reset(now: int)

  function Apply(b: Bucket, op: Op): Bucket {
    match op
    case Request(now) => Taken(Refilled(b, now))
    case Look(now) => Refilled(b, now)
    case SetRate(rate, burst) => Rerated(b, rate, burst)
    case Reset(now) => Emptied(b, now)
  }

  function Perform(b: Bucket, ops: seq<Op>): Bucket {
    if ops == [] then b else Apply(Perform(b, ops[..|ops| - 1]), ops[|ops| - 1])
  }

  lemma {:induction false} PerformAppend(b: Bucket, ops: seq<Op>, op: Op)
    ensures Perform(b, ops + [op]) == Apply(Perform(b, ops), op)
  {
    assert (ops + [op])[..|ops + [op]| - 1] == ops;
  }

  datatype RawConfig = RawConfig(requestsPerSecond: real, burstSize: int, strategy: Strategy)

  /** `Unknown` is any other string; the empty string selects Block. */
  datatype Strategy = Block | Reject | Adaptive | Unknown | Unspecified

  function Full(raw: RawConfig, now: int): (b: Bucket)
    ensures b.refillRate > 0.0 && b.tokens == b.maxTokens >= 0.0
    ensures b.refillRate == if raw.requestsPerSecond > 0.0 then raw.requestsPerSecond else 10.0
    ensures raw.burstSize > 0 ==> b.maxTokens == raw.burstSize as real
    ensures raw.burstSize <= 0 ==> b.maxTokens <= b.refillRate < b.maxTokens + 1.0
  {
    var rate := if raw.requestsPerSecond <= 0.0 then 10.0 else raw.requestsPerSecond;
    var burst := if raw.burstSize <= 0 then Truncate(rate) else raw.burstSize;
    Bucket(burst as real, now, burst as real, rate, 0, 0)
  }

  // ----- Wait -----

  /** What happens to one waiting caller around one failed Allow. */
  datatype Round = Round(allowAt: int, reserveAt: int, cancelled: bool)

  datatype WaitResult = Granted | RateLimited | Cancelled | Waiting

  /** Does Wait give up in this round, after a delay was computed? */
  function GivesUp(strategy: Strategy, r: Round): WaitResult {
    match strategy
    case Reject => RateLimited
    case Block => if r.cancelled then Cancelled else Waiting
    case Adaptive => if r.cancelled then Cancelled else Waiting
    case _ => Waiting
  }

  /** The bucket after a Wait, how it ended, and the delays reported to OnRateLimited. */
  datatype Waited = Waited(bucket: Bucket, result: WaitResult, reported: seq<int>)

  /** One failed attempt of Wait: an Allow, then a Reserve. */
  function Attempted(b: Bucket, r: Round): Bucket {
    Apply(Apply(b, Request(r.allowAt)), Look(r.reserveAt))
  }

  /** A lone Wait over these rounds. */
  function WaitOver(b: Bucket, strategy: Strategy, rounds: seq<Round>): Waited
    requires b.refillRate != 0.0
    decreases |rounds|
  {
    if rounds == [] then Waited(b, Waiting, [])
    else if Refilled(b, rounds[0].allowAt).tokens >= 1.0
    then Waited(Apply(b, Request(rounds[0].allowAt)), Granted, [])
    else
      var b' := Attempted(b, rounds[0]);
      if Delay(b') == 0 then WaitOver(b', strategy, rounds[1..])
      else if GivesUp(strategy, rounds[0]) != Waiting then Waited(b', GivesUp(strategy, rounds[0]), [])
      else
        var later := WaitOver(b', strategy, rounds[1..]);
        later.(reported := [Delay(b')] + later.reported)
  }

  class TokenBucketLimiter {
    const strategy: Strategy
    var tokens: real
    var lastRefill: int
    var maxTokens: real
    var refillRate: real
    var allowed: nat
    var rejected: nat
    var configRate: real     // the configuration's copies of the rate and the burst
    var configBurst: int

    /** The copies in the configuration agree with the rate and the cap in force. */
    ghost predicate Configured()
      reads this
    {
      configRate == refillRate && configBurst as real == maxTokens
    }

    ghost function View(): Bucket
      reads this
    {
      Bucket(tokens, lastRefill, maxTokens, refillRate, allowed, rejected)
    }

    constructor (raw: RawConfig, now: int)
      ensures View() == Full(raw, now) && Configured()
      ensures strategy == if raw.strategy == Unspecified then Block else raw.strategy
    {
      var rate := raw.requestsPerSecond;
      if rate <= 0.0 {
        rate := 10.0;
      }
      var burst := raw.burstSize;
      if burst <= 0 {
        burst := Truncate(rate);
      }
      strategy := if raw.strategy == Unspecified then Block else raw.strategy;
      tokens, lastRefill, maxTokens, refillRate := burst as real, now, burst as real, rate;
      allowed, rejected := 0, 0;
      configRate, configBurst := rate, burst;
    }

    method RefillTokens(now: int)
      modifies this`tokens, this`lastRefill
      ensures View() == Refilled(old(View()), now)
    {
      var elapsed := now - lastRefill;
      lastRefill := now;
      var tokensToAdd := refillRate * (elapsed as real / 1_000_000_000.0);
      tokens := Min(tokens + tokensToAdd, maxTokens);
    }

    method Allow(now: int) returns (ok: bool)
      modifies this`tokens, this`lastRefill, this`allowed, this`rejected
      ensures View() == Apply(old(View()), Request(now))
      ensures ok <==> Refilled(old(View()), now).tokens >= 1.0
    {
      RefillTokens(now);
      if tokens >= 1.0 {
        tokens := tokens - 1.0;
        allowed := allowed + 1;
        return true;
      }
      rejected := rejected + 1;
      ok := false;
    }

    method Reserve(now: int) returns (delay: int)
      requires refillRate != 0.0
      modifies this`tokens, this`lastRefill
      ensures View() == Apply(old(View()), Look(now))
      ensures delay == Delay(View())
    {
      RefillTokens(now);
      if tokens >= 1.0 {
        return 0;
      }
      var tokensNeeded := 1.0 - tokens;
      delay := Truncate(tokensNeeded / refillRate * 1_000_000_000.0);
    }

    method SetRate(requestsPerSecond: real, burstSize: int)
      modifies this
      ensures View() == Apply(old(View()), Op.SetRate(requestsPerSecond, burstSize))
      ensures Configured()
    {
      refillRate := requestsPerSecond;
      maxTokens := burstSize as real;
      if tokens > maxTokens {
        tokens := maxTokens;
      }
      configRate, configBurst := requestsPerSecond, burstSize;
    }

    /** Stats: the bucket as it is after settling the elapsed time. */
    method Stats(now: int) returns (b: Bucket)
      modifies this`tokens, this`lastRefill
      ensures View() == Apply(old(View()), Look(now))
      ensures b == View()
    {
      RefillTokens(now);
      b := Bucket(tokens, lastRefill, maxTokens, refillRate, allowed, rejected);
    }

    method Reset(now: int)
      modifies this`tokens, this`lastRefill, this`allowed, this`rejected
      ensures View() == Apply(old(View()), Op.Reset(now))
    {
      tokens := maxTokens;
      lastRefill := now;
      allowed, rejected := 0, 0;
    }

    /** Wait while nobody else uses the limiter.  `rounds` is what the clock, the timer and the
        context do, one entry for each time around the loop; `Waiting` means Wait has not
        returned after them.  `reported` lists the delays given to OnRateLimited. */
    method Wait(rounds: seq<Round>) returns (result: WaitResult, reported: seq<int>)
      requires refillRate != 0.0
      modifies this`tokens, this`lastRefill, this`allowed, this`rejected
      ensures WaitOver(old(View()), strategy, rounds) == Waited(View(), result, reported)
    {
      ghost var whole := WaitOver(View(), strategy, rounds);
      reported := [];
      for i := 0 to |rounds|
        invariant refillRate != 0.0
        invariant var rest := WaitOver(View(), strategy, rounds[i..]);
                  whole == rest.(reported := reported + rest.reported)
      {
        var round := rounds[i];
        assert rounds[i..][0] == round && rounds[i..][1..] == rounds[i + 1..];
        var ok := Allow(round.allowAt);
        if ok {
          return Granted, reported;
        }
        var delay := Reserve(round.reserveAt);
        if delay == 0 {
          continue;
        }
        match strategy {
          case Reject => return RateLimited, reported;
          case Block =>
            if round.cancelled {
              return Cancelled, reported;
            }
          case Adaptive =>
            if round.cancelled {
              return Cancelled, reported;
            }
          case Unknown =>
          case Unspecified =>
        }
        reported := reported + [delay];
      }
      result := Waiting;
    }
  }
}
