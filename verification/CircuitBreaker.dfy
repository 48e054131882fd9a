/** The circuit breaker object and, for each of its lock-protected operations,
    the function of its state that the operation computes. */
module CircuitBreaking {
  import opened Common

  /** Number of values of a uint32; every counter wraps around at it. */
  const UINT32: nat := 0x1_0000_0000

  /** The remainder modulo 2^32, by repeated subtraction. */
  function Wrap(n: nat): (w: nat)
    ensures w < UINT32
  {
    if n < UINT32 then n else Wrap(n - UINT32)
  }

  /** The uint32 increment of a counter. */
  function Inc(n: nat): nat {
    if n + 1 == UINT32 then 0 else n + 1
  }

  lemma {:induction false} IncWrap(n: nat)
    ensures Inc(Wrap(n)) == Wrap(n + 1)
  {
    if n >= UINT32 {
      IncWrap(n - UINT32);
    }
  }

  datatype State = Closed | Open | HalfOpen

  datatype Counts = Counts(requests: nat, totalSuccesses: nat, totalFailures: nat,
                           consecutiveSuccesses: nat, consecutiveFailures: nat)
  {
    function OnRequest(): Counts {
      this.(requests := Inc(requests))
    }

    function OnSuccess(): Counts {
      this.(totalSuccesses := Inc(totalSuccesses),
            consecutiveSuccesses := Inc(consecutiveSuccesses),
            consecutiveFailures := 0)
    }

    function OnFailure(): Counts {
      this.(totalFailures := Inc(totalFailures),
            consecutiveFailures := Inc(consecutiveFailures),
            consecutiveSuccesses := 0)
    }

    function FailureRate(): real {
      if requests == 0 then 0.0 else totalFailures as real / requests as real
    }
  }

  const ZERO_COUNTS := Counts(0, 0, 0, 0, 0)

  /** float64 division and the literal 0.6 agree with the exact quotient here: two
      different quotients of uint32 values by 3/5 are much further apart than rounding. */
  predicate DefaultReadyToTrip(c: Counts) {
    c.requests >= 5 && c.FailureRate() >= 0.6
  }

  lemma QuotientAtLeast(f: real, r: real)
    requires r > 0.0
    ensures f / r >= 0.6 <==> f >= 0.6 * r
  {
    var q := f / r;
    assert f == q * r;
    if q >= 0.6 {
      assert (q - 0.6) * r >= 0.0;
    } else {
      assert (0.6 - q) * r > 0.0;
    }
  }

  /** The trip condition without division: at least 5 requests, at least 3 of 5 failed. */
  lemma DefaultTripMeaning(c: Counts)
    ensures DefaultReadyToTrip(c) <==> c.requests >= 5 && 5 * c.totalFailures >= 3 * c.requests
  {
    if c.requests >= 5 {
      QuotientAtLeast(c.totalFailures as real, c.requests as real);
    }
  }

  predicate DefaultIsSuccessful(err: Err) {
    err.NoError?
  }

  /** The configuration a caller passes in; zero values and missing callbacks select defaults. */
  datatype RawConfig = RawConfig(maxRequests: nat, interval: int, timeout: int,
                                 readyToTrip: Option<Counts -> bool>,
                                 isSuccessful: Option<Err -> bool>)

  datatype Config = Config(maxRequests: nat, interval: int, timeout: int,
                           readyToTrip: Counts -> bool, isSuccessful: Err -> bool)
  {
    /** What the constructor guarantees about every breaker's configuration. */
    predicate Valid() {
      0 < maxRequests < UINT32 && interval != 0 && timeout != 0
    }
  }

  function WithDefaults(raw: RawConfig): (c: Config)
    requires raw.maxRequests < UINT32
    ensures c.Valid()
    ensures raw.maxRequests != 0 ==> c.maxRequests == raw.maxRequests
    ensures raw.interval != 0 ==> c.interval == raw.interval
    ensures raw.timeout != 0 ==> c.timeout == raw.timeout
    ensures raw.maxRequests == 0 ==> c.maxRequests == 1
    ensures raw.interval == 0 ==> c.interval == 60 * SECOND
    ensures raw.timeout == 0 ==> c.timeout == 60 * SECOND
    ensures raw.readyToTrip.Some? ==> c.readyToTrip == raw.readyToTrip.value
    ensures raw.isSuccessful.Some? ==> c.isSuccessful == raw.isSuccessful.value
    ensures raw.readyToTrip.None? ==> forall n :: c.readyToTrip(n) <==> DefaultReadyToTrip(n)
    ensures raw.isSuccessful.None? ==> forall e :: c.isSuccessful(e) <==> e.NoError?
  {
    Config(
      if raw.maxRequests == 0 then 1 else raw.maxRequests,
      if raw.interval == 0 then 60 * SECOND else raw.interval,
      if raw.timeout == 0 then 60 * SECOND else raw.timeout,
      match raw.readyToTrip { case Some(f) => f case None => c => DefaultReadyToTrip(c) },
      match raw.isSuccessful { case Some(f) => f case None => e => DefaultIsSuccessful(e) })
  }

  /** The `expiry` field: Go's zero time, or an instant. */
  datatype Deadline = Unset | At(instant: int)
  {
    /** time.Time.Before: the zero time precedes every clock reading. */
    predicate Before(now: int) {
      Unset? || instant < now
    }
  }

  /** One call of the OnStateChange callback. */
  datatype Change = Change(from: State, to: State)

  /** The fields guarded by the lock, and the callback calls made so far. */
  datatype Core = Core(state: State, generation: nat, counts: Counts, expiry: Deadline,
                       changes: seq<Change>)

  function Initial(cfg: Config, now: int): Core {
    Core(Closed, 0, ZERO_COUNTS, At(now + cfg.interval), [])
  }

  function ExpiryIn(cfg: Config, state: State, now: int): Deadline {
    match state
    case Closed => if cfg.interval == 0 then Unset else At(now + cfg.interval)
    case Open => At(now + cfg.timeout)
    case HalfOpen => Unset
  }

  /** A new generation of the present state: no counts, a fresh deadline. */
  function Renewed(cfg: Config, c: Core, now: int): Core {
    c.(generation := c.generation + 1, counts := ZERO_COUNTS, expiry := ExpiryIn(cfg, c.state, now))
  }

  function Moved(cfg: Config, c: Core, to: State, now: int): Core {
    if c.state == to then c
    else Renewed(cfg, c.(state := to, changes := c.changes + [Change(c.state, to)]), now)
  }

  /** Time-driven part of every operation: a closed period ends, an open period ends. */
  function Ticked(cfg: Config, c: Core, now: int): Core {
    if c.state.Closed? && c.expiry.At? && c.expiry.Before(now) then Renewed(cfg, c, now)
    else if c.state.Open? && c.expiry.Before(now) then Moved(cfg, c, HalfOpen, now)
    else c
  }

  /** May a (ticked) breaker let one more request through? */
  predicate HasRoom(cfg: Config, c: Core) {
    !c.state.Open? && (c.state.HalfOpen? ==> c.counts.requests < cfg.maxRequests)
  }

  function Admitted(c: Core): Core {
    c.(counts := c.counts.OnRequest())
  }

  function Succeeded(cfg: Config, c: Core, now: int): Core {
    var c' := c.(counts := c.counts.OnSuccess());
    if c.state.HalfOpen? && c'.counts.consecutiveSuccesses >= cfg.maxRequests
    then Moved(cfg, c', Closed, now) else c'
  }

  function Failed(cfg: Config, c: Core, now: int): Core {
    var c' := c.(counts := c.counts.OnFailure());
    match c.state
    case Closed => if cfg.readyToTrip(c'.counts) then Moved(cfg, c', Open, now) else c'
    case HalfOpen => Moved(cfg, c', Open, now)
    case Open => c'
  }

  function Settled(cfg: Config, c: Core, ok: bool, now: int): Core {
    if ok then Succeeded(cfg, c, now) else Failed(cfg, c, now)
  }

  /** beforeRequest. */
  function AfterBefore(cfg: Config, c: Core, now: int): Core {
    var c' := Ticked(cfg, c, now);
    if HasRoom(cfg, c') then Admitted(c') else c'
  }

  /** afterRequest for a call admitted in generation `before` that returned `err`. */
  function AfterAfter(cfg: Config, c: Core, before: nat, err: Err, now: int): Core {
    var c' := Ticked(cfg, c, now);
    if c'.generation != before then c' else Settled(cfg, c', cfg.isSuccessful(err), now)
  }

  /** Reset reads the clock twice. */
  function AfterReset(cfg: Config, c: Core, now: int, now': int): Core {
    Moved(cfg, Renewed(cfg, c, now), Closed, now')
  }

  /** What a protected function did: it returned, or panicked with a value that prints so. */
  datatype CallResult = Returned(err: Err) | Panicked(value: string)
  {
    /** The error reported for it. */
    function Reported(): Err {
      match this
      case Returned(err) => err
      case Panicked(value) => Error("panic recovered: " + value, false)
    }
  }

  datatype ExecuteResult = ErrCircuitBreakerOpen | Finished(result: CallResult)

  class CircuitBreaker {
    const config: Config
    var state: State
    var generation: nat
    var counts: Counts
    var expiry: Deadline
    var changes: seq<Change>

    ghost function View(): Core
      reads this
    {
      Core(state, generation, counts, expiry, changes)
    }

    constructor (raw: RawConfig, now: int)
      requires raw.maxRequests < UINT32
      ensures config == WithDefaults(raw)
      ensures View() == Initial(config, now)
    {
      var config := WithDefaults(raw);
      this.config := config;
      state, generation, counts, expiry, changes := Closed, 0, ZERO_COUNTS, At(now + config.interval), [];
    }

    method ToNewGeneration(now: int)
      modifies this
      ensures View() == Renewed(config, old(View()), now)
    {
      generation := generation + 1;
      counts := ZERO_COUNTS;
      match state {
        case Closed =>
          if config.interval == 0 {
            expiry := Unset;
          } else {
            expiry := At(now + config.interval);
          }
        case Open => expiry := At(now + config.timeout);
        case HalfOpen => expiry := Unset;
      }
    }

    method SetState(to: State, now: int)
      modifies this
      ensures View() == Moved(config, old(View()), to, now)
    {
      if state == to {
        return;
      }
      var prev := state;
      state := to;
      ToNewGeneration(now);
      changes := changes + [Change(prev, to)];
    }

    method CurrentState(now: int) returns (s: State, g: nat)
      modifies this
      ensures View() == Ticked(config, old(View()), now)
      ensures s == state && g == generation
    {
      match state {
        case Closed =>
          if !expiry.Unset? && expiry.Before(now) {
            ToNewGeneration(now);
          }
        case Open =>
          if expiry.Before(now) {
            SetState(HalfOpen, now);
          }
        case HalfOpen =>
      }
      s, g := state, generation;
    }

    /** `ok` is false when the call returns ErrCircuitBreakerOpen. */
    method BeforeRequest(now: int) returns (g: nat, ok: bool)
      modifies this
      ensures View() == AfterBefore(config, old(View()), now)
      ensures ok == HasRoom(config, Ticked(config, old(View()), now))
      ensures g == generation
    {
      var s;
      s, g := CurrentState(now);
      if s.Open? {
        return g, false;
      } else if s.HalfOpen? && counts.requests >= config.maxRequests {
        return g, false;
      }
      counts := counts.OnRequest();
      ok := true;
    }

    method OnSuccess(s: State, now: int)
      requires s == state
      modifies this
      ensures View() == Succeeded(config, old(View()), now)
    {
      counts := counts.OnSuccess();
      if s.HalfOpen? && counts.consecutiveSuccesses >= config.maxRequests {
        SetState(Closed, now);
      }
    }

    method OnFailure(s: State, now: int)
      requires s == state
      modifies this
      ensures View() == Failed(config, old(View()), now)
    {
      counts := counts.OnFailure();
      match s {
        case Closed =>
          if config.readyToTrip(counts) {
            SetState(Open, now);
          }
        case HalfOpen => SetState(Open, now);
        case Open =>
      }
    }

    method AfterRequest(before: nat, err: Err, now: int)
      modifies this
      ensures View() == AfterAfter(config, old(View()), before, err, now)
    {
      var s, g := CurrentState(now);
      if g != before {
        return;
      }
      if config.isSuccessful(err) {
        OnSuccess(s, now);
      } else {
        OnFailure(s, now);
      }
    }

    /** State(): ticks under the read lock, treated as one atomic step. */
    method ObserveState(now: int) returns (s: State)
      modifies this
      ensures View() == Ticked(config, old(View()), now)
      ensures s == state
    {
      var g;
      s, g := CurrentState(now);
    }

    method Reset(now: int, now': int)
      modifies this
      ensures View() == AfterReset(config, old(View()), now, now')
    {
      ToNewGeneration(now);
      SetState(Closed, now');
    }

    /** Execute with no other caller in between: `result` is what the protected function does,
        and a panic is reported as a failed call before it is raised again. */
    method Execute(now: int, result: CallResult, later: int) returns (r: ExecuteResult)
      modifies this
      ensures r == ErrCircuitBreakerOpen ==> View() == Ticked(config, old(View()), now)
      ensures r == ErrCircuitBreakerOpen <==> !HasRoom(config, Ticked(config, old(View()), now))
      ensures r.Finished? ==> r.result == result
      ensures r.Finished? ==>
                var c := Admitted(Ticked(config, old(View()), now));
                View() == AfterAfter(config, c, c.generation, result.Reported(), later)
    {
      var g, ok := BeforeRequest(now);
      if !ok {
        return ErrCircuitBreakerOpen;
      }
      AfterRequest(g, result.Reported(), later);
      r := Finished(result);
    }
  }
}
