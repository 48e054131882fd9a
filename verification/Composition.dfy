/** ExecuteWithReliability: any number of concurrent calls share one limiter and one breaker,
    and each retries on its own.  A step is one lock-protected operation or one local decision
    of one call; steps of different calls interleave freely. */
module Composition {
  import opened Common
  import opened RetryErrors
  import CB = CircuitBreaking
  import BP = BreakerProtocol
  import TB = TokenBucket
  import LG = LimiterGuarantee
  import RT = Retrying
  import BO = Backoff

  datatype Settings = Settings(breaker: CB.Config, retry: RT.Config, limiter: TB.RawConfig)
  {
    predicate Valid() {
      breaker.Valid()
    }
  }

  /** Where one call stands inside its current attempt. */
  datatype Phase =
    | Waiting                 // in Wait, before Allow
    | Refused                 // in Wait, before Reserve
    | Holding                 // Wait returned nil, before beforeRequest
    | Running(gen: nat)       // admitted by the breaker, the protected function runs
    | Returned(err: Err)      // the attempt returned err, Retry decides
    | Sleeping(until: int)    // waiting for the next attempt, which comes no earlier
    | Done(outcome: Outcome)

  /** How a call ends. */
  datatype Outcome = Panicked | Finished(result: RT.RetryResult)

  /** One admission of a call by the breaker: in which attempt, and when. */
  datatype Arrival = Arrival(attempt: nat, at: int)

  /** `attempt` counts from 0 as the retry loop does; `arrivals` are the admissions of this call,
      delays[k] is the delay it drew between the attempts k and k + 1, and attempts[k] what
      attempt k returned and what Retry then found. */
  datatype Call = Call(phase: Phase, attempt: nat, arrivals: seq<Arrival>, delays: seq<int>,
                       attempts: seq<RT.Attempt>)

  const NEW_CALL := Call(Waiting, 0, [], [], [])

  datatype World = World(calls: seq<Call>, bucket: TB.Bucket, breaker: BP.System, clock: int,
                         ops: seq<TB.Op>, events: seq<BP.Event>)

  datatype Step =
    | Begin
    | Allow(i: nat, now: int)
    | Reserve(i: nat, now: int, ctxErr: Err)           // ctxErr: the context ends the wait
    | Before(i: nat, now: int)
    | After(i: nat, err: Err, panicked: bool, now: int)
    | Decide(i: nat, now: int, ctxErr: Err, u: real)   // u: the random number for the next delay
    | Wake(i: nat, now: int, sleepErr: Err)
    | Stats(now: int)                                  // somebody looks at the limiter
    | State(now: int)                                  // somebody looks at the breaker

  function Init(cfg: Settings, t0: int): World {
    World([], TB.Full(cfg.limiter, t0), BP.Start(cfg.breaker, t0), t0, [], [])
  }

  predicate HasCall(w: World, i: nat, s: Step) {
    i < |w.calls| &&
    match s
    case Allow(_, _) => w.calls[i].phase.Waiting?
    case Reserve(_, _, _) => w.calls[i].phase.Refused?
    case Before(_, _) => w.calls[i].phase.Holding?
    case After(_, _, _, _) => w.calls[i].phase.Running?
    case Decide(_, _, _, _) => w.calls[i].phase.Returned?
    case Wake(_, _, _) => w.calls[i].phase.Sleeping?
    case _ => false
  }

  predicate Enabled(w: World, s: Step) {
    match s
    case Begin => true
    case Stats(now) => w.clock <= now
    case State(now) => w.clock <= now
    case Allow(i, now) => w.clock <= now && HasCall(w, i, s)
    case Reserve(i, now, _) => w.clock <= now && HasCall(w, i, s) && w.bucket.refillRate != 0.0
    case Before(i, now) => w.clock <= now && HasCall(w, i, s)
    case After(i, err, panicked, now) => w.clock <= now && HasCall(w, i, s) && (panicked ==> err.Error?)
    case Decide(i, now, _, u) => w.clock <= now && HasCall(w, i, s) && 0.0 <= u < 1.0
    case Wake(i, now, sleepErr) =>
      w.clock <= now && HasCall(w, i, s) && (sleepErr.NoError? ==> w.calls[i].phase.until <= now)
  }

  function Limited(w: World, op: TB.Op): World
    requires op.Request? || op.Look?
  {
    w.(bucket := TB.Apply(w.bucket, op), ops := w.ops + [op], clock := op.now)
  }

  function Broken(cfg: Settings, w: World, e: BP.Event): World
    requires !e.Reset?
  {
    w.(breaker := BP.Step(cfg.breaker, w.breaker, e), events := w.events + [e], clock := e.now)
  }

  function With(w: World, i: nat, c: Call): World
    requires i < |w.calls|
  {
    w.(calls := w.calls[i := c])
  }

  /** How Wait goes on after Reserve computed a delay. */
  function AfterReserve(cfg: Settings, delay: int, ctxErr: Err): Phase {
    if delay == 0 then Waiting
    else if cfg.limiter.strategy.Reject? then Returned(ERR_RATE_LIMITED)
    else if !cfg.limiter.strategy.Unknown? && ctxErr.Error? then Returned(ctxErr)
    else Waiting
  }

  /** The retry loop after an attempt returned. */
  function Decided(cfg: Settings, c: Call, now: int, ctxErr: Err, u: real): Call
    requires c.phase.Returned?
  {
    var err := c.phase.err;
    var c' := c.(attempts := c.attempts + [RT.Attempt(err, ctxErr, u, NoError)]);
    if err.NoError? then c'.(phase := Done(Finished(RT.Success)))
    else if !cfg.retry.retryable(err) || c.attempt >= cfg.retry.maxRetries
    then c'.(phase := Done(Finished(RT.Exhausted(cfg.retry.maxRetries + 1, err))))
    else if ctxErr.Error? then c'.(phase := Done(Finished(RT.Interrupted(ctxErr))))
    else
      var delay := RT.DelayFor(cfg.retry, c.attempt + 1, u);
      c'.(phase := Sleeping(now + delay), delays := c.delays + [delay])
  }

  /** The retry loop after a sleep, which the end of the context may have cut short. */
  function Woken(c: Call, sleepErr: Err): Call
    requires c.phase.Sleeping?
  {
    if sleepErr.NoError? then c.(phase := Waiting, attempt := c.attempt + 1)
    else
      c.(phase := Done(Finished(RT.Interrupted(sleepErr))),
         attempts := if c.attempts == [] then [] else
           c.attempts[|c.attempts| - 1 := c.attempts[|c.attempts| - 1].(sleepErr := sleepErr)])
  }

  function Next(cfg: Settings, w: World, s: Step): World
    requires Enabled(w, s)
  {
    match s
    case Begin => w.(calls := w.calls + [NEW_CALL])
    case Stats(now) => Limited(w, TB.Look(now))
    case State(now) => Broken(cfg, w, BP.Observe(now))
    case Allow(i, now) =>
      var ok := TB.Refilled(w.bucket, now).tokens >= 1.0;
      With(Limited(w, TB.Request(now)), i, w.calls[i].(phase := if ok then Holding else Refused))
    case Reserve(i, now, ctxErr) =>
      var w' := Limited(w, TB.Look(now));
      With(w', i, w.calls[i].(phase := AfterReserve(cfg, TB.Delay(w'.bucket), ctxErr)))
    case Before(i, now) =>
      var ticked := BP.Tick(cfg.breaker, w.breaker, now);
      var c := w.calls[i];
      With(Broken(cfg, w, BP.Before(now)), i,
           if CB.HasRoom(cfg.breaker, ticked.core)
           then c.(phase := Running(ticked.core.generation), arrivals := c.arrivals + [Arrival(c.attempt, now)])
           else c.(phase := Returned(ERR_BREAKER_OPEN)))
    case After(i, err, panicked, now) =>
      With(Broken(cfg, w, BP.After(w.calls[i].phase.gen, err, now)), i,
           w.calls[i].(phase := if panicked then Done(Panicked) else Returned(err)))
    case Decide(i, now, ctxErr, u) =>
      With(w.(clock := now), i, Decided(cfg, w.calls[i], now, ctxErr, u))
    case Wake(i, now, sleepErr) =>
      With(w.(clock := now), i, Woken(w.calls[i], sleepErr))
  }

  /** Every step of the run is possible where it happens. */
  predicate Legal(cfg: Settings, w: World, steps: seq<Step>)
    decreases |steps|, 0
  {
    steps == [] ||
    (Legal(cfg, w, steps[..|steps| - 1]) &&
     Enabled(Run(cfg, w, steps[..|steps| - 1]), steps[|steps| - 1]))
  }

  function Run(cfg: Settings, w: World, steps: seq<Step>): World
    requires Legal(cfg, w, steps)
    decreases |steps|, 2
  {
    if steps == [] then w else LastStep(cfg, w, steps)
  }

  function LastStep(cfg: Settings, w: World, steps: seq<Step>): World
    requires steps != [] && Legal(cfg, w, steps)
    decreases |steps|, 1
  {
    Next(cfg, Run(cfg, w, steps[..|steps| - 1]), steps[|steps| - 1])
  }

  // ----- Adding up over calls -----

  /** Tokens held but not yet used, admissions, and generations of running requests. */
  datatype Tally = Tally(holding: nat, admitted: nat, running: multiset<nat>)

  function One(c: Call): Tally {
    Tally(if c.phase.Holding? then 1 else 0, |c.arrivals|,
          if c.phase.Running? then multiset{c.phase.gen} else multiset{})
  }

  function Plus(t: Tally, o: Tally): Tally {
    Tally(t.holding + o.holding, t.admitted + o.admitted, t.running + o.running)
  }

  function Sum(calls: seq<Call>): Tally {
    if calls == [] then Tally(0, 0, multiset{})
    else
      Plus(Sum(calls[..|calls| - 1]), One(calls[|calls| - 1]))
  }

  predicate Includes(t: Tally, o: Tally) {
    o.holding <= t.holding && o.admitted <= t.admitted && o.running <= t.running
  }

  function Minus(t: Tally, o: Tally): Tally
    requires Includes(t, o)
  {
    Tally(t.holding - o.holding, t.admitted - o.admitted, t.running - o.running)
  }

  lemma PlusMinus(t: Tally, o: Tally, n: Tally, last: Tally)
    requires Includes(t, o)
    ensures Includes(Plus(t, last), o)
    ensures Plus(Plus(Minus(t, o), n), last) == Plus(Minus(Plus(t, last), o), n)
  {
    assert t.running - o.running + n.running + last.running == t.running + last.running - o.running + n.running;
  }

  lemma MinusPlus(t: Tally, o: Tally)
    ensures Includes(Plus(t, o), o) && Minus(Plus(t, o), o) == t
  {
    assert t.running + o.running - o.running == t.running;
  }

  /** Changing one call replaces its share of the sum. */
  lemma {:induction false} SumUpdate(calls: seq<Call>, i: nat, c: Call)
    requires i < |calls|
    ensures Includes(Sum(calls), One(calls[i]))
    ensures Sum(calls[i := c]) == Plus(Minus(Sum(calls), One(calls[i])), One(c))
  {
    hide Plus, Minus, Includes, One;
    var n := |calls| - 1;
    var t := Sum(calls[..n]);
    if i < n {
      SumUpdate(calls[..n], i, c);
      assert calls[i := c][..n] == calls[..n][i := c];
      PlusMinus(t, One(calls[i]), One(c), One(calls[n]));
    } else {
      assert calls[i := c][..n] == calls[..n];
      MinusPlus(t, One(calls[i]));
    }
  }

  lemma SumBegin(calls: seq<Call>)
    ensures Sum(calls + [NEW_CALL]) == Sum(calls)
  {
    assert (calls + [NEW_CALL])[..|calls|] == calls;
  }

  // ----- The breaker's admissions -----

  function AllAdmissions(log: BP.Log): nat {
    if log == [] then 0
    else AllAdmissions(log[..|log| - 1]) + if log[|log| - 1].Admission? then 1 else 0
  }

  lemma AdmissionsAppend(log: BP.Log, e: BP.Entry)
    ensures AllAdmissions(log + [e]) == AllAdmissions(log) + if e.Admission? then 1 else 0
  {
    assert (log + [e])[..|log|] == log;
  }

  lemma AdmissionsNoted(log: BP.Log, before: CB.Core, after: CB.Core, now: int)
    ensures AllAdmissions(BP.Noted(log, before, after, now)) == AllAdmissions(log)
  {
    AdmissionsAppend(log, BP.Transition(before.state, after.state, after.generation, now));
  }

  /** One breaker step: what it adds to the log and to the requests in flight. */
  lemma {:induction false} BreakerStep(cfg: CB.Config, s: BP.System, e: BP.Event)
    requires !e.Reset?
    ensures var s', t := BP.Step(cfg, s, e), BP.Tick(cfg, s, e.now);
            var admits := e.Before? && CB.HasRoom(cfg, t.core);
            && AllAdmissions(s'.log) == AllAdmissions(s.log) + (if admits then 1 else 0)
            && s'.inFlight == (if admits then s.inFlight + multiset{t.core.generation}
                               else if e.After? then s.inFlight - multiset{e.gen} else s.inFlight)
            && s'.clock == e.now
  {
    hide CB.Ticked, CB.Settled, BP.Noted, BP.Began, AllAdmissions;
    var t := BP.Tick(cfg, s, e.now);
    AdmissionsNoted(s.log, s.core, t.core, e.now);
    match e
    case Before(now) =>
      AdmissionsAppend(t.log, BP.Admission(t.core.generation, now));
      AdmissionsAppend(t.log, BP.Rejection(t.core.generation, now));
    case After(gen, err, now) =>
      AdmissionsAppend(t.log, BP.Late(gen));
      var ok := cfg.isSuccessful(err);
      AdmissionsAppend(t.log, BP.Outcome(gen, ok));
      AdmissionsNoted(t.log + [BP.Outcome(gen, ok)], t.core, CB.Settled(cfg, t.core, ok, now), now);
    case Observe(now) =>
  }

  // ----- The invariant -----

  /** The limiter of the composition is a limiter run, and its breaker a breaker run. */
  ghost predicate LimiterRun(cfg: Settings, t0: int, w: World) {
    && w.bucket == TB.Perform(TB.Full(cfg.limiter, t0), w.ops)
    && LG.Steady(w.ops) && LG.Ordered(TB.Full(cfg.limiter, t0), w.ops)
    && w.bucket.lastRefill <= w.clock
    && w.bucket.refillRate > 0.0
  }

  ghost predicate BreakerRun(cfg: Settings, t0: int, w: World) {
    && BP.Legal(cfg.breaker, BP.Start(cfg.breaker, t0), w.events)
    && w.breaker == BP.Run(cfg.breaker, BP.Start(cfg.breaker, t0), w.events)
    && w.breaker.clock <= w.clock
    && BP.Quiet(w.breaker.log, 0)
  }

  /** Tokens granted, not held by a call any more, and not used for an admission. */
  function Wasted(w: World): int {
    w.bucket.allowed - Sum(w.calls).holding - AllAdmissions(w.breaker.log)
  }

  /** Every admission was paid for with a token, and the requests the breaker waits for are
      those the calls are running. */
  ghost predicate Paid(w: World) {
    && Sum(w.calls).running == w.breaker.inFlight
    && Sum(w.calls).admitted == AllAdmissions(w.breaker.log)
    && Wasted(w) >= 0
  }

  /** A step that keeps the accounts, and brings no wasted token back. */
  ghost predicate Accounted(w: World, w': World) {
    Paid(w') && Wasted(w) <= Wasted(w')
  }

  predicate Frugal(cfg: Settings, c: Call) {
    && c.attempt <= cfg.retry.maxRetries
    && (c.phase.Sleeping? ==> c.attempt < cfg.retry.maxRetries)
    && |c.arrivals| <= c.attempt + if c.phase.Waiting? || c.phase.Refused? || c.phase.Holding? then 0 else 1
  }

  predicate AllFrugal(cfg: Settings, w: World) {
    forall i | 0 <= i < |w.calls| :: Frugal(cfg, w.calls[i])
  }

  lemma LimitedKeeps(cfg: Settings, t0: int, w: World, op: TB.Op)
    requires LimiterRun(cfg, t0, w) && (op.Request? || op.Look?) && w.clock <= op.now
    ensures LimiterRun(cfg, t0, Limited(w, op))
  {
    TB.PerformAppend(TB.Full(cfg.limiter, t0), w.ops, op);
    assert (w.ops + [op])[..|w.ops|] == w.ops;
  }

  lemma BrokenKeeps(cfg: Settings, t0: int, w: World, e: BP.Event)
    requires BreakerRun(cfg, t0, w) && !e.Reset? && w.clock <= e.now
    requires e.After? ==> e.gen in w.breaker.inFlight
    ensures BreakerRun(cfg, t0, Broken(cfg, w, e))
  {
    BP.StaysQuiet(cfg.breaker, w.breaker, e);
    hide BP.Step, BP.Quiet;
    BP.RunAppend(cfg.breaker, BP.Start(cfg.breaker, t0), w.events, e);
    BreakerStep(cfg.breaker, w.breaker, e);
  }

  lemma SameLimiter(cfg: Settings, t0: int, w: World, w': World)
    requires LimiterRun(cfg, t0, w) && w'.bucket == w.bucket && w'.ops == w.ops && w.clock <= w'.clock
    ensures LimiterRun(cfg, t0, w')
  {
  }

  lemma SameBreaker(cfg: Settings, t0: int, w: World, w': World)
    requires BreakerRun(cfg, t0, w)
    requires w'.breaker == w.breaker && w'.events == w.events && w.clock <= w'.clock
    ensures BreakerRun(cfg, t0, w')
  {
  }

  lemma RunningIsInFlight(w: World, i: nat)
    requires Paid(w) && i < |w.calls| && w.calls[i].phase.Running?
    ensures w.calls[i].phase.gen in w.breaker.inFlight
  {
    SumUpdate(w.calls, i, w.calls[i].(phase := Done(Panicked)));
  }

  lemma StepKeepsLimiter(cfg: Settings, t0: int, w: World, s: Step)
    requires LimiterRun(cfg, t0, w) && Enabled(w, s)
    ensures LimiterRun(cfg, t0, Next(cfg, w, s))
  {
    hide LimiterRun, TB.Apply, BP.Step, BP.Tick;
    var w' := Next(cfg, w, s);
    if s.Stats? || s.Allow? || s.Reserve? {
      var op := if s.Allow? then TB.Request(s.now) else TB.Look(s.now);
      LimitedKeeps(cfg, t0, w, op);
      SameLimiter(cfg, t0, Limited(w, op), w');
    } else {
      SameLimiter(cfg, t0, w, w');
    }
  }

  lemma {:induction false} StepKeepsBreaker(cfg: Settings, t0: int, w: World, s: Step)
    requires BreakerRun(cfg, t0, w) && Paid(w) && Enabled(w, s)
    ensures BreakerRun(cfg, t0, Next(cfg, w, s))
  {
    hide BreakerRun, Paid, TB.Apply, BP.Step, BP.Tick;
    var w' := Next(cfg, w, s);
    if s.State? || s.Before? || s.After? {
      var e := if s.State? then BP.Observe(s.now) else if s.Before? then BP.Before(s.now)
               else BP.After(w.calls[s.i].phase.gen, s.err, s.now);
      if s.After? {
        RunningIsInFlight(w, s.i);
      }
      BrokenKeeps(cfg, t0, w, e);
      SameBreaker(cfg, t0, Broken(cfg, w, e), w');
    } else {
      SameBreaker(cfg, t0, w, w');
    }
  }

  // ----- The accounts -----

  /** Call i becomes c, and the components change by what c takes part in. */
  lemma PaidUpdate(w: World, w': World, i: nat, c: Call)
    requires Paid(w) && i < |w.calls| && w'.calls == w.calls[i := c]
    requires var was, now := One(w.calls[i]), One(c);
             && w'.breaker.inFlight == w.breaker.inFlight - was.running + now.running
             && AllAdmissions(w'.breaker.log) + was.admitted == AllAdmissions(w.breaker.log) + now.admitted
             && w'.bucket.allowed + was.holding + was.admitted >= w.bucket.allowed + now.holding + now.admitted
    ensures Accounted(w, w')
  {
    hide One, Sum, AllAdmissions;
    SumUpdate(w.calls, i, c);
  }

  /** Nothing is taken from or given to a component. */
  lemma PaidLocal(w: World, w': World, i: nat, c: Call)
    requires Paid(w) && i < |w.calls| && w'.calls == w.calls[i := c]
    requires w'.breaker == w.breaker && w'.bucket.allowed == w.bucket.allowed
    requires One(c) == One(w.calls[i])
    ensures Accounted(w, w')
  {
    hide AllAdmissions, Sum, One;
    SumUpdate(w.calls, i, c);
    var running, o := w.breaker.inFlight, One(c).running;
    assert running - o + o == running;
    PaidUpdate(w, w', i, c);
  }

  lemma PaidAllow(cfg: Settings, w: World, i: nat, now: int)
    requires Paid(w) && Enabled(w, Allow(i, now))
    ensures Accounted(w, Next(cfg, w, Allow(i, now)))
  {
    hide Paid, Accounted, AllAdmissions;
    var w' := Next(cfg, w, Allow(i, now));
    PaidUpdate(w, w', i, w'.calls[i]);
  }

  lemma PaidBefore(cfg: Settings, w: World, i: nat, now: int)
    requires Paid(w) && Enabled(w, Before(i, now))
    ensures Accounted(w, Next(cfg, w, Before(i, now)))
  {
    hide Paid, Accounted, AllAdmissions, BP.Step, BP.Tick, CB.HasRoom;
    BreakerStep(cfg.breaker, w.breaker, BP.Before(now));
    var w' := Next(cfg, w, Before(i, now));
    PaidUpdate(w, w', i, w'.calls[i]);
  }

  lemma PaidAfter(cfg: Settings, w: World, s: Step)
    requires Paid(w) && s.After? && Enabled(w, s)
    ensures Accounted(w, Next(cfg, w, s))
  {
    hide Paid, Accounted, AllAdmissions, BP.Step, BP.Tick, CB.HasRoom;
    BreakerStep(cfg.breaker, w.breaker, BP.After(w.calls[s.i].phase.gen, s.err, s.now));
    var w' := Next(cfg, w, s);
    PaidUpdate(w, w', s.i, w'.calls[s.i]);
  }

  lemma PaidLook(cfg: Settings, w: World, s: Step)
    requires Paid(w) && (s.Begin? || s.Stats? || s.State?) && Enabled(w, s)
    ensures Accounted(w, Next(cfg, w, s))
  {
    hide BP.Step, BP.Tick, CB.HasRoom;
    if s.Begin? {
      SumBegin(w.calls);
    } else if s.State? {
      BreakerStep(cfg.breaker, w.breaker, BP.Observe(s.now));
    }
  }

  lemma PaidDecision(cfg: Settings, w: World, s: Step)
    requires Paid(w) && (s.Reserve? || s.Decide? || s.Wake?) && Enabled(w, s)
    ensures Accounted(w, Next(cfg, w, s))
  {
    hide Paid, Accounted, AllAdmissions, Sum, TB.Min, TB.Inflow, TB.Delay, BP.Step, BP.Tick, CB.HasRoom, RT.DelayFor;
    PaidLocal(w, Next(cfg, w, s), s.i, Next(cfg, w, s).calls[s.i]);
  }

  lemma PaidStep(cfg: Settings, w: World, s: Step)
    requires Paid(w) && Enabled(w, s)
    ensures Accounted(w, Next(cfg, w, s))
  {
    hide Paid, Accounted, Next;
    match s
    case Allow(i, now) => PaidAllow(cfg, w, i, now);
    case Before(i, now) => PaidBefore(cfg, w, i, now);
    case After(i, err, panicked, now) => PaidAfter(cfg, w, s);
    case Reserve(i, now, ctxErr) => PaidDecision(cfg, w, s);
    case Decide(i, now, ctxErr, u) => PaidDecision(cfg, w, s);
    case Wake(i, now, sleepErr) => PaidDecision(cfg, w, s);
    case _ => PaidLook(cfg, w, s);
  }

  lemma FrugalStep(cfg: Settings, w: World, s: Step)
    requires AllFrugal(cfg, w) && Enabled(w, s)
    ensures AllFrugal(cfg, Next(cfg, w, s))
  {
    hide BP.Step, BP.Tick, TB.Apply, CB.HasRoom, TB.Refilled, TB.Delay;
  }

  ghost predicate Invariant(cfg: Settings, t0: int, w: World) {
    LimiterRun(cfg, t0, w) && BreakerRun(cfg, t0, w) && Paid(w) && AllFrugal(cfg, w) && t0 <= w.clock
  }

  lemma ClockMoves(cfg: Settings, w: World, s: Step)
    requires Enabled(w, s)
    ensures w.clock <= Next(cfg, w, s).clock
  {
    hide BP.Step, BP.Tick, TB.Apply, CB.HasRoom, TB.Refilled, TB.Delay;
  }

  lemma {:induction false} RunInvariant(cfg: Settings, t0: int, steps: seq<Step>)
    requires cfg.Valid() && Legal(cfg, Init(cfg, t0), steps)
    ensures Invariant(cfg, t0, Run(cfg, Init(cfg, t0), steps))
  {
    if steps != [] {
      var before, s := steps[..|steps| - 1], steps[|steps| - 1];
      RunInvariant(cfg, t0, before);
      hide LimiterRun, BreakerRun, Paid, AllFrugal, Next;
      var w := Run(cfg, Init(cfg, t0), before);
      StepKeepsLimiter(cfg, t0, w, s);
      StepKeepsBreaker(cfg, t0, w, s);
      PaidStep(cfg, w, s);
      FrugalStep(cfg, w, s);
      ClockMoves(cfg, w, s);
    }
  }

  // ----- What every concurrent run guarantees -----

  /** The grants of a limiter run from operation j on, all of them no earlier than `from`. */
  lemma {:induction false} GrantsBetween(raw: TB.RawConfig, t0: int, ops: seq<TB.Op>, j: nat, from: int, clock: int)
    requires var b := TB.Full(raw, t0);
             LG.Steady(ops) && LG.Ordered(b, ops) && TB.Perform(b, ops).lastRefill <= clock
    requires j <= |ops| && from <= clock && forall k | j <= k < |ops| :: from <= ops[k].now
    ensures var b := TB.Full(raw, t0);
            (TB.Perform(b, ops).allowed - TB.Perform(b, ops[..j]).allowed) as real <=
            b.maxTokens + TB.Inflow(b.refillRate, clock - from)
  {
    var b, n := TB.Full(raw, t0), |ops|;
    assert ops[..n] == ops;
    hide TB.Full, TB.Inflow, TB.Apply, LG.Granted;
    LG.StatisticsCount(b, ops, j);
    LG.StatisticsCount(b, ops, n);
    LG.GrantsSplit(b, ops, j, n);
    LG.GrantsFrom(b, ops, j, from, clock);
  }

  /** How the world after some of the steps relates to the world after all of them. */
  ghost predicate Extends(w: World, w': World) {
    && Wasted(w) <= Wasted(w') && w.clock <= w'.clock
    && |w.ops| <= |w'.ops| && w'.ops[..|w.ops|] == w.ops
    && forall k | |w.ops| <= k < |w'.ops| :: !w'.ops[k].SetRate? && w.clock <= w'.ops[k].now
  }

  lemma ExtendsStep(cfg: Settings, w: World, w': World, s: Step)
    requires Extends(w, w') && Enabled(w', s) && Accounted(w', Next(cfg, w', s))
    ensures Extends(w, Next(cfg, w', s))
  {
    hide Wasted, Paid, TB.Apply, TB.Refilled, TB.Delay, BP.Step, BP.Tick, CB.HasRoom;
  }

  lemma {:induction false} RunExtends(cfg: Settings, t0: int, steps: seq<Step>, m: nat)
    requires cfg.Valid() && Legal(cfg, Init(cfg, t0), steps) && m <= |steps|
    ensures Legal(cfg, Init(cfg, t0), steps[..m])
    ensures Extends(Run(cfg, Init(cfg, t0), steps[..m]), Run(cfg, Init(cfg, t0), steps))
  {
    if m == |steps| {
      assert steps[..m] == steps;
    } else {
      var before, s := steps[..|steps| - 1], steps[|steps| - 1];
      RunExtends(cfg, t0, before, m);
      assert before[..m] == steps[..m];
      RunInvariant(cfg, t0, before);
      hide Extends, Accounted, Paid, Next;
      var w := Run(cfg, Init(cfg, t0), before);
      PaidStep(cfg, w, s);
      ExtendsStep(cfg, Run(cfg, Init(cfg, t0), before[..m]), w, s);
    }
  }

  /** Between any two moments of a run the breaker admits at most the requests whose token was
      already held at the first, and burst + rate * time more.  The tokens held count, because an
      admission can lag behind the grant that pays for it. */
  lemma {:induction false} AdmissionsWithinWindow(cfg: Settings, t0: int, steps: seq<Step>, m: nat)
    requires cfg.Valid() && Legal(cfg, Init(cfg, t0), steps) && m <= |steps|
    ensures Legal(cfg, Init(cfg, t0), steps[..m])
    ensures var w, w' := Run(cfg, Init(cfg, t0), steps[..m]), Run(cfg, Init(cfg, t0), steps);
            var b, grants := TB.Full(cfg.limiter, t0), w'.bucket.allowed - w.bucket.allowed;
            && AllAdmissions(w'.breaker.log) - AllAdmissions(w.breaker.log) <= Sum(w.calls).holding + grants
            && grants as real <= b.maxTokens + TB.Inflow(b.refillRate, w'.clock - w.clock)
  {
    hide BreakerRun, AllFrugal, AllAdmissions, Sum, TB.Inflow, TB.Full, TB.Perform, LG.Ordered, LG.Steady, Run, Legal;
    RunExtends(cfg, t0, steps, m);
    RunInvariant(cfg, t0, steps[..m]);
    RunInvariant(cfg, t0, steps);
    var w, w' := Run(cfg, Init(cfg, t0), steps[..m]), Run(cfg, Init(cfg, t0), steps);
    GrantsBetween(cfg.limiter, t0, w'.ops, |w.ops|, w.clock, w'.clock);
  }

  /** Every admission by the breaker was granted by the limiter, so the protected service sees
      at most burst + rate * (t - t0) requests up to any time t since construction. */
  lemma {:induction false} AdmissionsWithinRate(cfg: Settings, t0: int, steps: seq<Step>)
    requires cfg.Valid() && Legal(cfg, Init(cfg, t0), steps)
    ensures var w, b := Run(cfg, Init(cfg, t0), steps), TB.Full(cfg.limiter, t0);
            && AllAdmissions(w.breaker.log) <= w.bucket.allowed
            && w.bucket.allowed as real <= b.maxTokens + TB.Inflow(b.refillRate, w.clock - t0)
  {
    assert steps[..0] == [];
    hide TB.Inflow;
    AdmissionsWithinWindow(cfg, t0, steps, 0);
  }

  /** One call reaches the protected service at most maxRetries + 1 times, and all calls
      together exactly as often as the breaker admits. */
  lemma {:induction false} AdmissionsPerCall(cfg: Settings, t0: int, steps: seq<Step>)
    requires cfg.Valid() && Legal(cfg, Init(cfg, t0), steps)
    ensures var w := Run(cfg, Init(cfg, t0), steps);
            && Sum(w.calls).admitted == AllAdmissions(w.breaker.log)
            && forall i | 0 <= i < |w.calls| :: |w.calls[i].arrivals| <= cfg.retry.maxRetries + 1
  {
    hide LimiterRun, BreakerRun, AllAdmissions, Sum, Run, Legal;
    RunInvariant(cfg, t0, steps);
    var w := Run(cfg, Init(cfg, t0), steps);
    forall i | 0 <= i < |w.calls|
      ensures |w.calls[i].arrivals| <= cfg.retry.maxRetries + 1
    {
      assert Frugal(cfg, w.calls[i]);
    }
  }

  /** Each half-open generation admits at most maxRequests, whatever the calls do; no request
      is admitted during a cool-down; and the breaker never waits for a request no call runs. */
  lemma {:induction false} BreakerUnderCalls(cfg: Settings, t0: int, steps: seq<Step>, i: nat)
    requires cfg.Valid() && Legal(cfg, Init(cfg, t0), steps)
    requires i < |Run(cfg, Init(cfg, t0), steps).breaker.log|
    requires Run(cfg, Init(cfg, t0), steps).breaker.log[i].Transition?
    ensures var w := Run(cfg, Init(cfg, t0), steps);
            var log, e := w.breaker.log, w.breaker.log[i];
            && (e.to.HalfOpen? ==> BP.Admissions(log, e.gen) <= cfg.breaker.maxRequests)
            && (e.to.Open? ==>
                  forall j | i < j < |log| && log[j].Admission? :: log[j].at > e.at + cfg.breaker.timeout)
            && w.breaker.inFlight == Sum(w.calls).running
  {
    RunInvariant(cfg, t0, steps);
    var w := Run(cfg, Init(cfg, t0), steps);
    if w.breaker.log[i].to.HalfOpen? {
      BP.HalfOpenQuota(cfg.breaker, t0, w.events, i);
    } else if w.breaker.log[i].to.Open? {
      forall j | i < j < |w.breaker.log| && w.breaker.log[j].Admission?
        ensures w.breaker.log[j].at > w.breaker.log[i].at + cfg.breaker.timeout
      {
        BP.CoolDown(cfg.breaker, t0, w.events, i, j);
      }
    }
  }

  // ----- The attempts of one call -----

  /** The sum of delays[a], ..., delays[b-1]. */
  function Pause(delays: seq<int>, a: nat, b: nat): int
    requires a <= b <= |delays|
    decreases b
  {
    if a == b then 0 else Pause(delays, a, b - 1) + delays[b - 1]
  }

  lemma {:induction false} PauseAppend(delays: seq<int>, d: int, a: nat, b: nat)
    requires a <= b <= |delays|
    ensures Pause(delays + [d], a, b) == Pause(delays, a, b)
    decreases b
  {
    if a < b {
      PauseAppend(delays, d, a, b - 1);
    }
  }

  lemma {:induction false} PauseAtLeast(delays: seq<int>, a: nat, b: nat)
    requires a < b <= |delays| && forall k | 0 <= k < |delays| :: delays[k] >= 0
    ensures Pause(delays, a, b) >= delays[a]
    decreases b
  {
    if a < b - 1 {
      PauseAtLeast(delays, a, b - 1);
    } else {
      assert Pause(delays, a, a) == 0;
    }
  }

  /** d is a delay that calculateDelay(n) can yield. */
  ghost predicate IsDelay(cfg: RT.Config, n: nat, d: int)
    requires n >= 1
  {
    exists u :: 0.0 <= u < 1.0 && d == RT.DelayFor(cfg, n, u)
  }

  predicate InAttempt(c: Call) {
    c.phase.Waiting? || c.phase.Refused? || c.phase.Holding?
  }

  /** Attempts count up, and between two admissions there is time for the delays drawn between. */
  predicate Spread(c: Call) {
    && (forall k | 0 <= k < |c.arrivals| :: c.arrivals[k].attempt <= |c.delays|)
    && (forall j, k | 0 <= j < k < |c.arrivals| ::
          && c.arrivals[j].attempt < c.arrivals[k].attempt
          && c.arrivals[k].at >= c.arrivals[j].at + Pause(c.delays, c.arrivals[j].attempt, c.arrivals[k].attempt))
  }

  /** Where the call stands in time, seen from each of its admissions. */
  predicate OnSchedule(c: Call, clock: int) {
    && c.attempt <= |c.delays|
    && (c.phase.Sleeping? ==> |c.delays| == c.attempt + 1)
    && (!c.phase.Sleeping? && !c.phase.Done? ==> |c.delays| == c.attempt)
    && forall k | 0 <= k < |c.arrivals| ::
         && c.arrivals[k].attempt <= c.attempt
         && (InAttempt(c) ==> c.arrivals[k].attempt < c.attempt)
         && clock >= c.arrivals[k].at + Pause(c.delays, c.arrivals[k].attempt, c.attempt)
         && (c.phase.Sleeping? ==>
               c.phase.until >= c.arrivals[k].at + Pause(c.delays, c.arrivals[k].attempt, c.attempt + 1))
  }

  ghost predicate Spaced(cfg: Settings, c: Call, clock: int) {
    && OnSchedule(c, clock) && Spread(c)
    && forall k | 0 <= k < |c.delays| :: IsDelay(cfg.retry, k + 1, c.delays[k])
  }

  lemma SpacedArrival(cfg: Settings, c: Call, clock: int, now: int, gen: nat)
    requires Spaced(cfg, c, clock) && c.phase.Holding? && clock <= now
    ensures Spaced(cfg, c.(phase := Running(gen), arrivals := c.arrivals + [Arrival(c.attempt, now)]), now)
  {
    assert Pause(c.delays, c.attempt, c.attempt) == 0;
  }

  lemma SpacedSleep(cfg: Settings, c: Call, clock: int, now: int, u: real)
    requires Spaced(cfg, c, clock) && c.phase.Returned? && clock <= now && 0.0 <= u < 1.0
    ensures var d := RT.DelayFor(cfg.retry, c.attempt + 1, u);
            Spaced(cfg, c.(phase := Sleeping(now + d), delays := c.delays + [d]), now)
  {
    hide RT.DelayFor;
    var d := RT.DelayFor(cfg.retry, c.attempt + 1, u);
    forall a: nat, b: nat | a <= b <= |c.delays|
      ensures Pause(c.delays + [d], a, b) == Pause(c.delays, a, b)
    {
      PauseAppend(c.delays, d, a, b);
    }
    assert IsDelay(cfg.retry, c.attempt + 1, d);
  }

  lemma SpacedWake(cfg: Settings, c: Call, clock: int, now: int)
    requires Spaced(cfg, c, clock) && c.phase.Sleeping? && clock <= now && c.phase.until <= now
    ensures Spaced(cfg, c.(phase := Waiting, attempt := c.attempt + 1), now)
  {
  }

  /** Time passes, and a call may go on inside its attempt or end. */
  lemma SpacedPasses(cfg: Settings, c: Call, clock: int, now: int, phase: Phase)
    requires Spaced(cfg, c, clock) && clock <= now
    requires phase == c.phase || phase.Done? || (!phase.Sleeping? && !c.phase.Sleeping? && !c.phase.Done?)
    requires InAttempt(c.(phase := phase)) ==> InAttempt(c)
    ensures Spaced(cfg, c.(phase := phase), now)
  {
  }

  /** Apart from an admission, going to sleep and waking up, a step changes at most the phase. */
  lemma Inside(cfg: Settings, w: World, s: Step, i: nat)
    requires Enabled(w, s) && i < |w.calls| && |Next(cfg, w, s).calls| > i
    requires var c' := Next(cfg, w, s).calls[i];
             && !(s.Before? && s.i == i && c'.phase.Running?)
             && !(s.Decide? && s.i == i && c'.phase.Sleeping?)
             && !(s.Wake? && s.i == i && s.sleepErr.NoError?)
    ensures var c, c' := w.calls[i], Next(cfg, w, s).calls[i];
            && c' == c.(phase := c'.phase, attempts := c'.attempts)
            && (c'.phase == c.phase || c'.phase.Done? ||
                (!c'.phase.Sleeping? && !c.phase.Sleeping? && !c.phase.Done?))
            && (InAttempt(c.(phase := c'.phase)) ==> InAttempt(c))
  {
    hide TB.Apply, TB.Refilled, TB.Delay, BP.Step, BP.Tick, CB.HasRoom, RT.DelayFor, RT.Notifies;
  }

  /** The errors play no role. */
  lemma SpacedSame(cfg: Settings, c: Call, c': Call, clock: int)
    requires Spaced(cfg, c, clock) && c' == c.(attempts := c'.attempts)
    ensures Spaced(cfg, c', clock)
  {
  }

  /** What one step does to one call. */
  lemma SpacedCall(cfg: Settings, w: World, s: Step, i: nat)
    requires Enabled(w, s) && i < |w.calls| && Spaced(cfg, w.calls[i], w.clock) && |Next(cfg, w, s).calls| > i
    ensures Spaced(cfg, Next(cfg, w, s).calls[i], Next(cfg, w, s).clock)
  {
    hide Spaced, InAttempt, TB.Apply, TB.Refilled, TB.Delay, BP.Step, BP.Tick, CB.HasRoom, RT.DelayFor, RT.Notifies;
    var c, w' := w.calls[i], Next(cfg, w, s);
    ClockMoves(cfg, w, s);
    if s.Before? && s.i == i && w'.calls[i].phase.Running? {
      SpacedArrival(cfg, c, w.clock, w'.clock, w'.calls[i].phase.gen);
    } else if s.Decide? && s.i == i && w'.calls[i].phase.Sleeping? {
      SpacedSleep(cfg, c, w.clock, s.now, s.u);
      SpacedSame(cfg, w'.calls[i].(attempts := c.attempts), w'.calls[i], s.now);
    } else if s.Wake? && s.i == i && s.sleepErr.NoError? {
      SpacedWake(cfg, c, w.clock, s.now);
    } else {
      Inside(cfg, w, s, i);
      SpacedPasses(cfg, c, w.clock, w'.clock, w'.calls[i].phase);
      SpacedSame(cfg, c.(phase := w'.calls[i].phase), w'.calls[i], w'.clock);
    }
  }

  ghost predicate AllSpaced(cfg: Settings, w: World) {
    forall i | 0 <= i < |w.calls| :: Spaced(cfg, w.calls[i], w.clock)
  }

  lemma NewSpaced(cfg: Settings, clock: int)
    ensures Spaced(cfg, NEW_CALL, clock)
  {
  }

  lemma CallsStay(cfg: Settings, w: World, s: Step)
    requires Enabled(w, s)
    ensures |w.calls| <= |Next(cfg, w, s).calls|
    ensures forall i | |w.calls| <= i < |Next(cfg, w, s).calls| :: Next(cfg, w, s).calls[i] == NEW_CALL
  {
    hide TB.Apply, TB.Refilled, TB.Delay, BP.Step, BP.Tick, CB.HasRoom, RT.DelayFor, RT.Notifies;
  }

  lemma SpacedStep(cfg: Settings, w: World, s: Step)
    requires AllSpaced(cfg, w) && Enabled(w, s)
    ensures AllSpaced(cfg, Next(cfg, w, s))
  {
    var w' := Next(cfg, w, s);
    NewSpaced(cfg, w'.clock);
    CallsStay(cfg, w, s);
    hide Spaced, Next;
    forall i | 0 <= i < |w'.calls|
      ensures Spaced(cfg, w'.calls[i], w'.clock)
    {
      if i < |w.calls| {
        SpacedCall(cfg, w, s, i);
      }
    }
  }

  lemma {:induction false} RunSpaced(cfg: Settings, t0: int, steps: seq<Step>)
    requires Legal(cfg, Init(cfg, t0), steps)
    ensures AllSpaced(cfg, Run(cfg, Init(cfg, t0), steps))
  {
    if steps != [] {
      var before := steps[..|steps| - 1];
      RunSpaced(cfg, t0, before);
      hide AllSpaced, Next;
      SpacedStep(cfg, Run(cfg, Init(cfg, t0), before), steps[|steps| - 1]);
    }
  }

  lemma DelaysGrow(cfg: RT.Config, delays: seq<int>)
    requires cfg.Growing() && forall k | 0 <= k < |delays| :: IsDelay(cfg, k + 1, delays[k])
    ensures forall k | 0 <= k < |delays| :: 0 <= delays[k] && Truncate(0.75 * RT.Base(cfg, k + 1)) <= delays[k]
  {
    forall k | 0 <= k < |delays|
      ensures 0 <= delays[k] && Truncate(0.75 * RT.Base(cfg, k + 1)) <= delays[k]
    {
      assert IsDelay(cfg, k + 1, delays[k]);
      var u :| 0.0 <= u < 1.0 && delays[k] == RT.DelayFor(cfg, k + 1, u);
      BO.JitteredDelayRange(cfg, k + 1, u);
    }
  }

  /** In every concurrent run, one call is admitted at most once in each attempt, and between two
      of its admissions passes at least the sum of the backoff delays it drew between them.  With a
      growing backoff that is at least three quarters of the unjittered delay. */
  lemma {:induction false} AttemptsAreSpaced(cfg: Settings, t0: int, steps: seq<Step>, i: nat, j: nat, k: nat)
    requires Legal(cfg, Init(cfg, t0), steps)
    requires i < |Run(cfg, Init(cfg, t0), steps).calls|
    requires j < k < |Run(cfg, Init(cfg, t0), steps).calls[i].arrivals|
    ensures var c := Run(cfg, Init(cfg, t0), steps).calls[i];
            var x, y := c.arrivals[j], c.arrivals[k];
            && x.attempt < y.attempt <= |c.delays|
            && y.at - x.at >= Pause(c.delays, x.attempt, y.attempt)
            && (forall m | 0 <= m < |c.delays| :: IsDelay(cfg.retry, m + 1, c.delays[m]))
            && (cfg.retry.Growing() ==> y.at - x.at >= Truncate(0.75 * RT.Base(cfg.retry, x.attempt + 1)))
  {
    RunSpaced(cfg, t0, steps);
    hide Run, Legal, Init;
    var c := Run(cfg, Init(cfg, t0), steps).calls[i];
    assert Spaced(cfg, c, Run(cfg, Init(cfg, t0), steps).clock);
    var x, y := c.arrivals[j], c.arrivals[k];
    if cfg.retry.Growing() {
      DelaysGrow(cfg.retry, c.delays);
      PauseAtLeast(c.delays, x.attempt, y.attempt);
    }
  }

  // ----- Every call is a run of Retry -----

  /** The errors of a call as a script for Retry. */
  function Script(attempts: seq<RT.Attempt>): nat -> RT.Attempt {
    (k: nat) => if k < |attempts| then attempts[k] else RT.Attempt(NoError, NoError, 0.0, NoError)
  }

  /** After attempt k with this outcome the loop goes on. */
  predicate Continues(cfg: RT.Config, a: RT.Attempt, k: nat) {
    && a.err.Error? && cfg.retryable(a.err) && k < cfg.maxRetries
    && a.ctxErr.NoError? && a.sleepErr.NoError?
  }

  /** The first n attempts all led to another one. */
  predicate AllContinue(cfg: RT.Config, attempts: seq<RT.Attempt>, n: nat) {
    n <= |attempts| && forall k | 0 <= k < n :: Continues(cfg, attempts[k], k)
  }

  /** The call has come as far in Retry's loop as its attempts say. */
  predicate FollowsScript(cfg: RT.Config, c: Call) {
    match c.phase
    case Sleeping(_) => |c.attempts| == c.attempt + 1 && AllContinue(cfg, c.attempts, c.attempt + 1)
    case Done(Finished(r)) =>
      && |c.attempts| == c.attempt + 1 && AllContinue(cfg, c.attempts, c.attempt)
      && !Continues(cfg, c.attempts[c.attempt], c.attempt)
      && r == RT.ResultAt(cfg, Script(c.attempts), c.attempt)
    case _ => |c.attempts| == c.attempt && AllContinue(cfg, c.attempts, c.attempt)
  }

  lemma DecidedFollows(cfg: Settings, c: Call, now: int, ctxErr: Err, u: real)
    requires FollowsScript(cfg.retry, c) && c.phase.Returned?
    ensures FollowsScript(cfg.retry, Decided(cfg, c, now, ctxErr, u))
  {
    hide RT.DelayFor;
  }

  lemma WokenFollows(cfg: Settings, c: Call, sleepErr: Err)
    requires FollowsScript(cfg.retry, c) && c.phase.Sleeping?
    ensures FollowsScript(cfg.retry, Woken(c, sleepErr))
  {
    assert Continues(cfg.retry, c.attempts[c.attempt], c.attempt);
  }

  /** Other steps of the call stay inside the attempt, or end it with a panic. */
  lemma PhaseFollows(cfg: Settings, c: Call, c': Call)
    requires FollowsScript(cfg.retry, c) && c' == c.(phase := c'.phase, arrivals := c'.arrivals)
    requires c'.phase == c.phase ||
             (!c.phase.Sleeping? && !c.phase.Done? && !c'.phase.Sleeping? &&
              (c'.phase.Done? ==> c'.phase.outcome.Panicked?))
    ensures FollowsScript(cfg.retry, c')
  {
  }

  lemma {:induction false} StepFollows(cfg: Settings, w: World, s: Step, i: nat)
    requires Enabled(w, s) && i < |w.calls| && FollowsScript(cfg.retry, w.calls[i])
    ensures i < |Next(cfg, w, s).calls| && FollowsScript(cfg.retry, Next(cfg, w, s).calls[i])
  {
    hide FollowsScript, Decided, Woken, TB.Apply, TB.Refilled, TB.Delay, BP.Step, BP.Tick, CB.HasRoom;
    if s.Decide? && s.i == i {
      DecidedFollows(cfg, w.calls[i], s.now, s.ctxErr, s.u);
    } else if s.Wake? && s.i == i {
      WokenFollows(cfg, w.calls[i], s.sleepErr);
    } else {
      PhaseFollows(cfg, w.calls[i], Next(cfg, w, s).calls[i]);
    }
  }

  lemma NewFollows(cfg: RT.Config)
    ensures FollowsScript(cfg, NEW_CALL)
  {
  }

  lemma {:induction false} RunFollows(cfg: Settings, t0: int, steps: seq<Step>, i: nat)
    requires Legal(cfg, Init(cfg, t0), steps) && i < |Run(cfg, Init(cfg, t0), steps).calls|
    ensures FollowsScript(cfg.retry, Run(cfg, Init(cfg, t0), steps).calls[i])
  {
    if steps != [] {
      var before, s := steps[..|steps| - 1], steps[|steps| - 1];
      var w := Run(cfg, Init(cfg, t0), before);
      CallsStay(cfg, w, s);
      NewFollows(cfg.retry);
      hide FollowsScript, Next;
      if i < |w.calls| {
        RunFollows(cfg, t0, before, i);
        StepFollows(cfg, w, s, i);
      }
    }
  }

  /** In every concurrent run a finished call made exactly the attempts, and returned exactly what
      Retry makes and returns for the errors of its attempts: each but the last failed with a
      retryable error, a retry left and the context live; the last ended it. */
  lemma {:induction false} CallsAreRetries(cfg: Settings, t0: int, steps: seq<Step>, i: nat)
    requires Legal(cfg, Init(cfg, t0), steps) && i < |Run(cfg, Init(cfg, t0), steps).calls|
    ensures var c := Run(cfg, Init(cfg, t0), steps).calls[i];
            var n, script := |c.attempts|, Script(c.attempts);
            && (forall k: nat | k < n - 1 :: RT.GoesOn(cfg.retry, script, k))
            && (c.phase.Done? && c.phase.outcome.Finished? ==>
                  && 1 <= n <= cfg.retry.maxRetries + 1
                  && !RT.GoesOn(cfg.retry, script, n - 1)
                  && c.phase.outcome.result == RT.ResultAt(cfg.retry, script, n - 1))
            && (!c.phase.Done? ==>
                  n == c.attempt + (if c.phase.Sleeping? then 1 else 0) &&
                  (n > 0 ==> RT.GoesOn(cfg.retry, script, n - 1)))
  {
    RunFollows(cfg, t0, steps, i);
    hide Run, Legal, Init;
    var c := Run(cfg, Init(cfg, t0), steps).calls[i];
    forall k: nat | k < |c.attempts|
      ensures RT.GoesOn(cfg.retry, Script(c.attempts), k) == Continues(cfg.retry, c.attempts[k], k)
    {
      assert Script(c.attempts)(k) == c.attempts[k];
    }
    assert |c.attempts| > 1 ==> Continues(cfg.retry, c.attempts[|c.attempts| - 2], |c.attempts| - 2);
  }

  // ----- What the steps of one attempt do, told from the components -----

  /** Wait goes on to the breaker exactly if the limiter counts a grant. */
  lemma AllowExactly(cfg: Settings, w: World, i: nat, now: int)
    requires Enabled(w, Allow(i, now))
    ensures var w' := Next(cfg, w, Allow(i, now));
            && (w'.calls[i].phase == Holding <==> w'.bucket.allowed == w.bucket.allowed + 1)
            && (w'.calls[i].phase == Refused <==> w'.bucket.rejected == w.bucket.rejected + 1)
  {
  }

  /** Without a token: with a delay to wait, ErrRateLimited if rejecting; else the context error, if
      there is one and the strategy heeds it; else another try. */
  lemma ReserveExactly(cfg: Settings, w: World, i: nat, now: int, ctxErr: Err)
    requires Enabled(w, Reserve(i, now, ctxErr))
    ensures var w' := Next(cfg, w, Reserve(i, now, ctxErr));
            var phase, strategy := w'.calls[i].phase, cfg.limiter.strategy;
            && w'.bucket.refillRate != 0.0 && w'.bucket.allowed == w.bucket.allowed
            && (if TB.Delay(w'.bucket) != 0 && strategy.Reject? then phase == Returned(ERR_RATE_LIMITED)
                else if TB.Delay(w'.bucket) != 0 && ctxErr.Error? && strategy in {TB.Block, TB.Adaptive, TB.Unspecified}
                then phase == Returned(ctxErr)
                else phase == Waiting)
  {
  }

  /** The protected function runs exactly if the breaker logs an admission, and for the generation
      logged; otherwise the attempt returns ErrCircuitBreakerOpen. */
  lemma BeforeExactly(cfg: Settings, w: World, i: nat, now: int)
    requires Enabled(w, Before(i, now))
    ensures var w' := Next(cfg, w, Before(i, now));
            var log, phase := w'.breaker.log, w'.calls[i].phase;
            && log != []
            && (if log[|log| - 1].Admission?
                then phase == Running(log[|log| - 1].gen) &&
                     w'.calls[i].arrivals == w.calls[i].arrivals + [Arrival(w.calls[i].attempt, log[|log| - 1].at)]
                else phase == Returned(ERR_BREAKER_OPEN) && w'.calls[i].arrivals == w.calls[i].arrivals)
  {
    hide CB.HasRoom, CB.Ticked;
  }

  /** Once an attempt has returned: the call sleeps exactly if the error is retryable, a retry is
      left and the context is live, and then makes its next attempt once the delay has passed. */
  lemma {:induction false} DecideExactly(cfg: Settings, w: World, i: nat, now: int, ctxErr: Err, u: real, later: int)
    requires i < |w.calls| && w.calls[i].phase.Returned?
    requires w.clock <= now <= later && 0.0 <= u < 1.0
    ensures Enabled(w, Decide(i, now, ctxErr, u))
    ensures var w', c := Next(cfg, w, Decide(i, now, ctxErr, u)), w.calls[i];
            var err := c.phase.err;
            if err.Error? && cfg.retry.retryable(err) && c.attempt < cfg.retry.maxRetries && ctxErr.NoError? then
              var until := now + RT.DelayFor(cfg.retry, c.attempt + 1, u);
              && w'.calls[i].phase == Sleeping(until)
              && (later >= until <==> Enabled(w', Wake(i, later, NoError)))
              && (later >= until ==>
                    var c' := Next(cfg, w', Wake(i, later, NoError)).calls[i];
                    c'.phase == Waiting && c'.attempt == c.attempt + 1)
            else
              w'.calls[i].phase.Done? && w'.calls[i].phase.outcome.Finished? &&
              (w'.calls[i].phase.outcome.result == RT.Success <==> err.NoError?)
  {
    hide RT.DelayFor;
  }

  /** The protected function's error is what Retry decides on; a panic ends the call. */
  lemma {:induction false} ReportIsDecided(cfg: Settings, w: World, i: nat, err: Err, panicked: bool, now: int,
                                           then': int, ctxErr: Err, u: real)
    requires Enabled(w, After(i, err, panicked, now)) && now <= then' && 0.0 <= u < 1.0
    ensures var w', c := Next(cfg, w, After(i, err, panicked, now)), w.calls[i];
            if panicked then w'.calls[i].phase == Done(Panicked)
            else
              && Enabled(w', Decide(i, then', ctxErr, u))
              && (Next(cfg, w', Decide(i, then', ctxErr, u)).calls[i].phase.Sleeping? <==>
                    err.Error? && cfg.retry.retryable(err) && c.attempt < cfg.retry.maxRetries && ctxErr.NoError?)
  {
    hide BP.Step, RT.DelayFor;
    if !panicked {
      DecideExactly(cfg, Next(cfg, w, After(i, err, panicked, now)), i, then', ctxErr, u, then');
    }
  }

  /** Under the Cloudflare rules a call that was refused a token, or that met an open breaker, goes
      to sleep exactly while it has a retry left and its context is live. */
  lemma RefusalsAreRetried(cfg: Settings, w: World, i: nat, now: int, ctxErr: Err, u: real)
    requires forall e :: cfg.retry.retryable(e) <==> CloudflareRetryable(e)
    requires i < |w.calls| && w.calls[i].phase in {Returned(ERR_RATE_LIMITED), Returned(ERR_BREAKER_OPEN)}
    requires w.clock <= now && 0.0 <= u < 1.0
    ensures Enabled(w, Decide(i, now, ctxErr, u))
    ensures Next(cfg, w, Decide(i, now, ctxErr, u)).calls[i].phase.Sleeping? <==>
            w.calls[i].attempt < cfg.retry.maxRetries && ctxErr.NoError?
  {
    RateLimitedIsRetried();
    BreakerOpenIsRetried();
    hide CloudflareRetryable;
    DecideExactly(cfg, w, i, now, ctxErr, u, now);
  }

  // ----- The shipped configuration -----

  /** NewReliabilityComponents: three trial requests, 60 s interval, 30 s timeout; three
      retries from 200 ms to 30 s; 4 requests per second with a burst of 10. */
  function Cloudflare(): (cfg: Settings)
    ensures cfg.Valid()
  {
    Settings(
      CB.WithDefaults(CB.RawConfig(3, 60 * SECOND, 30 * SECOND, Some(c => CB.DefaultReadyToTrip(c)), None)),
      RT.WithDefaults(RT.RawConfig(3, 200_000_000, 30 * SECOND, 2.0, true, Some(e => CloudflareRetryable(e)))),
      TB.RawConfig(4.0, 10, TB.Block))
  }

  lemma CloudflareBucket(t0: int)
    ensures var b := TB.Full(Cloudflare().limiter, t0); b.maxTokens == 10.0 && b.refillRate == 4.0
    ensures Cloudflare().retry.maxRetries == 3
  {
  }

  /** At most 10 + 4 per second requests reach Cloudflare, and at most four for one call. */
  lemma CloudflareLoad(t0: int, steps: seq<Step>)
    requires Legal(Cloudflare(), Init(Cloudflare(), t0), steps)
    ensures var w := Run(Cloudflare(), Init(Cloudflare(), t0), steps);
            && AllAdmissions(w.breaker.log) as real <= 10.0 + TB.Inflow(4.0, w.clock - t0)
            && forall i | 0 <= i < |w.calls| :: |w.calls[i].arrivals| <= 4
  {
    hide TB.Inflow, TB.Full, Cloudflare, AllAdmissions, Sum;
    CloudflareBucket(t0);
    AdmissionsWithinRate(Cloudflare(), t0, steps);
    AdmissionsPerCall(Cloudflare(), t0, steps);
    hide Run, Legal, Init;
  }
}
