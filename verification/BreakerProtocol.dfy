/** Any number of callers share one circuit breaker.  Each operation is one atomic step,
    because the source runs it under the lock; steps of different callers interleave freely.
    The log is never read by the breaker: it exists to state what a whole run did. */
module BreakerProtocol {
  import opened Common
  import opened CircuitBreaking

  // ----- What a run leaves behind -----

  datatype Entry =
    | Admission(gen: nat, at: int)           // a request was let through
    | Rejection(gen: nat, at: int)           // a request got ErrCircuitBreakerOpen
    | Outcome(gen: nat, ok: bool)            // a finished request was counted
    | Late(gen: nat)                         // a finished request was ignored
    | Transition(from: State, to: State, gen: nat, at: int)  // gen is the new generation
    | ResetCall(at: int)

  type Log = seq<Entry>

  /** Requests admitted in generation g. */
  function Admissions(log: Log, g: nat): nat {
    if log == [] then 0
    else Admissions(log[..|log| - 1], g) +
         (match log[|log| - 1] case Admission(h, _) => (if h == g then 1 else 0) case _ => 0)
  }

  /** Requests of generation g whose outcome was ignored. */
  function Ignored(log: Log, g: nat): nat {
    if log == [] then 0
    else Ignored(log[..|log| - 1], g) + (if log[|log| - 1] == Late(g) then 1 else 0)
  }

  /** Outcomes counted in generation g, oldest first. */
  function Outcomes(log: Log, g: nat): seq<bool> {
    if log == [] then []
    else Outcomes(log[..|log| - 1], g) +
         (match log[|log| - 1] case Outcome(h, ok) => (if h == g then [ok] else []) case _ => [])
  }

  function Transitions(log: Log): seq<Change> {
    if log == [] then []
    else Transitions(log[..|log| - 1]) +
         (match log[|log| - 1] case Transition(from, to, _, _) => [Change(from, to)] case _ => [])
  }

  lemma {:induction false} Append(log: Log, e: Entry)
    ensures forall g :: Admissions(log + [e], g) ==
                        Admissions(log, g) + if e.Admission? && e.gen == g then 1 else 0
    ensures forall g :: Ignored(log + [e], g) == Ignored(log, g) + if e == Late(g) then 1 else 0
    ensures forall g :: Outcomes(log + [e], g) ==
                        if e.Outcome? && e.gen == g then Outcomes(log, g) + [e.ok] else Outcomes(log, g)
    ensures Transitions(log + [e]) ==
            if e.Transition? then Transitions(log) + [Change(e.from, e.to)] else Transitions(log)
  {
    assert (log + [e])[..|log + [e]| - 1] == log;
  }

  // ----- What the counters mean -----

  function Count(outcomes: seq<bool>, ok: bool): nat {
    if outcomes == [] then 0
    else Count(outcomes[..|outcomes| - 1], ok) + if outcomes[|outcomes| - 1] == ok then 1 else 0
  }

  /** Length of the longest suffix made of `ok` only. */
  function Trailing(outcomes: seq<bool>, ok: bool): (n: nat)
    ensures n <= |outcomes|
    ensures forall i :: |outcomes| - n <= i < |outcomes| ==> outcomes[i] == ok
    ensures n < |outcomes| ==> outcomes[|outcomes| - 1 - n] != ok
  {
    if outcomes == [] || outcomes[|outcomes| - 1] != ok then 0
    else Trailing(outcomes[..|outcomes| - 1], ok) + 1
  }

  /** The counters a generation must show after `admitted` admissions and these outcomes. */
  function CountsFor(admitted: nat, outcomes: seq<bool>): Counts {
    Counts(Wrap(admitted),
           Wrap(Count(outcomes, true)), Wrap(Count(outcomes, false)),
           Wrap(Trailing(outcomes, true)), Wrap(Trailing(outcomes, false)))
  }

  lemma {:induction false} CountOutcome(admitted: nat, outcomes: seq<bool>, ok: bool)
    ensures Count(outcomes + [ok], ok) == Count(outcomes, ok) + 1
    ensures Count(outcomes + [ok], !ok) == Count(outcomes, !ok)
    ensures CountsFor(admitted, outcomes + [ok]) ==
            if ok then CountsFor(admitted, outcomes).OnSuccess() else CountsFor(admitted, outcomes).OnFailure()
  {
    var longer := outcomes + [ok];
    assert longer[..|longer| - 1] == outcomes && longer[|longer| - 1] == ok;
    assert Trailing(longer, ok) == Trailing(outcomes, ok) + 1;
    assert Trailing(longer, !ok) == 0;
    IncWrap(Count(outcomes, ok));
    IncWrap(Trailing(outcomes, ok));
  }

  lemma {:induction false} CountsSplit(outcomes: seq<bool>)
    ensures Count(outcomes, true) + Count(outcomes, false) == |outcomes|
  {
    if outcomes != [] {
      CountsSplit(outcomes[..|outcomes| - 1]);
    }
  }

  /** Below 2^32 requests nothing wraps around. */
  lemma SmallCounts(admitted: nat, outcomes: seq<bool>)
    requires |outcomes| <= admitted < UINT32
    ensures CountsFor(admitted, outcomes) ==
            Counts(admitted, Count(outcomes, true), Count(outcomes, false),
                   Trailing(outcomes, true), Trailing(outcomes, false))
    ensures Count(outcomes, true) + Count(outcomes, false) == |outcomes|
  {
    CountsSplit(outcomes);
  }

  /** Counters that have not wrapped around, with `running` requests still to report. */
  predicate Plain(c: Counts, history: seq<bool>, running: nat) {
    && c.requests == c.totalSuccesses + c.totalFailures + running
    && c.totalFailures == Count(history, false)
    && c.consecutiveSuccesses == Trailing(history, true)
    && c.consecutiveFailures == Trailing(history, false)
  }

  lemma PlainCounts(c: Counts, admitted: nat, history: seq<bool>, running: nat)
    requires admitted == |history| + running < UINT32 && c == CountsFor(admitted, history)
    ensures Plain(c, history, running)
  {
    SmallCounts(admitted, history);
  }

  // ----- The protocol -----

  /** `inFlight` holds the generation in which each unfinished request was admitted, `began` when
      the present generation began.  No operation reads either of them or the log. */
  datatype System = System(core: Core, clock: int, inFlight: multiset<nat>, log: Log, began: int)

  datatype Event =
    | Before(now: int)                        // beforeRequest
    | After(gen: nat, err: Err, now: int)     // afterRequest
    | Observe(now: int)                       // State
    | Reset(now: int, now': int)              // Reset

  function Start(cfg: Config, now: int): System {
    System(Initial(cfg, now), now, multiset{}, [], now)
  }

  function Noted(log: Log, before: Core, after: Core, now: int): Log {
    if before.state == after.state then log
    else log + [Transition(before.state, after.state, after.generation, now)]
  }

  function Began(before: Core, after: Core, began: int, now: int): int {
    if before.generation == after.generation then began else now
  }

  function Tick(cfg: Config, s: System, now: int): System {
    var c := Ticked(cfg, s.core, now);
    s.(core := c, clock := now, log := Noted(s.log, s.core, c, now), began := Began(s.core, c, s.began, now))
  }

  function Admit(s: System): System {
    var g := s.core.generation;
    s.(core := CircuitBreaking.Admitted(s.core),
       inFlight := s.inFlight + multiset{g},
       log := s.log + [Admission(g, s.clock)])
  }

  function Finish(cfg: Config, s: System, gen: nat, err: Err): System {
    var rest := s.inFlight - multiset{gen};
    if s.core.generation != gen then s.(inFlight := rest, log := s.log + [Late(gen)])
    else
      var ok := cfg.isSuccessful(err);
      var c := Settled(cfg, s.core, ok, s.clock);
      s.(core := c, inFlight := rest, log := Noted(s.log + [Outcome(gen, ok)], s.core, c, s.clock),
         began := Began(s.core, c, s.began, s.clock))
  }

  function ResetAll(cfg: Config, s: System, now: int, now': int): System {
    var c := AfterReset(cfg, s.core, now, now');
    s.(core := c, clock := now', log := Noted(s.log + [ResetCall(now)], s.core, c, now'),
       began := if s.core.state == c.state then now else now')
  }

  function Step(cfg: Config, s: System, e: Event): System {
    match e
    case Before(now) =>
      var t := Tick(cfg, s, now);
      if HasRoom(cfg, t.core) then Admit(t) else t.(log := t.log + [Rejection(t.core.generation, now)])
    case After(gen, err, now) => Finish(cfg, Tick(cfg, s, now), gen, err)
    case Observe(now) => Tick(cfg, s, now)
    case Reset(now, now') => ResetAll(cfg, s, now, now')
  }

  /** The clock does not run backwards and only admitted requests finish. */
  predicate Possible(s: System, e: Event) {
    && s.clock <= e.now
    && (e.After? ==> e.gen in s.inFlight)
    && (e.Reset? ==> e.now <= e.now')
  }

  function Run(cfg: Config, s: System, events: seq<Event>): System
    decreases |events|, 1
  {
    if events == [] then s else LastStep(cfg, s, events)
  }

  function LastStep(cfg: Config, s: System, events: seq<Event>): System
    requires events != []
    decreases |events|, 0
  {
    Step(cfg, Run(cfg, s, events[..|events| - 1]), events[|events| - 1])
  }

  predicate Legal(cfg: Config, s: System, events: seq<Event>) {
    events == [] ||
    (Legal(cfg, s, events[..|events| - 1]) &&
     Possible(Run(cfg, s, events[..|events| - 1]), events[|events| - 1]))
  }

  /** A step changes the breaker exactly as the corresponding method does. */
  lemma StepIsOperation(cfg: Config, s: System, e: Event)
    ensures Step(cfg, s, e).core ==
            match e
            case Before(now) => AfterBefore(cfg, s.core, now)
            case After(gen, err, now) => AfterAfter(cfg, s.core, gen, err, now)
            case Observe(now) => Ticked(cfg, s.core, now)
            case Reset(now, now') => AfterReset(cfg, s.core, now, now')
  {
  }

  // ----- The invariant -----

  /** Every admitted request is, exactly once, counted, ignored or still running; and
      only requests of earlier generations were ignored. */
  ghost predicate Ledger(s: System) {
    && (forall g :: Admissions(s.log, g) == |Outcomes(s.log, g)| + Ignored(s.log, g) + s.inFlight[g])
    && (forall g | g >= s.core.generation :: Ignored(s.log, g) == 0)
    && (forall g | g > s.core.generation :: Admissions(s.log, g) == 0)
  }

  function Now(s: System): seq<bool> {
    Outcomes(s.log, s.core.generation)
  }

  /** The counters are the fold of the present generation's history. */
  predicate Counted(s: System) {
    s.core.counts == CountsFor(Admissions(s.log, s.core.generation), Now(s))
  }

  predicate StateFacts(cfg: Config, s: System) {
    var admitted := Admissions(s.log, s.core.generation);
    match s.core.state
    case Closed => s.core.generation > 0 || s.core.expiry.At?
    case Open => admitted == 0 && s.core.expiry.At?
    case HalfOpen =>
      && admitted <= cfg.maxRequests
      && |Now(s)| < cfg.maxRequests
      && Count(Now(s), false) == 0
  }

  /** The bound the default trip condition keeps while no counter wraps around. */
  predicate Tolerable(admitted: nat, outcomes: seq<bool>) {
    admitted < UINT32 ==>
      Count(outcomes, false) <= 4 || 5 * Count(outcomes, false) < 3 * admitted
  }

  ghost predicate UsesDefaultTrip(cfg: Config) {
    forall c :: cfg.readyToTrip(c) == DefaultReadyToTrip(c)
  }

  predicate Quiet(log: Log, i: nat) {
    forall k :: i <= k < |log| ==> !log[k].ResetCall?
  }

  /** Until a Reset, a breaker opened at time t is still open with deadline t + timeout, or
      that deadline has passed. */
  ghost predicate Cooling(cfg: Config, s: System) {
    forall i | 0 <= i < |s.log| && s.log[i].Transition? && s.log[i].to.Open? && Quiet(s.log, i) ::
      || (s.core.state.Open? && s.core.expiry == At(s.log[i].at + cfg.timeout))
      || s.clock > s.log[i].at + cfg.timeout
  }

  /** No admission in the log breaks the cool-down of an earlier opening. */
  ghost predicate CooledDown(cfg: Config, log: Log) {
    forall i, j | 0 <= i < j < |log| && log[i].Transition? && log[i].to.Open? && log[j].Admission? ::
      (exists k :: i < k < j && log[k].ResetCall?) || log[j].at > log[i].at + cfg.timeout
  }

  /** The transitions of one generation, and no request beyond its quota. */
  ghost predicate Quotas(cfg: Config, s: System) {
    forall i | 0 <= i < |s.log| && s.log[i].Transition? ::
      && s.log[i].gen <= s.core.generation
      && (s.log[i].gen == s.core.generation ==> s.core.state == s.log[i].to)
      && (s.log[i].to.HalfOpen? ==>
            Admissions(s.log, s.log[i].gen) <= cfg.maxRequests &&
            |Outcomes(s.log, s.log[i].gen)| <= cfg.maxRequests)
  }

  /** closed→open, open→half-open, half-open→open, half-open→closed; open→closed by Reset only. */
  predicate AllowedAt(log: Log, i: nat)
    requires i < |log| && log[i].Transition?
  {
    match (log[i].from, log[i].to)
    case (Closed, Open) => true
    case (Open, HalfOpen) => true
    case (HalfOpen, Open) => true
    case (HalfOpen, Closed) => true
    case (Open, Closed) => i > 0 && log[i - 1].ResetCall?
    case _ => false
  }

  predicate IsPath(changes: seq<Change>, from: State, to: State) {
    if changes == [] then from == to
    else changes[|changes| - 1].to == to &&
         IsPath(changes[..|changes| - 1], from, changes[|changes| - 1].from)
  }

  ghost predicate Pathed(s: System) {
    && s.core.changes == Transitions(s.log)
    && IsPath(s.core.changes, Closed, s.core.state)
    && forall i | 0 <= i < |s.log| && s.log[i].Transition? :: AllowedAt(s.log, i)
  }

  ghost predicate Invariant(cfg: Config, s: System) {
    Ledger(s) && Counted(s) && StateFacts(cfg, s)
  }

  ghost predicate Timeline(cfg: Config, s: System) {
    Cooling(cfg, s) && CooledDown(cfg, s.log) && Quotas(cfg, s) && Pathed(s)
  }

  // ----- One step keeps the counting invariant -----

  ghost predicate SameRequests(log: Log, log': Log) {
    forall g :: Admissions(log', g) == Admissions(log, g) && Ignored(log', g) == Ignored(log, g) &&
                Outcomes(log', g) == Outcomes(log, g)
  }

  /** Entries that are about no request. */
  lemma QuietEntry(log: Log, e: Entry)
    requires e.Rejection? || e.Transition? || e.ResetCall?
    ensures SameRequests(log, log + [e])
  {
    Append(log, e);
  }

  lemma NotedKeepsRequests(log: Log, before: Core, after: Core, now: int)
    ensures SameRequests(log, Noted(log, before, after, now))
  {
    QuietEntry(log, Transition(before.state, after.state, after.generation, now));
  }

  /** A generation nobody was admitted in yet starts from nothing. */
  lemma NewGeneration(s: System, s': System)
    requires Ledger(s) && SameRequests(s.log, s'.log) && s'.inFlight == s.inFlight
    requires s'.core.generation > s.core.generation && s'.core.counts == ZERO_COUNTS
    ensures Ledger(s') && Counted(s') && Now(s') == [] && Admissions(s'.log, s'.core.generation) == 0
  {
    assert |Outcomes(s.log, s'.core.generation)| == 0;
  }

  lemma StartInvariant(cfg: Config, now: int)
    requires cfg.Valid()
    ensures Invariant(cfg, Start(cfg, now)) && Timeline(cfg, Start(cfg, now))
  {
  }

  lemma TickInvariant(cfg: Config, s: System, now: int)
    requires cfg.Valid() && Invariant(cfg, s)
    ensures Invariant(cfg, Tick(cfg, s, now))
  {
    var s' := Tick(cfg, s, now);
    NotedKeepsRequests(s.log, s.core, s'.core, now);
    if s'.core != s.core {
      NewGeneration(s, s');
    }
  }

  lemma AdmitLedger(s: System)
    requires Ledger(s)
    ensures Ledger(Admit(s))
  {
    Append(s.log, Admission(s.core.generation, s.clock));
  }

  lemma AdmitInvariant(cfg: Config, s: System)
    requires cfg.Valid() && Invariant(cfg, s) && HasRoom(cfg, s.core)
    ensures Invariant(cfg, Admit(s))
  {
    AdmitLedger(s);
    Append(s.log, Admission(s.core.generation, s.clock));
    IncWrap(Admissions(s.log, s.core.generation));
  }

  lemma RejectInvariant(cfg: Config, s: System, now: int)
    requires Invariant(cfg, s)
    ensures Invariant(cfg, s.(log := s.log + [Rejection(s.core.generation, now)]))
  {
    QuietEntry(s.log, Rejection(s.core.generation, now));
  }

  /** The state with one more outcome of the present generation, before any transition. */
  function Scored(s: System, ok: bool): System {
    System(s.core.(counts := if ok then s.core.counts.OnSuccess() else s.core.counts.OnFailure()), s.clock,
           s.inFlight - multiset{s.core.generation}, s.log + [Outcome(s.core.generation, ok)], s.began)
  }

  lemma ScoredLedger(s: System, ok: bool)
    requires Ledger(s) && s.core.generation in s.inFlight
    ensures Ledger(Scored(s, ok))
    ensures Now(Scored(s, ok)) == Now(s) + [ok]
    ensures Admissions(Scored(s, ok).log, s.core.generation) == Admissions(s.log, s.core.generation)
  {
    var g0 := s.core.generation;
    Append(s.log, Outcome(g0, ok));
    var rest := s.inFlight - multiset{g0};
    forall g
      ensures var log' := s.log + [Outcome(g0, ok)];
              Admissions(log', g) == |Outcomes(log', g)| + Ignored(log', g) + rest[g]
    {
      assert Admissions(s.log, g) == |Outcomes(s.log, g)| + Ignored(s.log, g) + s.inFlight[g];
      assert rest[g] == if g == g0 then s.inFlight[g] - 1 else s.inFlight[g];
    }
  }

  lemma ScoredCounts(s: System, ok: bool)
    requires Ledger(s) && Counted(s) && s.core.generation in s.inFlight
    ensures Counted(Scored(s, ok))
  {
    ScoredLedger(s, ok);
    CountOutcome(Admissions(s.log, s.core.generation), Now(s), ok);
  }

  lemma LateInvariant(cfg: Config, s: System, gen: nat)
    requires Invariant(cfg, s) && gen in s.inFlight && gen != s.core.generation
    ensures Invariant(cfg, s.(inFlight := s.inFlight - multiset{gen}, log := s.log + [Late(gen)]))
  {
    var rest := s.inFlight - multiset{gen};
    Append(s.log, Late(gen));
    forall g
      ensures var log' := s.log + [Late(gen)];
              Admissions(log', g) == |Outcomes(log', g)| + Ignored(log', g) + rest[g]
    {
      assert Admissions(s.log, g) == |Outcomes(s.log, g)| + Ignored(s.log, g) + s.inFlight[g];
      assert rest[g] == if g == gen then s.inFlight[g] - 1 else s.inFlight[g];
    }
  }

  /** With no failure counted, every outcome is a success and so is the trailing run. */
  lemma {:induction false} AllSuccesses(outcomes: seq<bool>)
    requires Count(outcomes, false) == 0
    ensures Trailing(outcomes, true) == Count(outcomes, true) == |outcomes|
    ensures Trailing(outcomes, false) == 0
  {
    if outcomes != [] {
      AllSuccesses(outcomes[..|outcomes| - 1]);
    }
  }

  /** An outcome that causes no transition keeps the facts about the present state. */
  lemma StaysInPlace(cfg: Config, s: System, ok: bool)
    requires cfg.Valid() && Invariant(cfg, s) && s.core.generation in s.inFlight
    requires Settled(cfg, s.core, ok, s.clock) == Scored(s, ok).core
    ensures StateFacts(cfg, Scored(s, ok))
  {
    var s' := Scored(s, ok);
    ScoredLedger(s, ok);
    ScoredCounts(s, ok);
    if s.core.state.HalfOpen? {
      CountOutcome(Admissions(s.log, s.core.generation), Now(s), ok);
      CountsSplit(Now(s'));
      AllSuccesses(Now(s'));
    }
  }

  lemma FinishInvariant(cfg: Config, s: System, gen: nat, err: Err)
    requires cfg.Valid() && Invariant(cfg, s) && gen in s.inFlight
    ensures Invariant(cfg, Finish(cfg, s, gen, err))
  {
    hide Admissions, Outcomes, Ignored, CountsFor, Count;
    var s' := Finish(cfg, s, gen, err);
    if s.core.generation != gen {
      LateInvariant(cfg, s, gen);
    } else {
      var mid := Scored(s, cfg.isSuccessful(err));
      ScoredLedger(s, cfg.isSuccessful(err));
      ScoredCounts(s, cfg.isSuccessful(err));
      if s'.core.generation != gen {
        NotedKeepsRequests(mid.log, s.core, s'.core, s.clock);
        NewGeneration(mid, s');
      } else {
        assert s' == mid;
        StaysInPlace(cfg, s, cfg.isSuccessful(err));
      }
    }
  }

  lemma ResetInvariant(cfg: Config, s: System, now: int, now': int)
    requires cfg.Valid() && Invariant(cfg, s)
    ensures Invariant(cfg, ResetAll(cfg, s, now, now'))
  {
    var s' := ResetAll(cfg, s, now, now');
    QuietEntry(s.log, ResetCall(now));
    NotedKeepsRequests(s.log + [ResetCall(now)], s.core, s'.core, now');
    NewGeneration(s, s');
  }

  lemma {:induction false} StepInvariant(cfg: Config, s: System, e: Event)
    requires cfg.Valid() && Invariant(cfg, s) && Possible(s, e)
    ensures Invariant(cfg, Step(cfg, s, e))
  {
    match e
    case Before(now) =>
      TickInvariant(cfg, s, now);
      var t := Tick(cfg, s, now);
      if HasRoom(cfg, t.core) {
        AdmitInvariant(cfg, t);
      } else {
        RejectInvariant(cfg, t, now);
      }
    case After(gen, err, now) =>
      TickInvariant(cfg, s, now);
      FinishInvariant(cfg, Tick(cfg, s, now), gen, err);
    case Observe(now) => TickInvariant(cfg, s, now);
    case Reset(now, now') => ResetInvariant(cfg, s, now, now');
  }

  // ----- One step keeps the trip bound -----

  /** What a failure counted in a closed period that does not trip leaves behind. */
  lemma NotTripped(admitted: nat, outcomes: seq<bool>)
    requires |outcomes| <= admitted
    requires !DefaultReadyToTrip(CountsFor(admitted, outcomes))
    ensures Tolerable(admitted, outcomes)
  {
    CountsSplit(outcomes);
    DefaultTripMeaning(CountsFor(admitted, outcomes));
  }

  predicate Bearable(s: System) {
    s.core.state.Closed? ==> Tolerable(Admissions(s.log, s.core.generation), Now(s))
  }

  lemma TripTick(cfg: Config, s: System, now: int)
    requires Ledger(s) && Bearable(s)
    ensures Bearable(Tick(cfg, s, now))
  {
    var s' := Tick(cfg, s, now);
    NotedKeepsRequests(s.log, s.core, s'.core, now);
    if s'.core != s.core {
      NewGeneration(s, s');
    }
  }

  lemma TripFinish(cfg: Config, s: System, gen: nat, err: Err)
    requires cfg.Valid() && Invariant(cfg, s) && gen in s.inFlight && UsesDefaultTrip(cfg) && Bearable(s)
    ensures Bearable(Finish(cfg, s, gen, err))
  {
    hide Admissions, Outcomes, Ignored, CountsFor;
    var s' := Finish(cfg, s, gen, err);
    if s.core.generation != gen {
      Append(s.log, Late(gen));
    } else {
      var ok := cfg.isSuccessful(err);
      var mid := Scored(s, ok);
      ScoredLedger(s, ok);
      if s'.core.generation != gen {
        NotedKeepsRequests(mid.log, s.core, s'.core, s.clock);
        NewGeneration(mid, s');
      } else {
        assert s' == mid;
        ScoredCounts(s, ok);
        CountOutcome(Admissions(s.log, gen), Now(s), ok);
        if !ok && s.core.state.Closed? {
          NotTripped(Admissions(mid.log, gen), Now(mid));
        }
      }
    }
  }

  lemma TripBefore(cfg: Config, s: System, now: int)
    requires Ledger(s) && Bearable(s)
    ensures Bearable(if HasRoom(cfg, s.core) then Admit(s) else s.(log := s.log + [Rejection(s.core.generation, now)]))
  {
    Append(s.log, Admission(s.core.generation, s.clock));
    Append(s.log, Rejection(s.core.generation, now));
  }

  lemma TripReset(cfg: Config, s: System, now: int, now': int)
    requires Ledger(s)
    ensures Bearable(ResetAll(cfg, s, now, now'))
  {
    var s' := ResetAll(cfg, s, now, now');
    QuietEntry(s.log, ResetCall(now));
    NotedKeepsRequests(s.log + [ResetCall(now)], s.core, s'.core, now');
    NewGeneration(s, s');
  }

  /** Only failures test the trip condition; admissions and successes cannot spoil the bound,
      because the number of admissions only grows within a generation. */
  lemma TripStep(cfg: Config, s: System, e: Event)
    requires cfg.Valid() && Invariant(cfg, s) && Possible(s, e) && UsesDefaultTrip(cfg) && Bearable(s)
    ensures Bearable(Step(cfg, s, e))
  {
    if e.Reset? {
      TripReset(cfg, s, e.now, e.now');
    } else {
      TickInvariant(cfg, s, e.now);
      TripTick(cfg, s, e.now);
      if e.Before? {
        TripBefore(cfg, Tick(cfg, s, e.now), e.now);
      } else if e.After? {
        TripFinish(cfg, Tick(cfg, s, e.now), e.gen, e.err);
      }
    }
  }

  // ----- One step keeps the history in order -----

  /** Time passes, and a closed period or (during a Reset) any period may be renewed. */
  predicate Drifts(s: System, s': System) {
    && s'.log == s.log && s'.core.state == s.core.state && s'.core.changes == s.core.changes
    && s'.core.generation >= s.core.generation && s'.clock >= s.clock
    && (s.core.state.Open? ==>
          s'.core.expiry == s.core.expiry || (s.log != [] && s.log[|s.log| - 1].ResetCall?))
  }

  predicate WithinQuota(cfg: Config, s: System) {
    s.core.state.HalfOpen? ==>
      Admissions(s.log, s.core.generation) <= cfg.maxRequests && |Now(s)| <= cfg.maxRequests
  }

  /** One entry other than a transition is written. */
  predicate Writes(cfg: Config, s: System, s': System, e: Entry) {
    && !e.Transition? && s'.log == s.log + [e]
    && s'.core.state == s.core.state && s'.core.changes == s.core.changes
    && s'.core.generation == s.core.generation && s'.core.expiry == s.core.expiry && s'.clock == s.clock
    && (e.Admission? ==> !s.core.state.Open? && e.at == s.clock && e.gen == s.core.generation)
    && (e.Outcome? ==> e.gen == s.core.generation)
    && WithinQuota(cfg, s')
  }

  /** The state changes, and the change is written. */
  predicate Moves(cfg: Config, s: System, s': System) {
    && s'.log == s.log + [Transition(s.core.state, s'.core.state, s'.core.generation, s.clock)]
    && s'.clock == s.clock && s'.core.generation > s.core.generation
    && s'.core.changes == s.core.changes + [Change(s.core.state, s'.core.state)]
    && WithinQuota(cfg, s')
    && match (s.core.state, s'.core.state)
       case (Closed, Open) => s'.core.expiry == At(s.clock + cfg.timeout)
       case (HalfOpen, Open) => s'.core.expiry == At(s.clock + cfg.timeout)
       case (HalfOpen, Closed) => true
       case (Open, HalfOpen) => s.core.expiry.At? && s.core.expiry.instant < s.clock
       case (Open, Closed) => s.log != [] && s.log[|s.log| - 1].ResetCall?
       case _ => false
  }

  lemma CoolingKept(cfg: Config, s: System, s': System)
    requires Cooling(cfg, s)
    requires Drifts(s, s') || Moves(cfg, s, s') || exists e :: Writes(cfg, s, s', e)
    ensures Cooling(cfg, s')
  {
    forall i | 0 <= i < |s'.log| && s'.log[i].Transition? && s'.log[i].to.Open? && Quiet(s'.log, i)
      ensures || (s'.core.state.Open? && s'.core.expiry == At(s'.log[i].at + cfg.timeout))
              || s'.clock > s'.log[i].at + cfg.timeout
    {
      if i < |s.log| {
        assert s'.log[i] == s.log[i];
        assert Quiet(s.log, i) by {
          assert forall k | i <= k < |s.log| :: s.log[k] == s'.log[k];
        }
      }
    }
  }

  lemma CooledDownKept(cfg: Config, s: System, s': System, e: Entry)
    requires Cooling(cfg, s) && CooledDown(cfg, s.log)
    requires Writes(cfg, s, s', e) || (Moves(cfg, s, s') && e == s'.log[|s.log|])
    ensures CooledDown(cfg, s'.log)
  {
    var log, log' := s.log, s'.log;
    forall i, j | 0 <= i < j < |log'| && log'[i].Transition? && log'[i].to.Open? && log'[j].Admission?
      ensures (exists k :: i < k < j && log'[k].ResetCall?) || log'[j].at > log'[i].at + cfg.timeout
    {
      assert log'[i] == log[i];
      if j < |log| {
        assert log'[j] == log[j];
        if k :| i < k < j && log[k].ResetCall? {
          assert log'[k].ResetCall?;
        }
      } else if !Quiet(log, i) {
        var k :| i <= k < |log| && log[k].ResetCall?;
        assert log'[k].ResetCall?;
      }
    }
  }

  lemma QuotasKept(cfg: Config, s: System, s': System, e: Entry)
    requires Quotas(cfg, s) && WithinQuota(cfg, s')
    requires Writes(cfg, s, s', e) || (Moves(cfg, s, s') && e == s'.log[|s.log|])
    ensures Quotas(cfg, s')
  {
    Append(s.log, e);
    forall i | 0 <= i < |s.log|
      ensures s'.log[i] == s.log[i]
    {
    }
  }

  lemma PathKept(cfg: Config, s: System, s': System, e: Entry)
    requires Pathed(s)
    requires Writes(cfg, s, s', e) || (Moves(cfg, s, s') && e == s'.log[|s.log|])
    ensures Pathed(s')
  {
    Append(s.log, e);
    if Moves(cfg, s, s') {
      var changes := s'.core.changes;
      assert changes[..|changes| - 1] == s.core.changes;
    }
    forall i | 0 <= i < |s'.log| && s'.log[i].Transition?
      ensures AllowedAt(s'.log, i)
    {
      if i < |s.log| {
        assert AllowedAt(s.log, i);
      }
    }
  }

  lemma TimelineDrifts(cfg: Config, s: System, s': System)
    requires Timeline(cfg, s) && Drifts(s, s')
    ensures Timeline(cfg, s')
  {
    CoolingKept(cfg, s, s');
  }

  lemma TimelineWrites(cfg: Config, s: System, s': System, e: Entry)
    requires Timeline(cfg, s) && Writes(cfg, s, s', e)
    ensures Timeline(cfg, s')
  {
    CoolingKept(cfg, s, s');
    CooledDownKept(cfg, s, s', e);
    QuotasKept(cfg, s, s', e);
    PathKept(cfg, s, s', e);
  }

  lemma TimelineMoves(cfg: Config, s: System, s': System)
    requires Timeline(cfg, s) && Moves(cfg, s, s')
    ensures Timeline(cfg, s')
  {
    CoolingKept(cfg, s, s');
    CooledDownKept(cfg, s, s', s'.log[|s.log|]);
    QuotasKept(cfg, s, s', s'.log[|s.log|]);
    PathKept(cfg, s, s', s'.log[|s.log|]);
  }

  lemma TimelineTick(cfg: Config, s: System, now: int)
    requires cfg.Valid() && Invariant(cfg, s) && Timeline(cfg, s) && s.clock <= now
    ensures Timeline(cfg, Tick(cfg, s, now))
  {
    var s' := Tick(cfg, s, now);
    TickInvariant(cfg, s, now);
    if s'.core.state == s.core.state {
      TimelineDrifts(cfg, s, s');
    } else {
      TimelineDrifts(cfg, s, s.(clock := now));
      TimelineMoves(cfg, s.(clock := now), s');
    }
  }

  lemma TimelineBefore(cfg: Config, s: System)
    requires cfg.Valid() && Invariant(cfg, s) && Timeline(cfg, s)
    ensures Timeline(cfg, if HasRoom(cfg, s.core) then Admit(s)
                          else s.(log := s.log + [Rejection(s.core.generation, s.clock)]))
  {
    if HasRoom(cfg, s.core) {
      AdmitInvariant(cfg, s);
      TimelineWrites(cfg, s, Admit(s), Admission(s.core.generation, s.clock));
    } else {
      RejectInvariant(cfg, s, s.clock);
      var e := Rejection(s.core.generation, s.clock);
      TimelineWrites(cfg, s, s.(log := s.log + [e]), e);
    }
  }

  lemma ScoredWrites(cfg: Config, s: System, ok: bool)
    requires cfg.Valid() && Invariant(cfg, s) && s.core.generation in s.inFlight
    ensures Writes(cfg, s, Scored(s, ok), Outcome(s.core.generation, ok))
  {
    ScoredLedger(s, ok);
  }

  lemma {:induction false} TimelineSettled(cfg: Config, s: System, ok: bool, s': System)
    requires Timeline(cfg, Scored(s, ok)) && StateFacts(cfg, s')
    requires s'.core == Settled(cfg, s.core, ok, s.clock) && s'.clock == s.clock
    requires s'.log == Noted(Scored(s, ok).log, s.core, s'.core, s.clock)
    ensures Timeline(cfg, s')
  {
    if s'.core.state != s.core.state {
      TimelineMoves(cfg, Scored(s, ok), s');
    } else {
      TimelineDrifts(cfg, Scored(s, ok), s');
    }
  }

  lemma TimelineFinish(cfg: Config, s: System, gen: nat, err: Err)
    requires cfg.Valid() && Invariant(cfg, s) && Timeline(cfg, s) && gen in s.inFlight
    ensures Timeline(cfg, Finish(cfg, s, gen, err))
  {
    var s' := Finish(cfg, s, gen, err);
    FinishInvariant(cfg, s, gen, err);
    if s.core.generation != gen {
      TimelineWrites(cfg, s, s', Late(gen));
    } else {
      var ok := cfg.isSuccessful(err);
      ScoredWrites(cfg, s, ok);
      TimelineWrites(cfg, s, Scored(s, ok), Outcome(gen, ok));
      TimelineSettled(cfg, s, ok, s');
    }
  }

  lemma TimelineReset(cfg: Config, s: System, now: int, now': int)
    requires cfg.Valid() && Invariant(cfg, s) && Timeline(cfg, s) && s.clock <= now <= now'
    ensures Timeline(cfg, ResetAll(cfg, s, now, now'))
  {
    var s' := ResetAll(cfg, s, now, now');
    ResetInvariant(cfg, s, now, now');
    QuietEntry(s.log, ResetCall(now));
    var written := s.(log := s.log + [ResetCall(now)]);
    TimelineWrites(cfg, s, written, ResetCall(now));
    var renewed := written.(core := Renewed(cfg, s.core, now), clock := now');
    TimelineDrifts(cfg, written, renewed);
    if s.core.state != Closed {
      TimelineMoves(cfg, renewed, s');
    }
  }

  lemma TimelineStep(cfg: Config, s: System, e: Event)
    requires cfg.Valid() && Invariant(cfg, s) && Timeline(cfg, s) && Possible(s, e)
    ensures Timeline(cfg, Step(cfg, s, e))
  {
    if e.Reset? {
      TimelineReset(cfg, s, e.now, e.now');
    } else {
      TickInvariant(cfg, s, e.now);
      TimelineTick(cfg, s, e.now);
      if e.Before? {
        TimelineBefore(cfg, Tick(cfg, s, e.now));
      } else if e.After? {
        TimelineFinish(cfg, Tick(cfg, s, e.now), e.gen, e.err);
      }
    }
  }

  lemma QuietAppend(log: Log, e: Entry)
    requires Quiet(log, 0) && !e.ResetCall?
    ensures Quiet(log + [e], 0)
  {
  }

  lemma QuietNoted(log: Log, before: Core, after: Core, now: int)
    requires Quiet(log, 0)
    ensures Quiet(Noted(log, before, after, now), 0)
  {
    QuietAppend(log, Transition(before.state, after.state, after.generation, now));
  }

  /** Only Reset logs a Reset. */
  lemma StaysQuiet(cfg: Config, s: System, e: Event)
    requires Quiet(s.log, 0) && !e.Reset?
    ensures Quiet(Step(cfg, s, e).log, 0)
  {
    hide Quiet, Noted, Ticked, CircuitBreaking.Settled, HasRoom;
    var t := Tick(cfg, s, e.now);
    QuietNoted(s.log, s.core, t.core, e.now);
    if e.Before? {
      QuietAppend(t.log, Admission(t.core.generation, t.clock));
      QuietAppend(t.log, Rejection(t.core.generation, e.now));
    } else if e.After? {
      var ok := cfg.isSuccessful(e.err);
      QuietAppend(t.log, Late(e.gen));
      QuietAppend(t.log, Outcome(e.gen, ok));
      QuietNoted(t.log + [Outcome(e.gen, ok)], t.core, CircuitBreaking.Settled(cfg, t.core, ok, t.clock), t.clock);
    }
  }

  // ----- Whole runs -----

  lemma {:induction false} RunAppend(cfg: Config, s: System, events: seq<Event>, e: Event)
    ensures Run(cfg, s, events + [e]) == Step(cfg, Run(cfg, s, events), e)
    ensures Legal(cfg, s, events + [e]) <==> Legal(cfg, s, events) && Possible(Run(cfg, s, events), e)
  {
    assert (events + [e])[..|events + [e]| - 1] == events;
  }

  lemma {:induction false} RunInvariant(cfg: Config, t0: int, events: seq<Event>)
    requires cfg.Valid() && Legal(cfg, Start(cfg, t0), events)
    ensures Invariant(cfg, Run(cfg, Start(cfg, t0), events))
  {
    if events == [] {
      StartInvariant(cfg, t0);
    } else {
      var before := events[..|events| - 1];
      RunInvariant(cfg, t0, before);
      StepInvariant(cfg, Run(cfg, Start(cfg, t0), before), events[|events| - 1]);
    }
  }

  lemma {:induction false} RunTimeline(cfg: Config, t0: int, events: seq<Event>)
    requires cfg.Valid() && Legal(cfg, Start(cfg, t0), events)
    ensures Timeline(cfg, Run(cfg, Start(cfg, t0), events))
  {
    if events == [] {
      StartInvariant(cfg, t0);
    } else {
      var before := events[..|events| - 1];
      RunInvariant(cfg, t0, before);
      RunTimeline(cfg, t0, before);
      TimelineStep(cfg, Run(cfg, Start(cfg, t0), before), events[|events| - 1]);
    }
  }

  lemma {:induction false} RunBearable(cfg: Config, t0: int, events: seq<Event>)
    requires cfg.Valid() && Legal(cfg, Start(cfg, t0), events) && UsesDefaultTrip(cfg)
    ensures Bearable(Run(cfg, Start(cfg, t0), events))
  {
    if events != [] {
      var before := events[..|events| - 1];
      RunInvariant(cfg, t0, before);
      RunBearable(cfg, t0, before);
      TripStep(cfg, Run(cfg, Start(cfg, t0), before), events[|events| - 1]);
    }
  }

  /** Conservation, for every interleaving and every generation: a request admitted in
      generation g is counted in g, ignored, or still running, and never two of these; no
      request runs in a generation yet to come, and none of the present one was ignored. */
  lemma {:induction false} Conservation(cfg: Config, t0: int, events: seq<Event>, g: nat)
    requires cfg.Valid() && Legal(cfg, Start(cfg, t0), events)
    ensures var s := Run(cfg, Start(cfg, t0), events);
            && Admissions(s.log, g) == |Outcomes(s.log, g)| + Ignored(s.log, g) + s.inFlight[g]
            && (g in s.inFlight ==> g <= s.core.generation)
            && Ignored(s.log, s.core.generation) == 0
  {
    RunInvariant(cfg, t0, events);
  }

  /** The five counters are the fold of the outcomes of the present generation and of the
      number of its requests still running. */
  lemma {:induction false} CountersAreHistory(cfg: Config, t0: int, events: seq<Event>)
    requires cfg.Valid() && Legal(cfg, Start(cfg, t0), events)
    ensures var s := Run(cfg, Start(cfg, t0), events);
            var g := s.core.generation;
            && Admissions(s.log, g) == |Outcomes(s.log, g)| + s.inFlight[g]
            && s.core.counts == CountsFor(Admissions(s.log, g), Outcomes(s.log, g))
  {
    RunInvariant(cfg, t0, events);
  }

  /** Below 2^32 requests: Requests = TotalSuccesses + TotalFailures + requests in flight,
      and the consecutive counters are the lengths of the last unbroken runs. */
  lemma {:induction false} CountersBelowWrap(cfg: Config, t0: int, events: seq<Event>)
    requires cfg.Valid() && Legal(cfg, Start(cfg, t0), events)
    requires var s := Run(cfg, Start(cfg, t0), events);
             Admissions(s.log, s.core.generation) < UINT32
    ensures var s := Run(cfg, Start(cfg, t0), events);
            Plain(s.core.counts, Now(s), s.inFlight[s.core.generation])
  {
    RunInvariant(cfg, t0, events);
    var s := Run(cfg, Start(cfg, t0), events);
    PlainCounts(s.core.counts, Admissions(s.log, s.core.generation), Now(s), s.inFlight[s.core.generation]);
  }

  /** A half-open breaker has seen no failure, admits at most maxRequests, and is never
      stuck: a slot is free or a request of this generation is still to report. */
  lemma {:induction false} HalfOpenSafety(cfg: Config, t0: int, events: seq<Event>)
    requires cfg.Valid() && Legal(cfg, Start(cfg, t0), events)
    ensures var s := Run(cfg, Start(cfg, t0), events);
            s.core.state.HalfOpen? ==>
              && s.core.counts.totalFailures == 0
              && s.core.counts.consecutiveSuccesses == s.core.counts.totalSuccesses < cfg.maxRequests
              && s.core.counts.requests == Admissions(s.log, s.core.generation) <= cfg.maxRequests
              && (HasRoom(cfg, s.core) || s.core.generation in s.inFlight)
  {
    RunInvariant(cfg, t0, events);
    var s := Run(cfg, Start(cfg, t0), events);
    if s.core.state.HalfOpen? {
      AllSuccesses(Now(s));
    }
  }

  /** Every report for a half-open generation leaves the state or uses up one of the
      maxRequests - totalSuccesses successes it can still wait for. */
  lemma {:induction false} HalfOpenProgress(cfg: Config, t0: int, events: seq<Event>, err: Err, now: int)
    requires cfg.Valid() && Legal(cfg, Start(cfg, t0), events)
    requires var s := Run(cfg, Start(cfg, t0), events);
             s.core.state.HalfOpen? && Possible(s, After(s.core.generation, err, now))
    ensures var s := Run(cfg, Start(cfg, t0), events);
            var s' := Step(cfg, s, After(s.core.generation, err, now));
            if !cfg.isSuccessful(err) then s'.core.state == Open
            else if s.core.counts.totalSuccesses + 1 == cfg.maxRequests then s'.core.state == Closed
            else s'.core.state == HalfOpen && s'.core.generation == s.core.generation &&
                 s'.core.counts.totalSuccesses == s.core.counts.totalSuccesses + 1 < cfg.maxRequests
  {
    HalfOpenSafety(cfg, t0, events);
  }

  /** Over a whole run, each half-open generation admits and counts at most maxRequests. */
  lemma {:induction false} HalfOpenQuota(cfg: Config, t0: int, events: seq<Event>, i: nat)
    requires cfg.Valid() && Legal(cfg, Start(cfg, t0), events)
    requires var log := Run(cfg, Start(cfg, t0), events).log;
             i < |log| && log[i].Transition? && log[i].to.HalfOpen?
    ensures var log := Run(cfg, Start(cfg, t0), events).log;
            Admissions(log, log[i].gen) <= cfg.maxRequests && |Outcomes(log, log[i].gen)| <= cfg.maxRequests
  {
    RunTimeline(cfg, t0, events);
  }

  /** With the default trip condition, a closed breaker never shows five failures at a rate
      of 3/5 or more, unless a single generation admits 2^32 requests. */
  lemma {:induction false} TripBound(cfg: Config, t0: int, events: seq<Event>)
    requires cfg.Valid() && Legal(cfg, Start(cfg, t0), events) && UsesDefaultTrip(cfg)
    ensures var s := Run(cfg, Start(cfg, t0), events);
            s.core.state.Closed? && Admissions(s.log, s.core.generation) < UINT32 ==>
              s.core.counts.totalFailures <= 4 || 5 * s.core.counts.totalFailures < 3 * s.core.counts.requests
  {
    RunInvariant(cfg, t0, events);
    RunBearable(cfg, t0, events);
    var s := Run(cfg, Start(cfg, t0), events);
    if Admissions(s.log, s.core.generation) < UINT32 {
      SmallCounts(Admissions(s.log, s.core.generation), Now(s));
    }
  }

  /** Cool-down over whole runs: once the breaker opened at time t, every later admission
      happens after t + timeout, unless Reset was called in between. */
  lemma {:induction false} CoolDown(cfg: Config, t0: int, events: seq<Event>, i: nat, j: nat)
    requires cfg.Valid() && Legal(cfg, Start(cfg, t0), events)
    requires var log := Run(cfg, Start(cfg, t0), events).log;
             i < j < |log| && log[i].Transition? && log[i].to.Open? && log[j].Admission?
    ensures var log := Run(cfg, Start(cfg, t0), events).log;
            (exists k :: i < k < j && log[k].ResetCall?) || log[j].at > log[i].at + cfg.timeout
  {
    RunTimeline(cfg, t0, events);
  }

  /** An open breaker counts nothing and waits for nobody. */
  lemma {:induction false} OpenIsIdle(cfg: Config, t0: int, events: seq<Event>)
    requires cfg.Valid() && Legal(cfg, Start(cfg, t0), events)
    ensures var s := Run(cfg, Start(cfg, t0), events);
            s.core.state.Open? ==> s.core.counts == ZERO_COUNTS && s.core.generation !in s.inFlight
  {
    RunInvariant(cfg, t0, events);
    var s := Run(cfg, Start(cfg, t0), events);
    if s.core.state.Open? {
      assert |Now(s)| == 0;
    }
  }

  /** The OnStateChange calls of a run are a path from closed to the present state, they are
      exactly the logged transitions, and each is one the design allows. */
  lemma {:induction false} CallbackPath(cfg: Config, t0: int, events: seq<Event>)
    requires cfg.Valid() && Legal(cfg, Start(cfg, t0), events)
    ensures var s := Run(cfg, Start(cfg, t0), events);
            && s.core.changes == Transitions(s.log)
            && IsPath(s.core.changes, Closed, s.core.state)
            && forall i | 0 <= i < |s.log| && s.log[i].Transition? :: AllowedAt(s.log, i)
  {
    RunTimeline(cfg, t0, events);
  }

  // ----- Late reports -----

  /** Is e a report for another generation than the one it meets? */
  predicate IsLate(cfg: Config, s: System, e: Event) {
    e.After? && Ticked(cfg, s.core, e.now).generation != e.gen
  }

  /** The same run with State() called in place of every late report. */
  function WithoutLate(cfg: Config, s: System, events: seq<Event>): seq<Event> {
    if events == [] then []
    else
      var before, e := events[..|events| - 1], events[|events| - 1];
      WithoutLate(cfg, s, before) + [if IsLate(cfg, Run(cfg, s, before), e) then Observe(e.now) else e]
  }

  /** The breakers of s and s' are the same, and s' waits for at least as many requests. */
  predicate SameBreaker(s: System, s': System) {
    s'.core == s.core && s'.clock == s.clock && s.inFlight <= s'.inFlight
  }

  lemma SameBreakerStep(cfg: Config, s: System, s': System, e: Event)
    requires SameBreaker(s, s') && Possible(s, e)
    ensures var e' := if IsLate(cfg, s, e) then Observe(e.now) else e;
            Possible(s', e') && SameBreaker(Step(cfg, s, e), Step(cfg, s', e'))
  {
  }

  /** Late reports do nothing that looking at the breaker would not do: any run, with all of
      them replaced by calls of State(), is again a run and leaves the breaker in the same state,
      callback calls included. */
  lemma {:induction false} LateReportsAreLooks(cfg: Config, s: System, events: seq<Event>)
    requires Legal(cfg, s, events)
    ensures Legal(cfg, s, WithoutLate(cfg, s, events))
    ensures SameBreaker(Run(cfg, s, events), Run(cfg, s, WithoutLate(cfg, s, events)))
  {
    if events != [] {
      var before, e := events[..|events| - 1], events[|events| - 1];
      LateReportsAreLooks(cfg, s, before);
      hide Step, Possible, SameBreaker, IsLate;
      var x, y := Run(cfg, s, before), Run(cfg, s, WithoutLate(cfg, s, before));
      SameBreakerStep(cfg, x, y, e);
      RunAppend(cfg, s, WithoutLate(cfg, s, before), if IsLate(cfg, x, e) then Observe(e.now) else e);
    }
  }

  // ----- Many requests at one instant -----

  /** Generation 0, all at time t0, `admitted` requests let in and `failures` failed. */
  predicate Flooded(s: System, t0: int, admitted: nat, failures: nat) {
    && s.core.state.Closed? && s.core.generation == 0 && s.clock == t0
    && s.core.expiry.At? && s.core.expiry.instant >= t0
    && s.core.counts.requests == Wrap(admitted) && s.core.counts.totalFailures == failures
    && s.inFlight[0] + failures == admitted == Admissions(s.log, 0)
  }

  lemma FloodAdmission(cfg: Config, s: System, t0: int, admitted: nat, failures: nat)
    requires Flooded(s, t0, admitted, failures)
    ensures Possible(s, Before(t0)) && Flooded(Step(cfg, s, Before(t0)), t0, admitted + 1, failures)
  {
    IncWrap(admitted);
    Append(s.log, Admission(0, t0));
  }

  /** With fewer than five requests on the counter a failure does not trip the breaker. */
  lemma FloodFailure(cfg: Config, s: System, err: Err, t0: int, admitted: nat, failures: nat)
    requires UsesDefaultTrip(cfg) && !cfg.isSuccessful(err)
    requires Flooded(s, t0, admitted, failures) && Wrap(admitted) < 5 && failures < admitted && failures + 1 < UINT32
    ensures Possible(s, After(0, err, t0))
    ensures Flooded(Step(cfg, s, After(0, err, t0)), t0, admitted, failures + 1)
  {
    Append(s.log, Outcome(0, false));
  }

  /** `more` further requests, all at time t0. */
  lemma Flood(cfg: Config, t0: int, start: seq<Event>, admitted: nat, failures: nat, more: nat)
    returns (events: seq<Event>)
    requires Legal(cfg, Start(cfg, t0), start) && Flooded(Run(cfg, Start(cfg, t0), start), t0, admitted, failures)
    ensures Legal(cfg, Start(cfg, t0), events)
    ensures Flooded(Run(cfg, Start(cfg, t0), events), t0, admitted + more, failures)
  {
    hide Flooded, Step, Possible;
    events := start;
    for k := 0 to more
      invariant Legal(cfg, Start(cfg, t0), events)
      invariant Flooded(Run(cfg, Start(cfg, t0), events), t0, admitted + k, failures)
    {
      FloodAdmission(cfg, Run(cfg, Start(cfg, t0), events), t0, admitted + k, failures);
      RunAppend(cfg, Start(cfg, t0), events, Before(t0));
      events := events + [Before(t0)];
    }
  }

  /** `first` requests, then `failures` of them failing, then `rest` requests, all at time t0. */
  lemma FloodAndFail(cfg: Config, err: Err, t0: int, first: nat, failures: nat, rest: nat)
    returns (events: seq<Event>)
    requires cfg.interval >= 0 && UsesDefaultTrip(cfg) && !cfg.isSuccessful(err)
    requires Wrap(first) < 5 && failures <= first && failures < UINT32
    ensures Legal(cfg, Start(cfg, t0), events)
    ensures Flooded(Run(cfg, Start(cfg, t0), events), t0, first + rest, failures)
  {
    events := Flood(cfg, t0, [], 0, 0, first);
    hide Flooded, Step, Possible;
    for failed := 0 to failures
      invariant Legal(cfg, Start(cfg, t0), events)
      invariant Flooded(Run(cfg, Start(cfg, t0), events), t0, first, failed)
    {
      FloodFailure(cfg, Run(cfg, Start(cfg, t0), events), err, t0, first, failed);
      RunAppend(cfg, Start(cfg, t0), events, After(0, err, t0));
      events := events + [After(0, err, t0)];
    }
    events := Flood(cfg, t0, events, first, failures, rest);
  }

  // ----- When no failure is ever counted in a closed period -----

  /** A closed breaker shows no failure, and with a negative interval its period is over. */
  predicate Spotless(cfg: Config, s: System) {
    s.core.state.Closed? ==>
      && s.core.counts.totalFailures == 0
      && (cfg.interval < 0 ==> s.core.expiry.At? && s.core.expiry.instant < s.clock)
  }

  ghost predicate CountsFailures(cfg: Config) {
    cfg.interval >= 0 && exists err :: !cfg.isSuccessful(err)
  }

  /** With a negative interval, looking at a closed breaker starts a new generation. */
  lemma SpotlessTick(cfg: Config, s: System, now: int)
    requires Spotless(cfg, s) && s.clock <= now
    ensures Spotless(cfg, Tick(cfg, s, now))
    ensures cfg.interval < 0 && Tick(cfg, s, now).core.state.Closed? ==>
              Tick(cfg, s, now).core.generation > s.core.generation
  {
  }

  lemma SpotlessStep(cfg: Config, s: System, e: Event)
    requires cfg.Valid() && !CountsFailures(cfg)
    requires Ledger(s) && Spotless(cfg, s) && Possible(s, e)
    ensures Spotless(cfg, Step(cfg, s, e))
  {
    hide Admissions, Outcomes, Ignored, Ticked;
    if e.After? {
      assert s.inFlight[e.gen] > 0;
      assert e.gen <= s.core.generation;
    }
    if !e.Reset? {
      SpotlessTick(cfg, s, e.now);
    }
  }

  lemma {:induction false} RunSpotless(cfg: Config, t0: int, events: seq<Event>)
    requires cfg.Valid() && !CountsFailures(cfg) && Legal(cfg, Start(cfg, t0), events)
    ensures Spotless(cfg, Run(cfg, Start(cfg, t0), events))
  {
    if events != [] {
      var before := events[..|events| - 1];
      RunSpotless(cfg, t0, before);
      RunInvariant(cfg, t0, before);
      SpotlessStep(cfg, Run(cfg, Start(cfg, t0), before), events[|events| - 1]);
    }
  }

  // ----- Exactly when the trip bound fails, and which closed states are ready to trip -----

  /** Closed with n requests admitted in the present generation. */
  predicate ClosedWith(s: System, n: nat) {
    s.core.state.Closed? && Admissions(s.log, s.core.generation) == n
  }

  predicate BeyondBound(c: Counts) {
    c.totalFailures > 4 && 5 * c.totalFailures >= 3 * c.requests
  }

  /** Closed below 2^32 requests, and yet ready to trip with these counts. */
  predicate ReadyAt(s: System, requests: nat, failures: nat) {
    && s.core.state.Closed? && Admissions(s.log, s.core.generation) < UINT32
    && DefaultReadyToTrip(s.core.counts)
    && s.core.counts.requests == requests && s.core.counts.totalFailures == failures
  }

  lemma {:induction false} LargestMultiple(n: nat) returns (m: nat)
    ensures n == m + Wrap(n) && Wrap(m) == 0
    ensures n >= UINT32 ==> m >= UINT32
  {
    if n < UINT32 {
      m := 0;
    } else {
      m := LargestMultiple(n - UINT32);
      m := m + UINT32;
    }
  }

  ghost predicate Breaks(cfg: Config, t0: int, n: nat, events: seq<Event>) {
    && Legal(cfg, Start(cfg, t0), events)
    && ClosedWith(Run(cfg, Start(cfg, t0), events), n)
    && BeyondBound(Run(cfg, Start(cfg, t0), events).core.counts)
  }

  /** All requests up to a multiple of 2^32, enough failures, then the rest of the requests. */
  lemma {:induction false} BreakingRun(cfg: Config, err: Err, t0: int, n: nat) returns (events: seq<Event>)
    requires cfg.interval >= 0 && UsesDefaultTrip(cfg) && !cfg.isSuccessful(err) && n >= UINT32
    ensures Breaks(cfg, t0, n, events)
  {
    hide Run, Legal, Wrap, Admissions;
    var m := LargestMultiple(n);
    events := FloodAndFail(cfg, err, t0, m, if Wrap(n) < 5 then 5 else Wrap(n), n - m);
  }

  lemma {:induction false} NothingBreaks(cfg: Config, t0: int, n: nat, events: seq<Event>)
    requires cfg.Valid() && UsesDefaultTrip(cfg) && Breaks(cfg, t0, n, events)
    ensures CountsFailures(cfg) && n >= UINT32
  {
    TripBound(cfg, t0, events);
    if !CountsFailures(cfg) {
      RunSpotless(cfg, t0, events);
    }
  }

  /** The condition of TripBound is exact: a run reaches a closed state beyond the bound with n
      requests admitted in its generation if and only if a closed period can count a failure at
      all and n is at least 2^32, so that the request counter has wrapped around. */
  lemma {:induction false} WrapAroundBreaksTripBound(cfg: Config, t0: int, n: nat)
    requires cfg.Valid() && UsesDefaultTrip(cfg)
    ensures (exists events :: Breaks(cfg, t0, n, events)) <==> CountsFailures(cfg) && n >= UINT32
  {
    hide Breaks;
    if CountsFailures(cfg) && n >= UINT32 {
      var err :| !cfg.isSuccessful(err);
      var events := BreakingRun(cfg, err, t0, n);
    } else if events :| Breaks(cfg, t0, n, events) {
      NothingBreaks(cfg, t0, n, events);
    }
  }

  lemma ReadyWithinBound(c: Counts)
    requires c.totalFailures <= 4 || 5 * c.totalFailures < 3 * c.requests
    ensures DefaultReadyToTrip(c) <==> (c.requests, c.totalFailures) in {(5, 3), (5, 4), (6, 4)}
  {
    DefaultTripMeaning(c);
  }

  /** A closed breaker is ready only with 5 requests and 3 or 4 failures, or with 6 and 4. */
  lemma {:induction false} ReadyWhileClosed(cfg: Config, t0: int, events: seq<Event>)
    requires cfg.Valid() && Legal(cfg, Start(cfg, t0), events) && UsesDefaultTrip(cfg)
    requires var s := Run(cfg, Start(cfg, t0), events);
             s.core.state.Closed? && Admissions(s.log, s.core.generation) < UINT32
    ensures var c := Run(cfg, Start(cfg, t0), events).core.counts;
            DefaultReadyToTrip(c) <==> (c.requests, c.totalFailures) in {(5, 3), (5, 4), (6, 4)}
  {
    TripBound(cfg, t0, events);
    hide Run, Legal, Admissions;
    ReadyWithinBound(Run(cfg, Start(cfg, t0), events).core.counts);
  }

  /** A closed breaker may be ready to trip, because only a failure asks.  Below 2^32 requests the
      three pairs of counts are all reached, if a closed period can count a failure at all: up to
      four failures of four requests, then one or two more admissions. */
  lemma {:induction false} ClosedYetReady(cfg: Config, t0: int, requests: nat, failures: nat)
    requires cfg.Valid() && UsesDefaultTrip(cfg)
    ensures (exists events :: Legal(cfg, Start(cfg, t0), events) &&
                              ReadyAt(Run(cfg, Start(cfg, t0), events), requests, failures)) <==>
            CountsFailures(cfg) && (requests, failures) in {(5, 3), (5, 4), (6, 4)}
  {
    if CountsFailures(cfg) && (requests, failures) in {(5, 3), (5, 4), (6, 4)} {
      var err :| !cfg.isSuccessful(err);
      var events := FloodAndFail(cfg, err, t0, 4, failures, requests - 4);
      hide Run, Legal;
      var s := Run(cfg, Start(cfg, t0), events);
      DefaultTripMeaning(s.core.counts);
      assert ReadyAt(s, requests, failures);
    } else if events :| Legal(cfg, Start(cfg, t0), events) &&
                        ReadyAt(Run(cfg, Start(cfg, t0), events), requests, failures) {
      ReadyWhileClosed(cfg, t0, events);
      if !CountsFailures(cfg) {
        RunSpotless(cfg, t0, events);
      }
    }
  }
}
