/** What each operation does in every reachable state, told from the log and from the moment the
    present generation began, without the functions that compute it. */
module BreakerExact {
  import opened Common
  import opened CircuitBreaking
  import opened BreakerProtocol

  /** The last transition of a log. */
  function LastChange(log: Log): (e: Option<Entry>)
    ensures e.Some? ==> e.value.Transition?
  {
    if log == [] then None
    else if log[|log| - 1].Transition? then Some(log[|log| - 1])
    else LastChange(log[..|log| - 1])
  }

  lemma {:induction false} LastChangeAppend(log: Log, e: Entry)
    ensures LastChange(log + [e]) == if e.Transition? then Some(e) else LastChange(log)
  {
    assert (log + [e])[..|log|] == log;
  }

  // ----- Deadlines and the last transition, in every run -----

  /** A closed period ends one interval, an open one the timeout after the generation began, a
      half-open one never by itself; and the last transition led to the present state. */
  predicate Punctual(cfg: Config, s: System) {
    && s.began <= s.clock
    && s.core.expiry == (match s.core.state
                         case Closed => At(s.began + cfg.interval)
                         case Open => At(s.began + cfg.timeout)
                         case HalfOpen => Unset)
    && match LastChange(s.log)
       case None => s.core.state.Closed?
       case Some(e) => e.to == s.core.state && (!s.core.state.Closed? ==> e.at == s.began)
  }

  lemma NotedChange(log: Log, before: Core, after: Core, now: int)
    ensures LastChange(Noted(log, before, after, now)) ==
            if before.state == after.state then LastChange(log)
            else Some(Transition(before.state, after.state, after.generation, now))
  {
    LastChangeAppend(log, Transition(before.state, after.state, after.generation, now));
  }

  lemma PunctualTick(cfg: Config, s: System, now: int)
    requires cfg.Valid() && Punctual(cfg, s) && s.clock <= now
    ensures Punctual(cfg, Tick(cfg, s, now))
  {
    NotedChange(s.log, s.core, Ticked(cfg, s.core, now), now);
    hide LastChange, Noted;
  }

  lemma PunctualFinish(cfg: Config, s: System, gen: nat, err: Err)
    requires cfg.Valid() && Punctual(cfg, s)
    ensures Punctual(cfg, Finish(cfg, s, gen, err))
  {
    var ok := cfg.isSuccessful(err);
    LastChangeAppend(s.log, Late(gen));
    LastChangeAppend(s.log, Outcome(gen, ok));
    NotedChange(s.log + [Outcome(gen, ok)], s.core, Settled(cfg, s.core, ok, s.clock), s.clock);
    hide LastChange, Noted;
  }

  lemma PunctualReset(cfg: Config, s: System, now: int, now': int)
    requires cfg.Valid() && Punctual(cfg, s) && s.clock <= now <= now'
    ensures Punctual(cfg, ResetAll(cfg, s, now, now'))
  {
    LastChangeAppend(s.log, ResetCall(now));
    NotedChange(s.log + [ResetCall(now)], s.core, AfterReset(cfg, s.core, now, now'), now');
    hide LastChange, Noted;
  }

  lemma PunctualBefore(cfg: Config, s: System, now: int)
    requires Punctual(cfg, s)
    ensures Punctual(cfg, Admit(s))
    ensures Punctual(cfg, s.(log := s.log + [Rejection(s.core.generation, now)]))
  {
    LastChangeAppend(s.log, Admission(s.core.generation, s.clock));
    LastChangeAppend(s.log, Rejection(s.core.generation, now));
    hide LastChange;
  }

  lemma {:induction false} PunctualStep(cfg: Config, s: System, e: Event)
    requires cfg.Valid() && Punctual(cfg, s) && Possible(s, e)
    ensures Punctual(cfg, Step(cfg, s, e))
  {
    if e.Reset? {
      PunctualReset(cfg, s, e.now, e.now');
    } else {
      PunctualTick(cfg, s, e.now);
      var t := Tick(cfg, s, e.now);
      hide Punctual, Tick, Ticked, ResetAll;
      if e.Before? {
        PunctualBefore(cfg, t, e.now);
      } else if e.After? {
        PunctualFinish(cfg, t, e.gen, e.err);
      }
    }
  }

  lemma {:induction false} RunPunctual(cfg: Config, t0: int, events: seq<Event>)
    requires cfg.Valid() && Legal(cfg, Start(cfg, t0), events)
    ensures Punctual(cfg, Run(cfg, Start(cfg, t0), events))
  {
    if events != [] {
      var before := events[..|events| - 1];
      RunPunctual(cfg, t0, before);
      hide Punctual, Step;
      PunctualStep(cfg, Run(cfg, Start(cfg, t0), before), events[|events| - 1]);
    }
  }

  // ----- Looking -----

  /** Time alone: a closed generation is replaced by a new one after more than one interval, an
      open breaker becomes half-open after more than the timeout since it opened, and nothing
      else ever happens by itself. */
  lemma {:induction false} LookExactly(cfg: Config, t0: int, events: seq<Event>, now: int)
    requires cfg.Valid() && Legal(cfg, Start(cfg, t0), events)
    requires now >= Run(cfg, Start(cfg, t0), events).clock
    ensures var s := Run(cfg, Start(cfg, t0), events);
            var s', c := Step(cfg, s, Observe(now)), s.core;
            match c.state
            case Closed =>
              && s'.core.state == Closed && s'.core.changes == c.changes
              && (now <= s.began + cfg.interval ==> s'.core == c)
              && (now > s.began + cfg.interval ==>
                    s'.core.generation == c.generation + 1 && s'.core.counts == ZERO_COUNTS && s'.began == now)
            case Open =>
              && LastChange(s.log).Some?
              && (now <= LastChange(s.log).value.at + cfg.timeout ==> s'.core == c)
              && (now > LastChange(s.log).value.at + cfg.timeout ==>
                    s'.core.state == HalfOpen && s'.core.changes == c.changes + [Change(Open, HalfOpen)] &&
                    s'.core.generation == c.generation + 1 && s'.core.counts == ZERO_COUNTS)
            case HalfOpen => s'.core == c
  {
    RunPunctual(cfg, t0, events);
    hide Run, Legal;
  }

  // ----- Admission -----

  /** Does this step write an admission? */
  predicate Admits(cfg: Config, s: System, now: int) {
    var log := Step(cfg, s, Before(now)).log;
    log != [] && log[|log| - 1].Admission?
  }

  lemma WritesLast(cfg: Config, s: System, now: int)
    ensures Admits(cfg, s, now) == HasRoom(cfg, Tick(cfg, s, now).core)
    ensures Step(cfg, s, Before(now)).core ==
            if Admits(cfg, s, now) then Admitted(Tick(cfg, s, now).core) else Tick(cfg, s, now).core
  {
    hide Tick, HasRoom;
  }

  /** While half-open the request counter has not wrapped around. */
  lemma HalfOpenRequests(cfg: Config, s: System)
    requires cfg.Valid() && Invariant(cfg, s)
    ensures s.core.state.HalfOpen? ==> s.core.counts.requests == Admissions(s.log, s.core.generation)
  {
    hide Admissions, Outcomes, Ignored;
  }

  /** In every reachable state, exactly when the next request is admitted: always while closed;
      while half-open, if fewer than maxRequests were admitted in this generation; while open, if
      more than the timeout has passed since the breaker opened, and then it becomes half-open. */
  lemma {:induction false} AdmissionExactly(cfg: Config, t0: int, events: seq<Event>, now: int)
    requires cfg.Valid() && Legal(cfg, Start(cfg, t0), events)
    requires now >= Run(cfg, Start(cfg, t0), events).clock
    ensures var s := Run(cfg, Start(cfg, t0), events);
            var s' := Step(cfg, s, Before(now));
            match s.core.state
            case Closed => Admits(cfg, s, now) && s'.core.state == Closed
            case HalfOpen =>
              && s'.core.state == HalfOpen && s'.core.generation == s.core.generation
              && (Admits(cfg, s, now) <==> Admissions(s.log, s.core.generation) < cfg.maxRequests)
            case Open =>
              && LastChange(s.log).Some? && LastChange(s.log).value.to == Open
              && (Admits(cfg, s, now) <==> now > LastChange(s.log).value.at + cfg.timeout)
              && (Admits(cfg, s, now) ==>
                    s'.core.state == HalfOpen && s'.core.changes == s.core.changes + [Change(Open, HalfOpen)])
              && (!Admits(cfg, s, now) ==> s'.core == s.core)
  {
    RunPunctual(cfg, t0, events);
    RunInvariant(cfg, t0, events);
    var s := Run(cfg, Start(cfg, t0), events);
    WritesLast(cfg, s, now);
    hide Run, Legal, Step, Admits;
    HalfOpenRequests(cfg, s);
    hide Admissions, Outcomes, Ignored, LastChange;
  }

  // ----- Reports -----

  /** The same for any state whose period is not over. */
  lemma ClosedSettled(cfg: Config, s: System, err: Err, now: int)
    requires s.core.state.Closed? && s.core.expiry.At? && now <= s.core.expiry.instant
    ensures var c, ok := s.core, cfg.isSuccessful(err);
            var counts := if ok then c.counts.OnSuccess() else c.counts.OnFailure();
            Step(cfg, s, After(c.generation, err, now)).core ==
            if !ok && cfg.readyToTrip(counts)
            then Core(Open, c.generation + 1, ZERO_COUNTS, At(now + cfg.timeout), c.changes + [Change(Closed, Open)])
            else c.(counts := counts)
  {
  }

  /** A report for the present generation of a closed breaker: a success leaves it closed; a
      failure opens it exactly if ReadyToTrip says so for the counters with this failure. */
  lemma {:induction false} ClosedReport(cfg: Config, t0: int, events: seq<Event>, err: Err, now: int)
    requires cfg.Valid() && Legal(cfg, Start(cfg, t0), events)
    requires var s := Run(cfg, Start(cfg, t0), events);
             && s.core.state.Closed? && Possible(s, After(s.core.generation, err, now))
             && now <= s.began + cfg.interval
    ensures var s := Run(cfg, Start(cfg, t0), events);
            var s', g := Step(cfg, s, After(s.core.generation, err, now)), s.core.generation;
            var counts := CountsFor(Admissions(s.log, g), Outcomes(s.log, g) + [cfg.isSuccessful(err)]);
            if !cfg.isSuccessful(err) && cfg.readyToTrip(counts)
            then s'.core == Core(Open, g + 1, ZERO_COUNTS, At(now + cfg.timeout),
                                 s.core.changes + [Change(Closed, Open)])
            else s'.core == s.core.(counts := counts)
  {
    RunPunctual(cfg, t0, events);
    RunInvariant(cfg, t0, events);
    var s := Run(cfg, Start(cfg, t0), events);
    CountOutcome(Admissions(s.log, s.core.generation), Now(s), cfg.isSuccessful(err));
    ClosedSettled(cfg, s, err, now);
    hide Run, Legal, Step, Admissions, Outcomes, Ignored, CountsFor, LastChange, Ledger;
  }

  // ----- Reset -----

  /** After Reset the breaker is closed in a generation of its own: nothing counted, nothing
      admitted or in flight in it, one callback exactly if it was not closed. */
  lemma {:induction false} ResetExactly(cfg: Config, t0: int, events: seq<Event>, now: int, now': int)
    requires cfg.Valid() && Legal(cfg, Start(cfg, t0), events)
    requires Run(cfg, Start(cfg, t0), events).clock <= now <= now'
    ensures var s := Run(cfg, Start(cfg, t0), events);
            var s' := Step(cfg, s, Reset(now, now'));
            && s'.core.state == Closed && s'.core.counts == ZERO_COUNTS
            && s'.core.generation > s.core.generation && s'.inFlight == s.inFlight
            && s'.core.generation !in s'.inFlight && Admissions(s'.log, s'.core.generation) == 0
            && s'.core.expiry == At((if s.core.state.Closed? then now else now') + cfg.interval)
            && s'.core.changes ==
               s.core.changes + if s.core.state.Closed? then [] else [Change(s.core.state, Closed)]
  {
    hide Run, Legal, Admissions, Outcomes, Ignored;
    RunInvariant(cfg, t0, events);
    var s := Run(cfg, Start(cfg, t0), events);
    ResetInvariant(cfg, s, now, now');
    QuietEntry(s.log, ResetCall(now));
    NotedKeepsRequests(s.log + [ResetCall(now)], s.core, ResetAll(cfg, s, now, now').core, now');
  }
}
