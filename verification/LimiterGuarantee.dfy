/** What a whole run of limiter operations guarantees. */
module LimiterGuarantee {
  import opened Common
  import opened TokenBucket

  // ----- Runs -----

  /** The bucket on which operation k of the run acts. */
  function At(b: Bucket, ops: seq<Op>, k: nat): Bucket
    requires k <= |ops|
  {
    Perform(b, ops[..k])
  }

  lemma {:induction false} AtStep(b: Bucket, ops: seq<Op>, k: nat)
    requires k < |ops|
    ensures At(b, ops, k + 1) == Apply(At(b, ops, k), ops[k])
  {
    assert ops[..k + 1] == ops[..k] + [ops[k]];
    PerformAppend(b, ops[..k], ops[k]);
  }

  predicate Granted(b: Bucket, ops: seq<Op>, k: nat)
    requires k < |ops|
  {
    ops[k].Request? && Refilled(At(b, ops, k), ops[k].now).tokens >= 1.0
  }

  /** Requests granted among operations j, ..., k-1. */
  function Grants(b: Bucket, ops: seq<Op>, j: nat, k: nat): nat
    requires j <= k <= |ops|
    decreases k
  {
    if j == k then 0 else Grants(b, ops, j, k - 1) + if Granted(b, ops, k - 1) then 1 else 0
  }

  lemma {:induction false} GrantsSplit(b: Bucket, ops: seq<Op>, j: nat, k: nat)
    requires j <= k <= |ops|
    ensures Grants(b, ops, 0, k) == Grants(b, ops, 0, j) + Grants(b, ops, j, k)
  {
    if j < k {
      GrantsSplit(b, ops, j, k - 1);
    }
  }

  /** Only Allow, Stats and Reserve: the rate stays and the clock is never restarted. */
  predicate Steady(ops: seq<Op>) {
    forall i | 0 <= i < |ops| :: ops[i].Request? || ops[i].Look?
  }

  /** Clock readings do not decrease. */
  predicate Ordered(b: Bucket, ops: seq<Op>) {
    ops == [] ||
    (Ordered(b, ops[..|ops| - 1]) &&
     (!ops[|ops| - 1].SetRate? ==> Perform(b, ops[..|ops| - 1]).lastRefill <= ops[|ops| - 1].now))
  }

  lemma {:induction false} OrderedAt(b: Bucket, ops: seq<Op>, k: nat)
    requires Ordered(b, ops) && k < |ops|
    ensures Ordered(b, ops[..k])
    ensures !ops[k].SetRate? ==> At(b, ops, k).lastRefill <= ops[k].now
  {
    var before := ops[..|ops| - 1];
    if k < |ops| - 1 {
      OrderedAt(b, before, k);
      assert before[..k] == ops[..k];
    }
  }

  // ----- Inflow is linear in time -----

  lemma InflowAdds(rate: real, x: int, y: int)
    ensures Inflow(rate, x + y) == Inflow(rate, x) + Inflow(rate, y)
    ensures Inflow(rate, 0) == 0.0
  {
  }

  lemma InflowMonotone(low: real, high: real, x: int, y: int)
    requires low <= high && 0.0 <= high && 0 <= x <= y
    ensures Inflow(low, x) <= Inflow(high, y)
  {
    var p, q := x as real / 1_000_000_000.0, y as real / 1_000_000_000.0;
    assert 0.0 <= p <= q;
    assert (high - low) * p >= 0.0;
    assert high * (q - p) >= 0.0;
  }

  // ----- Statistics -----

  function Requests(ops: seq<Op>): nat {
    if ops == [] then 0 else Requests(ops[..|ops| - 1]) + if ops[|ops| - 1].Request? then 1 else 0
  }

  /** Without Reset the statistics are the grants and the refusals of the run. */
  lemma {:induction false} StatisticsCount(b: Bucket, ops: seq<Op>, k: nat)
    requires k <= |ops| && forall i | 0 <= i < |ops| :: !ops[i].Reset?
    ensures At(b, ops, k).allowed == b.allowed + Grants(b, ops, 0, k)
    ensures At(b, ops, k).allowed + At(b, ops, k).rejected == b.allowed + b.rejected + Requests(ops[..k])
  {
    if k > 0 {
      StatisticsCount(b, ops, k - 1);
      AtStep(b, ops, k - 1);
      assert ops[..k][..k - 1] == ops[..k - 1];
    }
  }

  // ----- The exact envelope -----

  /** The room the (burst, rate) envelope leaves at operation k for the window opened at j. */
  function Room(b: Bucket, ops: seq<Op>, j: nat, k: nat): real
    requires j <= k < |ops| && Steady(ops)
  {
    b.maxTokens + Inflow(b.refillRate, ops[k].now - ops[j].now) - Grants(b, ops, j, k) as real
  }

  /** The room left by what the bucket held at the start of the run. */
  function InitialRoom(b: Bucket, ops: seq<Op>, k: nat): real
    requires k < |ops| && Steady(ops)
  {
    b.tokens + Inflow(b.refillRate, ops[k].now - b.lastRefill) - Grants(b, ops, 0, k) as real
  }

  function Level(b: Bucket, ops: seq<Op>, k: nat): real
    requires k < |ops| && Steady(ops)
  {
    Refilled(At(b, ops, k), ops[k].now).tokens
  }

  lemma {:induction false} SteadyAt(b: Bucket, ops: seq<Op>, k: nat)
    requires Steady(ops) && k <= |ops|
    ensures At(b, ops, k).maxTokens == b.maxTokens && At(b, ops, k).refillRate == b.refillRate
    ensures k > 0 ==> At(b, ops, k).lastRefill == ops[k - 1].now
    ensures k > 0 ==> At(b, ops, k).tokens ==
                      Level(b, ops, k - 1) - if Granted(b, ops, k - 1) then 1.0 else 0.0
  {
    if k > 0 {
      SteadyAt(b, ops, k - 1);
      AtStep(b, ops, k - 1);
    }
  }

  /** Both the level before the cap and every room change alike from one operation to the next. */
  lemma {:induction false} RoomStep(b: Bucket, ops: seq<Op>, k: nat)
    requires Steady(ops) && 0 < k < |ops|
    ensures var change := Inflow(b.refillRate, ops[k].now - ops[k - 1].now) -
                          (if Granted(b, ops, k - 1) then 1.0 else 0.0);
            && Level(b, ops, k) == Min(Level(b, ops, k - 1) + change, b.maxTokens)
            && InitialRoom(b, ops, k) == InitialRoom(b, ops, k - 1) + change
            && forall j | 0 <= j < k :: Room(b, ops, j, k) == Room(b, ops, j, k - 1) + change
  {
    SteadyAt(b, ops, k);
    InflowAdds(b.refillRate, ops[k - 1].now - b.lastRefill, ops[k].now - ops[k - 1].now);
    forall j | 0 <= j < k
      ensures Room(b, ops, j, k) == Room(b, ops, j, k - 1) +
                Inflow(b.refillRate, ops[k].now - ops[k - 1].now) -
                (if Granted(b, ops, k - 1) then 1.0 else 0.0)
    {
      InflowAdds(b.refillRate, ops[k - 1].now - ops[j].now, ops[k].now - ops[k - 1].now);
    }
  }

  /** The lazily refilled level is the least of all the rooms. */
  lemma {:induction false} LevelIsLeastRoom(b: Bucket, ops: seq<Op>, k: nat)
    requires Steady(ops) && k < |ops|
    ensures Level(b, ops, k) <= InitialRoom(b, ops, k)
    ensures forall j | 0 <= j <= k :: Level(b, ops, k) <= Room(b, ops, j, k)
    ensures Level(b, ops, k) == InitialRoom(b, ops, k) ||
            exists j :: 0 <= j <= k && Level(b, ops, k) == Room(b, ops, j, k)
  {
    SteadyAt(b, ops, k);
    assert Room(b, ops, k, k) == b.maxTokens;
    if k > 0 {
      LevelIsLeastRoom(b, ops, k - 1);
      RoomStep(b, ops, k);
      if Level(b, ops, k - 1) != InitialRoom(b, ops, k - 1) {
        var j :| 0 <= j <= k - 1 && Level(b, ops, k - 1) == Room(b, ops, j, k - 1);
        assert Level(b, ops, k) == b.maxTokens || Level(b, ops, k) == Room(b, ops, j, k);
      }
    }
  }

  /** Allow admits exactly when every past window, and what the bucket held at first, leave
      room for one more request: nothing passes against the envelope and nothing is refused
      needlessly.  No assumption on the clock or on the sign of the rate. */
  lemma ExactEnvelope(b: Bucket, ops: seq<Op>, k: nat)
    requires Steady(ops) && k < |ops| && ops[k].Request?
    ensures Granted(b, ops, k) <==>
            InitialRoom(b, ops, k) >= 1.0 && forall j | 0 <= j <= k :: Room(b, ops, j, k) >= 1.0
  {
    LevelIsLeastRoom(b, ops, k);
  }

  /** The windows alone decide on a bucket that is full at first. */
  lemma {:induction false} EnvelopeOfFull(b: Bucket, ops: seq<Op>, k: nat)
    requires b.tokens == b.maxTokens && b.refillRate >= 0.0
    requires Steady(ops) && k < |ops| && ops[k].Request? && b.lastRefill <= ops[0].now
    ensures Granted(b, ops, k) <==> forall j | 0 <= j <= k :: Room(b, ops, j, k) >= 1.0
  {
    ExactEnvelope(b, ops, k);
    InflowAdds(b.refillRate, ops[0].now - b.lastRefill, ops[k].now - ops[0].now);
    InflowMonotone(b.refillRate, b.refillRate, 0, ops[0].now - b.lastRefill);
    assert Room(b, ops, 0, k) <= InitialRoom(b, ops, k);
  }

  /** So for a newly constructed limiter ... */
  lemma {:induction false} ExactEnvelopeFromConstruction(raw: RawConfig, start: int, ops: seq<Op>, k: nat)
    requires Steady(ops) && k < |ops| && ops[k].Request? && start <= ops[0].now
    ensures Granted(Full(raw, start), ops, k) <==>
            forall j | 0 <= j <= k :: Room(Full(raw, start), ops, j, k) >= 1.0
  {
    EnvelopeOfFull(Full(raw, start), ops, k);
  }

  /** ... and after Reset: whatever came before, only windows since then count, at the rate and
      the cap in force, and the statistics start over. */
  lemma {:induction false} ExactEnvelopeSinceReset(b: Bucket, t: int, ops: seq<Op>, k: nat)
    requires Steady(ops) && k < |ops| && ops[k].Request? && t <= ops[0].now && b.refillRate >= 0.0
    ensures var restarted := Apply(b, Op.Reset(t));
            && restarted.refillRate == b.refillRate && restarted.maxTokens == b.maxTokens
            && (Granted(restarted, ops, k) <==> forall j | 0 <= j <= k :: Room(restarted, ops, j, k) >= 1.0)
            && At(restarted, ops, k).allowed == Grants(restarted, ops, 0, k)
  {
    var restarted := Apply(b, Op.Reset(t));
    EnvelopeOfFull(restarted, ops, k);
    StatisticsCount(restarted, ops, k);
  }

  // ----- The bound across rate changes -----

  /** Every rate and burst in force from operation j to k is within R and B, and no Reset. */
  predicate Within(b: Bucket, ops: seq<Op>, j: nat, k: nat, rate: real, burst: real)
    requires j <= k <= |ops|
  {
    forall i | j <= i < k ::
      !ops[i].Reset? && At(b, ops, i).refillRate <= rate && At(b, ops, i).maxTokens <= burst
  }

  /** Tokens held plus requests granted since operation j. */
  function Potential(b: Bucket, ops: seq<Op>, j: nat, k: nat): real
    requires j <= k <= |ops|
  {
    At(b, ops, k).tokens + Grants(b, ops, j, k) as real
  }

  /** One operation raises the potential by at most the inflow of its time step. */
  lemma {:induction false} PotentialStep(b: Bucket, ops: seq<Op>, j: nat, k: nat, rate: real)
    requires Ordered(b, ops) && j <= k < |ops| && !ops[k].Reset?
    requires At(b, ops, k).refillRate <= rate && rate >= 0.0
    ensures At(b, ops, k).lastRefill <= At(b, ops, k + 1).lastRefill
    ensures Potential(b, ops, j, k + 1) <=
            Potential(b, ops, j, k) + Inflow(rate, At(b, ops, k + 1).lastRefill - At(b, ops, k).lastRefill)
    ensures Granted(b, ops, k) ==> At(b, ops, k + 1).tokens >= 0.0
  {
    var before := At(b, ops, k);
    AtStep(b, ops, k);
    OrderedAt(b, ops, k);
    if !ops[k].SetRate? {
      var gap := ops[k].now - before.lastRefill;
      InflowMonotone(before.refillRate, rate, gap, gap);
    }
  }

  /** Operation j leaves at most the burst, granted request included. */
  lemma PotentialAfterFirst(b: Bucket, ops: seq<Op>, j: nat)
    requires j < |ops| && (ops[j].Request? || ops[j].Look?)
    ensures At(b, ops, j + 1).lastRefill == ops[j].now
    ensures Potential(b, ops, j, j + 1) <= At(b, ops, j).maxTokens
    ensures Granted(b, ops, j) ==> At(b, ops, j + 1).tokens >= 0.0
  {
    AtStep(b, ops, j);
    assert Grants(b, ops, j, j) == 0;
  }

  lemma {:induction false} WindowPotential(b: Bucket, ops: seq<Op>, j: nat, k: nat, rate: real, burst: real)
    requires Ordered(b, ops) && j < k <= |ops| && (ops[j].Request? || ops[j].Look?)
    requires Within(b, ops, j, k, rate, burst) && rate >= 0.0 && burst >= 0.0
    ensures At(b, ops, k).lastRefill >= ops[j].now
    ensures Potential(b, ops, j, k) <= burst + Inflow(rate, At(b, ops, k).lastRefill - ops[j].now)
    ensures Grants(b, ops, j, k) as real <= burst + Inflow(rate, At(b, ops, k).lastRefill - ops[j].now)
    decreases k
  {
    hide Inflow, Perform, Apply;
    if j == k - 1 {
      PotentialAfterFirst(b, ops, j);
      InflowAdds(rate, 0, 0);
      assert Grants(b, ops, j, k) == Grants(b, ops, j, j) + if Granted(b, ops, j) then 1 else 0;
    } else {
      WindowPotential(b, ops, j, k - 1, rate, burst);
      PotentialStep(b, ops, j, k - 1, rate);
      var elapsed := At(b, ops, k - 1).lastRefill - ops[j].now;
      var gap := At(b, ops, k).lastRefill - At(b, ops, k - 1).lastRefill;
      InflowAdds(rate, elapsed, gap);
      InflowMonotone(rate, rate, elapsed, elapsed + gap);
    }
  }

  /** In any window without Reset, whatever SetRate does in it, the grants stay below
      (largest burst) + (largest rate) * (length of the window). */
  lemma GrantsWithinWindow(b: Bucket, ops: seq<Op>, j: nat, k: nat, rate: real, burst: real)
    requires Ordered(b, ops) && j < k <= |ops|
    requires (ops[j].Request? || ops[j].Look?) && (ops[k - 1].Request? || ops[k - 1].Look?)
    requires Within(b, ops, j, k, rate, burst) && rate >= 0.0 && burst >= 0.0
    ensures Grants(b, ops, j, k) as real <= burst + Inflow(rate, ops[k - 1].now - ops[j].now)
  {
    WindowPotential(b, ops, j, k, rate, burst);
    AtStep(b, ops, k - 1);
  }

  /** At a steady rate, the grants from operation j on, all of them no earlier than `from`. */
  lemma {:induction false} GrantsFrom(b: Bucket, ops: seq<Op>, j: nat, from: int, clock: int)
    requires Steady(ops) && Ordered(b, ops) && b.refillRate >= 0.0 && b.maxTokens >= 0.0
    requires j <= |ops| && (forall k | j <= k < |ops| :: from <= ops[k].now)
    requires from <= clock && Perform(b, ops).lastRefill <= clock
    ensures Grants(b, ops, j, |ops|) as real <= b.maxTokens + Inflow(b.refillRate, clock - from)
  {
    var n := |ops|;
    InflowAdds(b.refillRate, 0, 0);
    if j < n {
      forall i | 0 <= i <= n
        ensures At(b, ops, i).refillRate == b.refillRate && At(b, ops, i).maxTokens == b.maxTokens
      {
        SteadyAt(b, ops, i);
      }
      assert ops[..n] == ops;
      var last := At(b, ops, n).lastRefill;
      assert last <= clock;
      hide Inflow, Perform, Level, Granted;
      WindowPotential(b, ops, j, n, b.refillRate, b.maxTokens);
      InflowMonotone(b.refillRate, b.refillRate, last - ops[j].now, clock - from);
    } else {
      InflowMonotone(b.refillRate, b.refillRate, 0, clock - from);
    }
  }

  // ----- Looking is harmless -----

  /** Two refills are one, exactly when the second adds nothing negative or the first did not
      meet the cap. */
  lemma RefillSplits(b: Bucket, t: int, t': int)
    ensures Refilled(Refilled(b, t), t') == Refilled(b, t') <==>
            || Inflow(b.refillRate, t' - t) >= 0.0
            || b.tokens + Inflow(b.refillRate, t - b.lastRefill) <= b.maxTokens
  {
    InflowAdds(b.refillRate, t - b.lastRefill, t' - t);
  }

  /** No negative rate is set. */
  predicate Sound(op: Op) {
    op.SetRate? ==> op.rate >= 0.0
  }

  function WithoutLooks(ops: seq<Op>): seq<Op> {
    if ops == [] then []
    else WithoutLooks(ops[..|ops| - 1]) + if ops[|ops| - 1].Look? then [] else [ops[|ops| - 1]]
  }

  /** The results of the Allow calls of a run, in order. */
  function Answers(b: Bucket, ops: seq<Op>): seq<bool> {
    if ops == [] then []
    else Answers(b, ops[..|ops| - 1]) +
         if ops[|ops| - 1].Request?
         then [Refilled(Perform(b, ops[..|ops| - 1]), ops[|ops| - 1].now).tokens >= 1.0] else []
  }

  /** From now on x and y cannot be told apart. */
  ghost predicate Indistinguishable(x: Bucket, y: Bucket) {
    && x.refillRate == y.refillRate && x.maxTokens == y.maxTokens
    && x.allowed == y.allowed && x.rejected == y.rejected
    && forall t | t >= x.lastRefill :: Refilled(x, t) == Refilled(y, t)
  }

  lemma LookKeeps(x: Bucket, y: Bucket, t: int)
    requires Indistinguishable(x, y) && t >= x.lastRefill && x.refillRate >= 0.0
    ensures Indistinguishable(Refilled(x, t), y)
  {
    forall t' | t' >= t
      ensures Refilled(Refilled(x, t), t') == Refilled(y, t')
    {
      InflowMonotone(x.refillRate, x.refillRate, 0, t' - t);
      RefillSplits(x, t, t');
    }
  }

  lemma SameEffect(x: Bucket, y: Bucket, op: Op)
    requires Indistinguishable(x, y) && (op.Request? || op.Reset?) && op.now >= x.lastRefill
    ensures Apply(x, op) == Apply(y, op)
    ensures op.Request? ==> Refilled(x, op.now) == Refilled(y, op.now)
  {
    assert Refilled(x, op.now) == Refilled(y, op.now);
  }

  /** After a change of rate x and y agree exactly if what x holds and what y gathers up to the
      same instant at the new rate are the same amount under the new cap. */
  predicate AgreeUnder(x: Bucket, y: Bucket, rate: real, burst: int) {
    Min(x.tokens, burst as real) == Min(y.tokens + Inflow(rate, x.lastRefill - y.lastRefill), burst as real)
  }

  lemma SetRateSeparates(x: Bucket, y: Bucket, rate: real, burst: int)
    requires y.lastRefill <= x.lastRefill && rate >= 0.0
    requires x.allowed == y.allowed && x.rejected == y.rejected
    ensures Indistinguishable(Rerated(x, rate, burst), Rerated(y, rate, burst)) <==> AgreeUnder(x, y, rate, burst)
  {
    var x', y' := Rerated(x, rate, burst), Rerated(y, rate, burst);
    InflowMonotone(rate, rate, 0, x.lastRefill - y.lastRefill);
    InflowAdds(rate, 0, 0);
    assert Refilled(x', x.lastRefill) == Refilled(y', x.lastRefill) <==> AgreeUnder(x, y, rate, burst);
    forall t | t >= x.lastRefill && AgreeUnder(x, y, rate, burst)
      ensures Refilled(x', t) == Refilled(y', t)
    {
      InflowAdds(rate, x.lastRefill - y.lastRefill, t - x.lastRefill);
      InflowMonotone(rate, rate, 0, t - x.lastRefill);
    }
  }

  /** Just before each SetRate the run and the run without looks agree under the new rate. */
  predicate Settled(b: Bucket, ops: seq<Op>) {
    ops == [] ||
    (Settled(b, ops[..|ops| - 1]) &&
     (ops[|ops| - 1].SetRate? ==>
        AgreeUnder(Perform(b, ops[..|ops| - 1]), Perform(b, WithoutLooks(ops[..|ops| - 1])),
                   ops[|ops| - 1].rate, ops[|ops| - 1].burst)))
  }

  ghost predicate Alike(b: Bucket, ops: seq<Op>) {
    Indistinguishable(Perform(b, ops), Perform(b, WithoutLooks(ops)))
  }

  /** All along the run it cannot be told apart from the run without looks. */
  ghost predicate Transparent(b: Bucket, ops: seq<Op>) {
    forall k | 0 <= k <= |ops| :: Alike(b, ops[..k])
  }

  lemma TransparentStep(b: Bucket, ops: seq<Op>)
    requires ops != []
    ensures Transparent(b, ops) <==> Transparent(b, ops[..|ops| - 1]) && Alike(b, ops)
  {
    hide Alike;
    var before := ops[..|ops| - 1];
    assert ops[..|ops|] == ops;
    assert forall k | 0 <= k < |ops| :: before[..k] == ops[..k];
  }

  /** The functions of a run, one operation further. */
  lemma OneMore(b: Bucket, ops: seq<Op>, op: Op)
    ensures Perform(b, ops + [op]) == Apply(Perform(b, ops), op)
    ensures WithoutLooks(ops + [op]) == WithoutLooks(ops) + if op.Look? then [] else [op]
    ensures Answers(b, ops + [op]) ==
            Answers(b, ops) + if op.Request? then [Refilled(Perform(b, ops), op.now).tokens >= 1.0] else []
    ensures Settled(b, ops + [op]) <==>
            Settled(b, ops) &&
            (op.SetRate? ==> AgreeUnder(Perform(b, ops), Perform(b, WithoutLooks(ops)), op.rate, op.burst))
  {
    assert (ops + [op])[..|ops|] == ops;
  }

  /** What one operation does to a bucket x and to a bucket y that skips looks. */
  lemma {:induction false} SkipLook(x: Bucket, y: Bucket, op: Op)
    requires Indistinguishable(x, y) && x.refillRate >= 0.0 && y.lastRefill <= x.lastRefill && Sound(op)
    requires !op.SetRate? ==> x.lastRefill <= op.now
    ensures var x', y' := Apply(x, op), if op.Look? then y else Apply(y, op);
            && (Indistinguishable(x', y') <==> (op.SetRate? ==> AgreeUnder(x, y, op.rate, op.burst)))
            && y'.lastRefill <= x'.lastRefill && x'.refillRate >= 0.0
    ensures op.Request? ==> Refilled(x, op.now) == Refilled(y, op.now)
  {
    match op
    case Look(now) =>
      LookKeeps(x, y, now);
      hide Indistinguishable;
    case SetRate(rate, burst) =>
      SetRateSeparates(x, y, rate, burst);
      hide Indistinguishable, AgreeUnder;
    case _ =>
      SameEffect(x, y, op);
  }

  /** The same for a run that has come to x and the run without looks that has come to y. */
  lemma {:induction false} LookStep(b: Bucket, before: seq<Op>, op: Op)
    requires Alike(b, before) && Sound(op)
    requires var x, y := Perform(b, before), Perform(b, WithoutLooks(before));
             && x.refillRate >= 0.0 && y.lastRefill <= x.lastRefill
             && (!op.SetRate? ==> x.lastRefill <= op.now)
    ensures Alike(b, before + [op]) <==>
            (op.SetRate? ==> AgreeUnder(Perform(b, before), Perform(b, WithoutLooks(before)), op.rate, op.burst))
    ensures Answers(b, before) == Answers(b, WithoutLooks(before)) ==>
              Answers(b, before + [op]) == Answers(b, WithoutLooks(before + [op]))
    ensures Perform(b, WithoutLooks(before + [op])).lastRefill <= Perform(b, before + [op]).lastRefill
    ensures Perform(b, before + [op]).refillRate >= 0.0
  {
    hide Perform, WithoutLooks, Answers, Settled, Apply, AgreeUnder, Indistinguishable, Refilled;
    SkipLook(Perform(b, before), Perform(b, WithoutLooks(before)), op);
    OneMore(b, before, op);
    OneMore(b, WithoutLooks(before), op);
    assert WithoutLooks(before) + [] == WithoutLooks(before);
  }

  lemma NothingYet(b: Bucket)
    ensures Perform(b, []) == b && WithoutLooks([]) == [] && Answers(b, []) == [] && Settled(b, [])
  {
  }

  lemma {:induction false} LooksAllAlong(b: Bucket, ops: seq<Op>)
    requires Ordered(b, ops) && b.refillRate >= 0.0 && forall i | 0 <= i < |ops| :: Sound(ops[i])
    ensures Transparent(b, ops) <==> Settled(b, ops)
    ensures Settled(b, ops) ==>
              && Alike(b, ops) && Answers(b, ops) == Answers(b, WithoutLooks(ops))
              && Perform(b, ops).refillRate >= 0.0
              && Perform(b, WithoutLooks(ops)).lastRefill <= Perform(b, ops).lastRefill
  {
    if ops == [] {
      NothingYet(b);
      assert Alike(b, ops[..0]);
    } else {
      var before, op := ops[..|ops| - 1], ops[|ops| - 1];
      LooksAllAlong(b, before);
      TransparentStep(b, ops);
      assert ops == before + [op];
      hide Perform, Apply, AgreeUnder, Answers, WithoutLooks, Alike, Transparent;
      if Settled(b, before) {
        LookStep(b, before, op);
      }
    }
  }

  /** No SetRate comes directly after a look. */
  predicate Apart(ops: seq<Op>) {
    forall i | 0 <= i < |ops| - 1 :: ops[i].Look? ==> !ops[i + 1].SetRate?
  }

  lemma AgreesWithItself(x: Bucket, rate: real, burst: int)
    ensures AgreeUnder(x, x, rate, burst)
  {
    InflowAdds(rate, 0, 0);
  }

  /** Any operation that is not a look brings the two runs to the same bucket. */
  lemma {:induction false} ApartSettled(b: Bucket, ops: seq<Op>)
    requires Ordered(b, ops) && b.refillRate >= 0.0 && (forall i | 0 <= i < |ops| :: Sound(ops[i])) && Apart(ops)
    ensures Settled(b, ops)
    ensures ops == [] || !ops[|ops| - 1].Look? ==> Perform(b, ops) == Perform(b, WithoutLooks(ops))
  {
    if ops == [] {
      NothingYet(b);
    } else {
      var before, op := ops[..|ops| - 1], ops[|ops| - 1];
      ApartSettled(b, before);
      LooksAllAlong(b, before);
      OneMore(b, before, op);
      OneMore(b, WithoutLooks(before), op);
      assert ops == before + [op];
      var x, y := Perform(b, before), Perform(b, WithoutLooks(before));
      assert !op.SetRate? ==> x.lastRefill <= op.now;
      assert op.SetRate? ==> x == y by {
        assert before != [] ==> before[|before| - 1] == ops[|ops| - 2];
      }
      hide Perform, WithoutLooks, Answers, Settled, Apply, AgreeUnder, Refilled, Apart, Ordered;
      if op.SetRate? {
        AgreesWithItself(x, op.rate, op.burst);
      } else if !op.Look? {
        SameEffect(x, y, op);
      }
    }
  }

  /** Removing every Stats and Reserve call from a run changes nothing that can be seen at any
      moment of it, if and only if each SetRate finds the two runs settled; in particular then no
      Allow result changes.  Where no SetRate comes directly after a look, it always does. */
  lemma {:induction false} LooksAreTransparent(b: Bucket, ops: seq<Op>)
    requires Ordered(b, ops) && b.refillRate >= 0.0 && forall i | 0 <= i < |ops| :: Sound(ops[i])
    ensures Transparent(b, ops) <==> Settled(b, ops)
    ensures Settled(b, ops) ==> Answers(b, ops) == Answers(b, WithoutLooks(ops))
    ensures Apart(ops) ==> Settled(b, ops)
  {
    LooksAllAlong(b, ops);
    if Apart(ops) {
      ApartSettled(b, ops);
    }
  }

  /** A look just before SetRate, and a request just after it. */
  lemma LookChangeRequest(b: Bucket, look: Op, change: Op, request: Op)
    requires look.Look? && change.SetRate? && request.Request?
    ensures var ops, seen, unseen := [look, change, request], Apply(Apply(b, look), change), Apply(b, change);
            && (Settled(b, ops) <==> AgreeUnder(Apply(b, look), b, change.rate, change.burst))
            && Answers(b, ops) == [Refilled(seen, request.now).tokens >= 1.0]
            && Answers(b, WithoutLooks(ops)) == [Refilled(unseen, request.now).tokens >= 1.0]
  {
    hide *;
    NothingYet(b);
    OneMore(b, [], look);
    OneMore(b, [look], change);
    OneMore(b, [look, change], request);
    OneMore(b, [], change);
    OneMore(b, [change], request);
    assert [] + [look] == [look] && [look] + [change] == [look, change] && [] + [change] == [change];
    assert [look, change] + [request] == [look, change, request] && [change] + [request] == [change, request];
  }

  /** Such a look can be seen: an empty bucket fills at 1 per second for half a second, then at 5.
      Looking first settles the half second at the old rate, and the request is refused. */
  lemma LookIsSeen()
    ensures var b, t := Bucket(0.0, 0, 10.0, 1.0, 0, 0), 500_000_000;
            var ops := [Look(t), Op.SetRate(5.0, 10), Request(t)];
            !Settled(b, ops) && Answers(b, ops) == [false] && Answers(b, WithoutLooks(ops)) == [true]
  {
    var b, t := Bucket(0.0, 0, 10.0, 1.0, 0, 0), 500_000_000;
    LookChangeRequest(b, Look(t), Op.SetRate(5.0, 10), Request(t));
    hide Settled, Answers, WithoutLooks;
    assert Refilled(Rerated(Refilled(b, t), 5.0, 10), t).tokens == 0.5;
    assert Refilled(Rerated(b, 5.0, 10), t).tokens == 2.5;
  }

  // ----- Levels -----

  predicate Filled(b: Bucket) {
    0.0 <= b.tokens <= b.maxTokens && b.refillRate >= 0.0
  }

  lemma {:induction false} LevelBounded(b: Bucket, ops: seq<Op>)
    requires Filled(b) && Ordered(b, ops) && forall i | 0 <= i < |ops| :: Sound(ops[i])
    requires forall i | 0 <= i < |ops| :: ops[i].SetRate? ==> ops[i].burst >= 0
    ensures Filled(Perform(b, ops))
  {
    if ops != [] {
      var before, op := ops[..|ops| - 1], ops[|ops| - 1];
      LevelBounded(b, before);
      var x := Perform(b, before);
      if !op.SetRate? {
        InflowMonotone(x.refillRate, x.refillRate, 0, op.now - x.lastRefill);
      }
    }
  }

  // ----- Reserve and Wait -----

  /** Reserve rounds the exact waiting time down to whole nanoseconds. */
  lemma DelayIsRoundedDown(b: Bucket)
    requires b.refillRate > 0.0
    ensures b.tokens >= 1.0 ==> Delay(b) == 0
    ensures b.tokens < 1.0 ==>
              var exact := (1.0 - b.tokens) / b.refillRate * 1_000_000_000.0;
              0 <= Delay(b) && Delay(b) as real <= exact < Delay(b) as real + 1.0
  {
    if b.tokens < 1.0 {
      assert (1.0 - b.tokens) / b.refillRate > 0.0;
    }
  }

  /** When one token is there: exactly from the waiting time on that Reserve rounds. */
  lemma TokenArrives(b: Bucket, t: int)
    requires b.tokens < 1.0 && b.refillRate > 0.0
    ensures Refilled(b, t).tokens >= 1.0 <==>
            b.maxTokens >= 1.0 && (t - b.lastRefill) as real >= (1.0 - b.tokens) / b.refillRate * 1_000_000_000.0
  {
    var need, rate := 1.0 - b.tokens, b.refillRate;
    var seconds := (t - b.lastRefill) as real / 1_000_000_000.0;
    var q := need / rate;
    assert need == q * rate;
    if seconds >= q {
      assert (seconds - q) * rate >= 0.0;
    } else {
      assert (q - seconds) * rate > 0.0;
    }
  }

  /** Allow at least one nanosecond after Reserve's delay succeeds; before the delay it fails. */
  lemma DelaySuffices(b: Bucket, t: int)
    requires b.tokens < 1.0 && b.refillRate > 0.0
    ensures t >= b.lastRefill + Delay(b) + 1 ==>
              (Refilled(b, t).tokens >= 1.0 <==> b.maxTokens >= 1.0)
    ensures t < b.lastRefill + Delay(b) ==> Refilled(b, t).tokens < 1.0
  {
    DelayIsRoundedDown(b);
    TokenArrives(b, t);
  }

  /** The operations of a Wait that is never granted: an Allow and a Reserve in each round. */
  function AttemptOps(rounds: seq<Round>): seq<Op> {
    if rounds == [] then []
    else [Request(rounds[0].allowAt), Look(rounds[0].reserveAt)] + AttemptOps(rounds[1..])
  }

  lemma {:induction false} Prepend(b: Bucket, op: Op, ops: seq<Op>, k: nat)
    requires k <= |ops|
    ensures At(b, [op] + ops, k + 1) == At(Apply(b, op), ops, k)
    ensures Grants(b, [op] + ops, 0, k + 1) ==
            (if Granted(b, [op] + ops, 0) then 1 else 0) + Grants(Apply(b, op), ops, 0, k)
  {
    AtStep(b, [op] + ops, k);
    if k > 0 {
      Prepend(b, op, ops, k - 1);
      AtStep(Apply(b, op), ops, k - 1);
    }
  }

  /** The operations of one failed attempt come before those of the others. */
  lemma PrependAttempt(b: Bucket, r: Round, ops: seq<Op>)
    requires Refilled(b, r.allowAt).tokens < 1.0
    ensures var all := [Request(r.allowAt), Look(r.reserveAt)] + ops;
            && Perform(b, all) == Perform(Attempted(b, r), ops)
            && Grants(b, all, 0, |all|) == Grants(Attempted(b, r), ops, 0, |ops|)
  {
    var request, look := Request(r.allowAt), Look(r.reserveAt);
    var rest := [look] + ops;
    var all := [request] + rest;
    Prepend(b, request, rest, |rest|);
    Prepend(Apply(b, request), look, ops, |ops|);
    assert [request, look] + ops == all;
    assert all[..|all|] == all && rest[..|rest|] == rest && ops[..|ops|] == ops;
    assert At(b, all, 0) == b;
  }

  /** These operations, from the start of the rounds, are what a Wait did. */
  predicate Explains(ops: seq<Op>, b: Bucket, strategy: Strategy, rounds: seq<Round>)
    requires b.refillRate != 0.0
  {
    var w := WaitOver(b, strategy, rounds);
    && ops <= AttemptOps(rounds) && Steady(ops)
    && w.bucket == Perform(b, ops)
    && Grants(b, ops, 0, |ops|) == if w.result.Granted? then 1 else 0
  }

  lemma {:induction false} WaitExplained(b: Bucket, strategy: Strategy, rounds: seq<Round>) returns (ops: seq<Op>)
    requires b.refillRate != 0.0
    ensures Explains(ops, b, strategy, rounds)
    decreases |rounds|
  {
    ops := [];
    if rounds != [] {
      var r := rounds[0];
      if Refilled(b, r.allowAt).tokens >= 1.0 {
        ops := [Request(r.allowAt)];
        AtStep(b, ops, 0);
        assert ops[..1] == ops;
        assert At(b, ops, 0) == b && Grants(b, ops, 0, 0) == 0;
      } else {
        var b' := Attempted(b, r);
        if Delay(b') == 0 || GivesUp(strategy, r) == Waiting {
          ops := WaitExplained(b', strategy, rounds[1..]);
        }
        PrependAttempt(b, r, ops);
        ops := [Request(r.allowAt), Look(r.reserveAt)] + ops;
      }
    }
  }

  /** A Wait is a run of Allow and Reserve calls with exactly one grant if it returns nil and
      none if it returns an error. */
  lemma {:induction false} WaitTakesOne(b: Bucket, strategy: Strategy, rounds: seq<Round>)
    requires b.refillRate != 0.0
    ensures exists ops :: Explains(ops, b, strategy, rounds)
    ensures var w := WaitOver(b, strategy, rounds);
            w.bucket.allowed == b.allowed + if w.result.Granted? then 1 else 0
  {
    var ops := WaitExplained(b, strategy, rounds);
    StatisticsCount(b, ops, |ops|);
    assert ops[..|ops|] == ops;
  }

  /** Only the reject strategy returns ErrRateLimited, and only the others a context error. */
  lemma {:induction false} WaitErrors(b: Bucket, strategy: Strategy, rounds: seq<Round>)
    requires b.refillRate != 0.0
    ensures var w := WaitOver(b, strategy, rounds);
            && (strategy.Reject? ==> !w.result.Cancelled?)
            && (!strategy.Reject? ==> !w.result.RateLimited?)
            && (w.result.Cancelled? ==> exists i :: 0 <= i < |rounds| && rounds[i].cancelled)
    decreases |rounds|
  {
    if rounds != [] && Refilled(b, rounds[0].allowAt).tokens < 1.0 {
      WaitErrors(Attempted(b, rounds[0]), strategy, rounds[1..]);
    }
  }

  predicate InOrder(from: int, rounds: seq<Round>)
    decreases |rounds|
  {
    rounds == [] ||
    (from <= rounds[0].allowAt <= rounds[0].reserveAt && InOrder(rounds[0].reserveAt, rounds[1..]))
  }

  /** A failed attempt takes nothing: from then on the level is what it would have been. */
  lemma AttemptKeepsLevel(b: Bucket, r: Round, t: int)
    requires b.refillRate >= 0.0 && Refilled(b, r.allowAt).tokens < 1.0
    requires b.lastRefill <= r.allowAt <= r.reserveAt <= t
    ensures Refilled(Attempted(b, r), t).tokens == Refilled(b, t).tokens
  {
    InflowMonotone(b.refillRate, b.refillRate, 0, r.reserveAt - r.allowAt);
    InflowMonotone(b.refillRate, b.refillRate, 0, t - r.reserveAt);
    RefillSplits(b, r.allowAt, r.reserveAt);
    RefillSplits(b, r.reserveAt, t);
    hide Inflow;
    assert Attempted(b, r) == Refilled(b, r.reserveAt).(rejected := b.rejected + 1);
  }

  /** The level after a Wait: what elapsed time alone gives, less one token if it returned nil. */
  lemma {:induction false} WaitLevel(b: Bucket, strategy: Strategy, rounds: seq<Round>)
    requires b.refillRate > 0.0 && b.tokens <= b.maxTokens && InOrder(b.lastRefill, rounds)
    ensures var w := WaitOver(b, strategy, rounds);
            && w.bucket.lastRefill >= b.lastRefill
            && w.bucket.tokens == Refilled(b, w.bucket.lastRefill).tokens - if w.result.Granted? then 1.0 else 0.0
    decreases |rounds|
  {
    InflowAdds(b.refillRate, 0, 0);
    if rounds != [] && Refilled(b, rounds[0].allowAt).tokens < 1.0 {
      var b' := Attempted(b, rounds[0]);
      WaitLevel(b', strategy, rounds[1..]);
      AttemptKeepsLevel(b, rounds[0], b'.lastRefill);
      AttemptKeepsLevel(b, rounds[0], WaitOver(b', strategy, rounds[1..]).bucket.lastRefill);
    }
  }

  lemma SecondAttempt(b: Bucket, t: int)
    requires b.refillRate > 0.0 && b.maxTokens >= 1.0 && t >= b.lastRefill + Delay(b) + 1
    ensures Refilled(b, t).tokens >= 1.0
  {
    if b.tokens < 1.0 {
      DelaySuffices(b, t);
    } else {
      InflowMonotone(b.refillRate, b.refillRate, 0, t - b.lastRefill);
    }
  }

  /** One nanosecond past the computed delay the second attempt is granted at the latest. */
  lemma {:induction false} SecondAttemptGranted(b: Bucket, strategy: Strategy, rounds: seq<Round>)
    requires b.refillRate > 0.0 && b.maxTokens >= 1.0 && !strategy.Reject?
    requires |rounds| >= 2 && !rounds[0].cancelled
    requires rounds[1].allowAt >= rounds[0].reserveAt + Delay(Attempted(b, rounds[0])) + 1
    ensures WaitOver(b, strategy, rounds).result.Granted?
  {
    if Refilled(b, rounds[0].allowAt).tokens < 1.0 {
      SecondAttempt(Attempted(b, rounds[0]), rounds[1].allowAt);
      assert rounds[1..][0] == rounds[1];
      assert WaitOver(Attempted(b, rounds[0]), strategy, rounds[1..]).result.Granted?;
    }
  }

  /** The level that elapsed time alone gives misses a token at this round's Allow, and by a
      measurable delay still at its Reserve. */
  predicate Misses(b: Bucket, r: Round)
    requires b.refillRate != 0.0
  {
    Refilled(b, r.allowAt).tokens < 1.0 && Delay(Refilled(b, r.reserveAt)) != 0
  }

  /** Rejecting, a Wait ends with the first miss; blocking, with a miss while its context is done. */
  predicate Leaves(b: Bucket, strategy: Strategy, r: Round)
    requires b.refillRate != 0.0
  {
    Misses(b, r) && (strategy.Reject? || ((strategy.Block? || strategy.Adaptive?) && r.cancelled))
  }

  predicate Passes(b: Bucket, strategy: Strategy, r: Round)
    requires b.refillRate != 0.0
  {
    Refilled(b, r.allowAt).tokens < 1.0 && !Leaves(b, strategy, r)
  }

  /** Round n is the first with a token or an error, or there is none and n is the number of rounds. */
  predicate EndsAt(b: Bucket, strategy: Strategy, rounds: seq<Round>, n: nat)
    requires b.refillRate != 0.0
  {
    && n <= |rounds| && (forall k | 0 <= k < n :: Passes(b, strategy, rounds[k]))
    && (n < |rounds| ==> !Passes(b, strategy, rounds[n]))
  }

  /** The non-zero delays of the first n rounds. */
  function Delays(b: Bucket, rounds: seq<Round>, n: nat): seq<int>
    requires n <= |rounds| && b.refillRate != 0.0
  {
    if n == 0 then []
    else
      var d := Delay(Refilled(b, rounds[n - 1].reserveAt));
      Delays(b, rounds, n - 1) + if d != 0 then [d] else []
  }

  /** How a Wait that ends in round n ends. */
  function ResultIn(b: Bucket, strategy: Strategy, rounds: seq<Round>, n: nat): WaitResult
    requires n <= |rounds|
  {
    if n == |rounds| then WaitResult.Waiting
    else if Refilled(b, rounds[n].allowAt).tokens >= 1.0 then WaitResult.Granted
    else if strategy.Reject? then RateLimited
    else Cancelled
  }

  lemma {:induction false} LaterRounds(from: int, rounds: seq<Round>, i: nat)
    requires InOrder(from, rounds) && i < |rounds|
    ensures from <= rounds[i].allowAt <= rounds[i].reserveAt
    decreases |rounds|
  {
    if i > 0 {
      LaterRounds(rounds[0].reserveAt, rounds[1..], i - 1);
    }
  }

  /** A Wait whose first attempt fails: it leaves, or goes on with the other rounds. */
  lemma {:induction false} FailedFirst(b: Bucket, strategy: Strategy, rounds: seq<Round>)
    requires b.refillRate > 0.0 && InOrder(b.lastRefill, rounds) && rounds != []
    requires Refilled(b, rounds[0].allowAt).tokens < 1.0
    ensures var w, d := WaitOver(b, strategy, rounds), Delay(Refilled(b, rounds[0].reserveAt));
            var later := WaitOver(Attempted(b, rounds[0]), strategy, rounds[1..]);
            if Leaves(b, strategy, rounds[0])
            then w.reported == [] && w.result == if strategy.Reject? then RateLimited else Cancelled
            else w.result == later.result && w.reported == (if d != 0 then [d] else []) + later.reported
    ensures InOrder(Attempted(b, rounds[0]).lastRefill, rounds[1..])
    ensures Attempted(b, rounds[0]).refillRate == b.refillRate
  {
    var b', t := Attempted(b, rounds[0]), rounds[0].reserveAt;
    AttemptKeepsLevel(b, rounds[0], t);
    InflowAdds(b.refillRate, 0, 0);
    assert b'.tokens == Refilled(b, t).tokens;
    assert Delay(b') == Delay(Refilled(b, t));
    hide Delay, Refilled, Attempted;
  }

  /** After a failed attempt the remaining rounds go on as if it had not been made. */
  lemma {:induction false} RoundsGoOn(b: Bucket, strategy: Strategy, rounds: seq<Round>, k: nat)
    requires b.refillRate > 0.0 && InOrder(b.lastRefill, rounds) && 0 < k < |rounds|
    requires Refilled(b, rounds[0].allowAt).tokens < 1.0
    ensures var b' := Attempted(b, rounds[0]);
            && b'.refillRate == b.refillRate
            && Refilled(b', rounds[k].allowAt).tokens == Refilled(b, rounds[k].allowAt).tokens
            && Delay(Refilled(b', rounds[k].reserveAt)) == Delay(Refilled(b, rounds[k].reserveAt))
            && Passes(b', strategy, rounds[k]) == Passes(b, strategy, rounds[k])
  {
    LaterRounds(rounds[0].reserveAt, rounds[1..], k - 1);
    AttemptKeepsLevel(b, rounds[0], rounds[k].allowAt);
    AttemptKeepsLevel(b, rounds[0], rounds[k].reserveAt);
  }

  lemma {:induction false} DelaysGoOn(b: Bucket, rounds: seq<Round>, n: nat)
    requires b.refillRate > 0.0 && InOrder(b.lastRefill, rounds) && 0 < n <= |rounds|
    requires Refilled(b, rounds[0].allowAt).tokens < 1.0
    ensures Attempted(b, rounds[0]).refillRate != 0.0
    ensures var d := Delay(Refilled(b, rounds[0].reserveAt));
            Delays(b, rounds, n) ==
            (if d != 0 then [d] else []) + Delays(Attempted(b, rounds[0]), rounds[1..], n - 1)
  {
    if n > 1 {
      DelaysGoOn(b, rounds, n - 1);
      RoundsGoOn(b, Block, rounds, n - 1);
      hide Delay, Refilled, Attempted;
      assert rounds[1..][n - 2] == rounds[n - 1];
    } else {
      assert Delays(b, rounds, 0) == [];
    }
  }

  /** A lone Wait, under any strategy and any cancellation: in which round it ends, how, and which
      delays OnRateLimited saw.  The levels are those that elapsed time alone gives. */
  lemma {:induction false} WaitExactly(b: Bucket, strategy: Strategy, rounds: seq<Round>, n: nat)
    requires b.refillRate > 0.0 && InOrder(b.lastRefill, rounds) && EndsAt(b, strategy, rounds, n)
    ensures WaitOver(b, strategy, rounds).result == ResultIn(b, strategy, rounds, n)
    ensures WaitOver(b, strategy, rounds).reported == Delays(b, rounds, n)
    decreases |rounds|
  {
    if n > 0 {
      var b', later := Attempted(b, rounds[0]), rounds[1..];
      assert Passes(b, strategy, rounds[0]);
      FailedFirst(b, strategy, rounds);
      forall k | 0 < k < |rounds|
        ensures Refilled(b', later[k - 1].allowAt).tokens == Refilled(b, rounds[k].allowAt).tokens
        ensures Passes(b', strategy, later[k - 1]) == Passes(b, strategy, rounds[k])
      {
        RoundsGoOn(b, strategy, rounds, k);
      }
      DelaysGoOn(b, rounds, n);
      hide WaitOver, Refilled, Attempted, Delays, Delay;
      assert EndsAt(b', strategy, later, n - 1) by {
        forall k | 0 <= k < n - 1
          ensures Passes(b', strategy, later[k])
        {
          assert Passes(b, strategy, rounds[k + 1]);
        }
      }
      WaitExactly(b', strategy, later, n - 1);
    } else if rounds != [] && Refilled(b, rounds[0].allowAt).tokens < 1.0 {
      FailedFirst(b, strategy, rounds);
    }
  }

  /** There is such a round. */
  lemma {:induction false} SomeEnd(b: Bucket, strategy: Strategy, rounds: seq<Round>) returns (n: nat)
    requires b.refillRate != 0.0
    ensures EndsAt(b, strategy, rounds, n)
  {
    n := 0;
    while n < |rounds| && Passes(b, strategy, rounds[n])
      invariant n <= |rounds| && forall k | 0 <= k < n :: Passes(b, strategy, rounds[k])
    {
      n := n + 1;
    }
  }

  /** Round i brings one token, and no round before ends the Wait. */
  predicate GrantedIn(b: Bucket, strategy: Strategy, rounds: seq<Round>, i: nat)
    requires b.refillRate != 0.0
  {
    && i < |rounds| && Refilled(b, rounds[i].allowAt).tokens >= 1.0
    && forall k | 0 <= k < i :: !Leaves(b, strategy, rounds[k])
  }

  /** A lone Wait returns nil if and only if in some round elapsed time has brought one token, and
      no round before that one ends it. */
  lemma {:induction false} WaitGrantedExactly(b: Bucket, strategy: Strategy, rounds: seq<Round>)
    requires b.refillRate > 0.0 && InOrder(b.lastRefill, rounds)
    ensures WaitOver(b, strategy, rounds).result.Granted? <==> exists i: nat :: GrantedIn(b, strategy, rounds, i)
  {
    var n := SomeEnd(b, strategy, rounds);
    WaitExactly(b, strategy, rounds, n);
    hide WaitOver, Leaves, Refilled;
    if i: nat :| GrantedIn(b, strategy, rounds, i) {
      assert i < n ==> Passes(b, strategy, rounds[i]);
      assert n <= i;
      assert n < i ==> !Leaves(b, strategy, rounds[n]);
    } else if ResultIn(b, strategy, rounds, n).Granted? {
      assert forall k | 0 <= k < n :: Passes(b, strategy, rounds[k]);
      assert GrantedIn(b, strategy, rounds, n);
    }
  }

  /** In round i the context is done after a miss, and no round before brings a token or ends so. */
  predicate CancelledIn(b: Bucket, rounds: seq<Round>, i: nat)
    requires b.refillRate != 0.0
  {
    && i < |rounds| && rounds[i].cancelled && Misses(b, rounds[i])
    && (forall k | 0 <= k < i :: Refilled(b, rounds[k].allowAt).tokens < 1.0)
    && (forall k | 0 <= k < i :: !(rounds[k].cancelled && Misses(b, rounds[k])))
  }

  predicate RejectedIn(b: Bucket, rounds: seq<Round>, i: nat)
    requires b.refillRate != 0.0
  {
    && i < |rounds| && Misses(b, rounds[i])
    && forall k | 0 <= k < i :: Refilled(b, rounds[k].allowAt).tokens < 1.0
  }

  /** A context error is returned exactly by a blocking or adaptive Wait whose context is done in a
      round that misses the token before any round brings it; ErrRateLimited exactly by a rejecting
      one with such a round, context or not. */
  lemma {:induction false} WaitErrorsExactly(b: Bucket, strategy: Strategy, rounds: seq<Round>)
    requires b.refillRate > 0.0 && InOrder(b.lastRefill, rounds)
    ensures WaitOver(b, strategy, rounds).result.Cancelled? <==>
            (strategy.Block? || strategy.Adaptive?) && exists i: nat :: CancelledIn(b, rounds, i)
    ensures WaitOver(b, strategy, rounds).result.RateLimited? <==>
            strategy.Reject? && exists i: nat :: RejectedIn(b, rounds, i)
  {
    var n := SomeEnd(b, strategy, rounds);
    WaitExactly(b, strategy, rounds, n);
    hide WaitOver, Misses, Refilled;
    if n < |rounds| && Leaves(b, strategy, rounds[n]) {
      assert strategy.Reject? ==> RejectedIn(b, rounds, n);
      assert !strategy.Reject? ==> CancelledIn(b, rounds, n);
    }
    if i: nat :| CancelledIn(b, rounds, i) && (strategy.Block? || strategy.Adaptive?) {
      assert i < n ==> Passes(b, strategy, rounds[i]);
      assert n >= i;
    }
    if i: nat :| RejectedIn(b, rounds, i) && strategy.Reject? {
      assert i < n ==> Passes(b, strategy, rounds[i]);
    }
  }

  /** So a live Wait that does not reject returns nil exactly if one of its attempts comes when
      the token has arrived: if one is missing at first, at or after the exact waiting time.
      Since the delay is rounded down, this may take more than two attempts. */
  lemma {:induction false} WaitTerminates(b: Bucket, strategy: Strategy, rounds: seq<Round>)
    requires b.refillRate > 0.0 && InOrder(b.lastRefill, rounds)
    requires !strategy.Reject? && forall i | 0 <= i < |rounds| :: !rounds[i].cancelled
    ensures WaitOver(b, strategy, rounds).result.Granted? <==>
            exists i :: 0 <= i < |rounds| && Refilled(b, rounds[i].allowAt).tokens >= 1.0
    ensures b.tokens < 1.0 ==>
              var exact := (1.0 - b.tokens) / b.refillRate * 1_000_000_000.0;
              WaitOver(b, strategy, rounds).result.Granted? <==>
              b.maxTokens >= 1.0 &&
              exists i :: 0 <= i < |rounds| && (rounds[i].allowAt - b.lastRefill) as real >= exact
  {
    WaitGrantedExactly(b, strategy, rounds);
    if i :| 0 <= i < |rounds| && Refilled(b, rounds[i].allowAt).tokens >= 1.0 {
      assert GrantedIn(b, strategy, rounds, i);
    }
    if b.tokens < 1.0 {
      forall i | 0 <= i < |rounds| {
        TokenArrives(b, rounds[i].allowAt);
      }
    }
  }

  lemma {:induction false} NeverGranted(b: Bucket, ops: seq<Op>, k: nat)
    requires Steady(ops) && k <= |ops| && b.maxTokens < 1.0
    ensures Grants(b, ops, 0, k) == 0
  {
    if k > 0 {
      NeverGranted(b, ops, k - 1);
      if ops[k - 1].Request? {
        ExactEnvelope(b, ops, k - 1);
        assert Room(b, ops, k - 1, k - 1) < 1.0;
      }
    }
  }

  /** No run of Allow, Stats and Reserve calls ever grants a request, exactly if the cap is
      below one token. */
  lemma {:induction false} NeverGrantedExactly(b: Bucket)
    requires b.refillRate > 0.0
    ensures (forall ops | Steady(ops) :: Grants(b, ops, 0, |ops|) == 0) <==> b.maxTokens < 1.0
  {
    if b.maxTokens < 1.0 {
      forall ops | Steady(ops)
        ensures Grants(b, ops, 0, |ops|) == 0
      {
        NeverGranted(b, ops, |ops|);
      }
    } else {
      var t := b.lastRefill + Delay(b) + 1;
      var ops := [Request(t)];
      SecondAttempt(b, t);
      assert At(b, ops, 0) == b && Grants(b, ops, 0, 0) == 0;
      assert Steady(ops) && Grants(b, ops, 0, |ops|) == 1;
    }
  }

  /** So no Wait is granted then ... */
  lemma {:induction false} NoBurstNoGrant(b: Bucket, strategy: Strategy, rounds: seq<Round>)
    requires b.refillRate != 0.0 && b.maxTokens < 1.0
    ensures !WaitOver(b, strategy, rounds).result.Granted?
    decreases |rounds|
  {
    if rounds != [] {
      NoBurstNoGrant(Attempted(b, rounds[0]), strategy, rounds[1..]);
    }
  }

  /** ... which is what the defaults give exactly for a rate between 0 and 1. */
  lemma DefaultBurstBelowOne(raw: RawConfig, now: int)
    requires raw.burstSize <= 0
    ensures Full(raw, now).maxTokens < 1.0 <==> 0.0 < raw.requestsPerSecond < 1.0
  {
  }
}
