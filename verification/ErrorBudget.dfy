/** Error budgets: the three formulas, the moving average of the burn rate, and the policies. */
module ErrorBudget {
  import opened Common

  // ----- Three computations of one budget -----

  function Clamp(value: real, low: real, high: real): real {
    if value < low then low else if value > high then high else value
  }

  datatype Calculation = Calculation(totalBudget: real, consumedBudget: real, remainingBudget: real,
                                     remainingPercent: real, consumedPercent: real)

  /** ErrorBudgetManager.CalculateErrorBudget. */
  function CalculateErrorBudget(actual: real, target: real): Calculation {
    var total := 1.0 - target;
    var consumed := if actual >= target then 0.0 else target - actual;
    var remaining := total - consumed;
    Calculation(total, consumed, remaining,
                Clamp(if total > 0.0 then remaining / total else 1.0, 0.0, 1.0),
                Clamp(if total > 0.0 then consumed / total else 0.0, 0.0, 1.0))
  }

  /** Calculator.calculateSingleErrorBudget. */
  function CalculateSingleErrorBudget(actual: real, target: real): real {
    if target >= 1.0 then 1.0
    else if actual >= target then 1.0
    else
      var total := 1.0 - target;
      var consumed := target - actual;
      if total <= 0.0 then 1.0
      else
        var remaining := (total - consumed) / total;
        if remaining < 0.0 then 0.0 else if remaining > 1.0 then 1.0 else remaining
  }

  /** CurrentRemaining as Manager.updateSingleErrorBudget computes it, without clamping. */
  function CurrentRemaining(actual: real, target: real): real {
    var total := 1.0 - target;
    var consumed := if actual < target then target - actual else 0.0;
    if total > 0.0 then (total - consumed) / total else 1.0
  }

  lemma Quotient(x: real, y: real)
    requires y > 0.0
    ensures x / y * y == x
    ensures x >= 0.0 <==> x / y >= 0.0
    ensures x <= y <==> x / y <= 1.0
  {
    var q := x / y;
    assert x == q * y;
    if q >= 0.0 {
      assert q * y >= 0.0;
    } else {
      assert (-q) * y > 0.0;
    }
    if q <= 1.0 {
      assert (1.0 - q) * y >= 0.0;
    } else {
      assert (q - 1.0) * y > 0.0;
    }
  }

  lemma QuotientsAdd(x: real, y: real, d: real)
    requires d != 0.0
    ensures x / d + y / d == (x + y) / d
  {
  }

  /** The three computations agree for every actual value and every target. */
  lemma BudgetsAgree(actual: real, target: real)
    ensures CalculateErrorBudget(actual, target).remainingPercent == CalculateSingleErrorBudget(actual, target)
    ensures CalculateSingleErrorBudget(actual, target) == Clamp(CurrentRemaining(actual, target), 0.0, 1.0)
  {
    var total := 1.0 - target;
    if total > 0.0 {
      Quotient(total, total);
    }
  }

  /** What remains and what is consumed add up to the whole budget. */
  lemma {:induction false} BudgetsComplement(actual: real, target: real)
    ensures var c := CalculateErrorBudget(actual, target);
            c.remainingPercent + c.consumedPercent == 1.0
  {
    var c := CalculateErrorBudget(actual, target);
    if c.totalBudget > 0.0 {
      Quotient(c.consumedBudget, c.totalBudget);
      Quotient(c.remainingBudget, c.totalBudget);
      Quotient(c.totalBudget, c.totalBudget);
      QuotientsAdd(c.consumedBudget, c.remainingBudget, c.totalBudget);
    }
  }

  lemma QuotientMonotone(x: real, x': real, d: real)
    requires x <= x' && d > 0.0
    ensures x / d <= x' / d
  {
    Quotient(x' - x, d);
    QuotientsAdd(x, x' - x, d);
  }

  /** A better actual value never leaves less budget. */
  lemma RemainingMonotone(actual: real, actual': real, target: real)
    requires actual <= actual'
    ensures CurrentRemaining(actual, target) <= CurrentRemaining(actual', target) <= 1.0
    ensures CalculateSingleErrorBudget(actual, target) <= CalculateSingleErrorBudget(actual', target)
  {
    BudgetsAgree(actual, target);
    BudgetsAgree(actual', target);
    var total := 1.0 - target;
    if total > 0.0 {
      var x := total - if actual < target then target - actual else 0.0;
      var x' := total - if actual' < target then target - actual' else 0.0;
      QuotientMonotone(x, x', total);
      Quotient(x', total);
    }
  }

  /** Below a target of 1 what remains, as a part of the total, is the total less the shortfall. */
  lemma RemainingExactly(actual: real, target: real)
    requires target < 1.0
    ensures CurrentRemaining(actual, target) * (1.0 - target) ==
            if actual < target then 1.0 - target - (target - actual) else 1.0 - target
  {
    Quotient(if actual < target then 1.0 - target - (target - actual) else 1.0 - target, 1.0 - target);
  }

  /** When nothing and when everything is consumed. */
  lemma BudgetExtremes(actual: real, target: real)
    ensures CalculateSingleErrorBudget(actual, target) == 1.0 <==> target >= 1.0 || actual >= target
    ensures CalculateSingleErrorBudget(actual, target) == 0.0 <==> target < 1.0 && 1.0 - target <= target - actual
  {
    var total := 1.0 - target;
    if total > 0.0 && actual < target {
      var remaining := total - (target - actual);
      Quotient(remaining, total);
      Quotient(target - actual, total);
      Quotient(total, total);
      QuotientsAdd(remaining, target - actual, total);
      Quotient(-remaining, total);
      QuotientsAdd(remaining, -remaining, total);
    }
  }

  // ----- The state of one budget -----

  datatype Policy = Policy(threshold: real, action: string)

  datatype BudgetState = BudgetState(sloName: string, currentRemaining: real, consumedPercent: real,
                                     lastUpdated: int, policyTriggered: seq<string>, burnRate: real,
                                     timeToExhaustion: int)

  function NewState(sloName: string): BudgetState {
    BudgetState(sloName, 0.0, 0.0, 0, [], 0.0, 0)
  }

  /** A zero burn rate is taken for "no estimate yet". */
  function Averaged(burnRate: real, consumed: real): real {
    if burnRate == 0.0 then consumed else 0.9 * burnRate + 0.1 * consumed
  }

  const HOUR: int := 3600 * SECOND

  /** The actions of the policies whose threshold is reached, in configuration order. */
  function Triggered(policies: seq<Policy>, consumed: real): seq<string> {
    if policies == [] then []
    else Triggered(policies[..|policies| - 1], consumed) +
         if consumed >= policies[|policies| - 1].threshold then [policies[|policies| - 1].action] else []
  }

  function Updated(s: BudgetState, policies: seq<Policy>, actual: real, target: real, now: int): BudgetState {
    var remaining := CurrentRemaining(actual, target);
    var burn := Averaged(s.burnRate, 1.0 - remaining);
    BudgetState(s.sloName, remaining, 1.0 - remaining, now, Triggered(policies, 1.0 - remaining), burn,
                if burn > 0.0 && remaining > 0.0 then Truncate(remaining / (burn / 24.0)) * HOUR
                else s.timeToExhaustion)
  }

  /** fmt.Sprintf("%s_%s", sloName, window). */
  function Key(sloName: string, window: string): string {
    sloName + "_" + window
  }

  // ----- Policies -----

  function Best(policies: seq<Policy>, consumed: real): (string, real) {
    if policies == [] then ("", -1.0)
    else
      var best, p := Best(policies[..|policies| - 1], consumed), policies[|policies| - 1];
      if consumed >= p.threshold && p.threshold > best.1 then (p.action, p.threshold) else best
  }

  function Recommended(policies: seq<Policy>, consumed: real): string {
    if Best(policies, consumed).0 != "" then Best(policies, consumed).0 else "continue_normal_operations"
  }

  predicate Reached(p: Policy, consumed: real) {
    consumed >= p.threshold && p.threshold > -1.0
  }

  /** i is the first policy with the highest reached threshold. */
  predicate IsBest(policies: seq<Policy>, consumed: real, i: nat) {
    && i < |policies| && Reached(policies[i], consumed)
    && (forall k | 0 <= k < |policies| && Reached(policies[k], consumed) ::
          policies[k].threshold <= policies[i].threshold)
    && (forall k | 0 <= k < i && Reached(policies[k], consumed) :: policies[k].threshold < policies[i].threshold)
  }

  lemma {:induction false} BestIsBest(policies: seq<Policy>, consumed: real) returns (i: nat)
    ensures i == |policies| ==> Best(policies, consumed) == ("", -1.0) &&
                                forall k | 0 <= k < |policies| :: !Reached(policies[k], consumed)
    ensures i != |policies| ==> IsBest(policies, consumed, i) &&
                                Best(policies, consumed) == (policies[i].action, policies[i].threshold)
  {
    i := 0;
    if policies != [] {
      var n := |policies| - 1;
      var j := BestIsBest(policies[..n], consumed);
      if consumed >= policies[n].threshold && policies[n].threshold > Best(policies[..n], consumed).1 {
        i := n;
      } else if j == n {
        i := n + 1;
      } else {
        i := j;
      }
    }
  }

  /** The recommendation: the action of the first policy with the highest reached threshold, or
      the default when none is reached or that action is empty. */
  lemma RecommendationIsHighest(policies: seq<Policy>, consumed: real)
    ensures (exists i: nat :: IsBest(policies, consumed, i)) <==>
            exists k :: 0 <= k < |policies| && Reached(policies[k], consumed)
    ensures forall i: nat | IsBest(policies, consumed, i) ::
              Recommended(policies, consumed) ==
              if policies[i].action != "" then policies[i].action else "continue_normal_operations"
    ensures (forall k | 0 <= k < |policies| :: !Reached(policies[k], consumed)) ==>
              Recommended(policies, consumed) == "continue_normal_operations"
  {
    var j := BestIsBest(policies, consumed);
    forall i: nat | IsBest(policies, consumed, i)
      ensures i == j
    {
      assert j != |policies|;
      assert policies[i].threshold <= policies[j].threshold <= policies[i].threshold;
    }
  }

  /** Number of policies whose threshold is reached. */
  function ReachedCount(policies: seq<Policy>, consumed: real): nat {
    if policies == [] then 0
    else ReachedCount(policies[..|policies| - 1], consumed) +
         if consumed >= policies[|policies| - 1].threshold then 1 else 0
  }

  /** Each reached policy contributes its action once, in the order of the configuration. */
  lemma {:induction false} TriggeredInOrder(policies: seq<Policy>, consumed: real, i: nat)
    requires i < |policies|
    ensures |Triggered(policies, consumed)| == ReachedCount(policies, consumed)
    ensures consumed >= policies[i].threshold ==>
              ReachedCount(policies[..i], consumed) < |Triggered(policies, consumed)| &&
              Triggered(policies, consumed)[ReachedCount(policies[..i], consumed)] == policies[i].action
  {
    var before := policies[..|policies| - 1];
    if before != [] {
      TriggeredInOrder(before, consumed, if i < |before| then i else 0);
    }
    if i < |before| {
      assert before[..i] == policies[..i];
    } else {
      assert policies[..i] == before;
    }
  }

  lemma {:induction false} TriggeredExactly(policies: seq<Policy>, consumed: real, action: string)
    ensures action in Triggered(policies, consumed) <==>
            exists i :: 0 <= i < |policies| && policies[i].action == action && consumed >= policies[i].threshold
  {
    if policies != [] {
      var n := |policies| - 1;
      TriggeredExactly(policies[..n], consumed, action);
      assert forall i | 0 <= i < n :: policies[..n][i] == policies[i];
    }
  }

  /** The recommended action is the default or one of the triggered policies' actions. */
  lemma {:induction false} RecommendedIsTriggered(policies: seq<Policy>, consumed: real)
    ensures Recommended(policies, consumed) == "continue_normal_operations" ||
            Recommended(policies, consumed) in Triggered(policies, consumed)
  {
    var i := BestIsBest(policies, consumed);
    if i != |policies| && policies[i].action != "" {
      RecommendationIsHighest(policies, consumed);
      TriggeredExactly(policies, consumed, policies[i].action);
    }
  }

  // ----- The burn rate over a run of updates -----

  function BurnAfter(consumed: seq<real>): real {
    if consumed == [] then 0.0
    else Averaged(BurnAfter(consumed[..|consumed| - 1]), consumed[|consumed| - 1])
  }

  /** The moving average stays between the least and the greatest value it was fed, although it
      starts over whenever it is exactly zero. */
  lemma {:induction false} BurnRateConvex(consumed: seq<real>, low: real, high: real)
    requires consumed != [] && forall i | 0 <= i < |consumed| :: low <= consumed[i] <= high
    ensures low <= BurnAfter(consumed) <= high
  {
    if |consumed| > 1 {
      BurnRateConvex(consumed[..|consumed| - 1], low, high);
    }
  }

  function Sum(xs: seq<real>): real {
    if xs == [] then 0.0 else Sum(xs[..|xs| - 1]) + xs[|xs| - 1]
  }

  /** 0.9 to the power of n. */
  function Fading(n: nat): real {
    if n == 0 then 1.0 else 0.9 * Fading(n - 1)
  }

  /** The first value with weight 0.9^(n-1), value i with weight 0.1 * 0.9^(n-1-i). */
  function Weighted(xs: seq<real>): (w: seq<real>)
    ensures |w| == |xs|
    ensures forall i | 0 <= i < |xs| :: w[i] == (if i == 0 then 1.0 else 0.1) * Fading(|xs| - 1 - i) * xs[i]
  {
    seq(|xs|, i requires 0 <= i < |xs| => (if i == 0 then 1.0 else 0.1) * Fading(|xs| - 1 - i) * xs[i])
  }

  lemma Scaled(w: real, f: real, x: real)
    ensures w * (0.9 * f) * x == 0.9 * (w * f * x)
  {
  }

  lemma {:induction false} SumScaled(xs: seq<real>, ys: seq<real>)
    requires |xs| == |ys| && forall i | 0 <= i < |xs| :: ys[i] == 0.9 * xs[i]
    ensures Sum(ys) == 0.9 * Sum(xs)
  {
    if xs != [] {
      SumScaled(xs[..|xs| - 1], ys[..|ys| - 1]);
    }
  }

  /** One more value fades all weights by 0.9 and comes in with 0.1. */
  lemma {:induction false} WeightedStep(xs: seq<real>, x: real)
    requires xs != []
    ensures Sum(Weighted(xs + [x])) == 0.9 * Sum(Weighted(xs)) + 0.1 * x
  {
    var n, longer := |xs|, Weighted(xs + [x]);
    forall i | 0 <= i < n
      ensures longer[..n][i] == 0.9 * Weighted(xs)[i]
    {
      assert Fading(n - i) == 0.9 * Fading(n - 1 - i);
      Scaled(if i == 0 then 1.0 else 0.1, Fading(n - 1 - i), xs[i]);
    }
    SumScaled(Weighted(xs), longer[..n]);
    assert Fading(0) == 1.0;
  }

  lemma BurnStep(xs: seq<real>, x: real)
    ensures BurnAfter(xs + [x]) == Averaged(BurnAfter(xs), x)
  {
    assert (xs + [x])[..|xs|] == xs;
  }

  function Zeros(n: nat): (z: seq<real>)
    ensures |z| == n && forall i | 0 <= i < n :: z[i] == 0.0
  {
    seq(n, _ => 0.0)
  }

  lemma {:induction false} BurnOfZeros(n: nat)
    ensures BurnAfter(Zeros(n)) == 0.0
  {
    if n > 0 {
      BurnOfZeros(n - 1);
      assert Zeros(n) == Zeros(n - 1) + [0.0];
      BurnStep(Zeros(n - 1), 0.0);
    }
  }

  lemma WeightedOne(x: real)
    ensures Sum(Weighted([x])) == x
  {
    assert Fading(0) == 1.0;
    assert Weighted([x])[..0] == [];
  }

  /** Exactly what the moving average is, for the consumptions that occur, which are never
      negative: zeros before the first positive one leave no trace, and the rest is weighted. */
  lemma {:induction false} BurnRateExactly(zeros: nat, xs: seq<real>)
    requires xs != [] && xs[0] > 0.0 && forall i | 0 <= i < |xs| :: xs[i] >= 0.0
    ensures BurnAfter(Zeros(zeros)) == 0.0
    ensures BurnAfter(Zeros(zeros) + xs) == Sum(Weighted(xs)) > 0.0
  {
    hide BurnAfter, Weighted, Sum;
    var before, x := xs[..|xs| - 1], xs[|xs| - 1];
    BurnOfZeros(zeros);
    BurnStep(Zeros(zeros) + before, x);
    assert Zeros(zeros) + xs == Zeros(zeros) + before + [x];
    if before == [] {
      assert Zeros(zeros) + before == Zeros(zeros) && xs == [x];
      WeightedOne(x);
    } else {
      BurnRateExactly(zeros, before);
      assert xs == before + [x];
      WeightedStep(before, x);
    }
  }

  datatype Sample = Sample(actual: real, target: real, at: int)

  function UpdatedAll(s: BudgetState, policies: seq<Policy>, samples: seq<Sample>): BudgetState {
    if samples == [] then s
    else
      var x := samples[|samples| - 1];
      Updated(UpdatedAll(s, policies, samples[..|samples| - 1]), policies, x.actual, x.target, x.at)
  }

  function Consumptions(samples: seq<Sample>): (c: seq<real>)
    ensures |c| == |samples|
    ensures forall i | 0 <= i < |samples| :: c[i] == 1.0 - CurrentRemaining(samples[i].actual, samples[i].target)
  {
    seq(|samples|, i requires 0 <= i < |samples| =>
      1.0 - CurrentRemaining(samples[i].actual, samples[i].target))
  }

  lemma {:induction false} BurnIsAverage(name: string, policies: seq<Policy>, samples: seq<Sample>)
    ensures UpdatedAll(NewState(name), policies, samples).burnRate == BurnAfter(Consumptions(samples))
  {
    hide CurrentRemaining;
    if samples != [] {
      var before := samples[..|samples| - 1];
      BurnIsAverage(name, policies, before);
      assert Consumptions(samples)[..|samples| - 1] == Consumptions(before);
    }
  }

  lemma {:induction false} NameStays(name: string, policies: seq<Policy>, samples: seq<Sample>)
    ensures UpdatedAll(NewState(name), policies, samples).sloName == name
  {
    if samples != [] {
      NameStays(name, policies, samples[..|samples| - 1]);
    }
  }

  /** The state after any non-empty run of updates: never negative, its burn rate within the
      consumptions seen, its triggered policies those of the last consumption. */
  lemma {:induction false} BurnRateOfState(name: string, policies: seq<Policy>, samples: seq<Sample>,
                                           low: real, high: real)
    requires samples != []
    requires forall i | 0 <= i < |samples| ::
               low <= 1.0 - CurrentRemaining(samples[i].actual, samples[i].target) <= high
    ensures var s := UpdatedAll(NewState(name), policies, samples);
            && 0.0 <= s.burnRate && low <= s.burnRate <= high
            && s.policyTriggered == Triggered(policies, s.consumedPercent)
            && s.consumedPercent == 1.0 - s.currentRemaining
            && var last := samples[|samples| - 1];
               && s.currentRemaining == CurrentRemaining(last.actual, last.target)
               && s.lastUpdated == last.at && s.sloName == name
  {
    NameStays(name, policies, samples);
    BurnIsAverage(name, policies, samples);
    forall i | 0 <= i < |samples|
      ensures 0.0 <= Consumptions(samples)[i] <= high
    {
      RemainingMonotone(samples[i].actual, samples[i].actual, samples[i].target);
    }
    BurnRateConvex(Consumptions(samples), low, high);
    BurnRateConvex(Consumptions(samples), 0.0, high);
  }

  /** One call of updateSingleErrorBudget. */
  datatype Update = Update(sloName: string, window: string, sample: Sample)

  /** The manager's map after a sequence of updates, each computed as the method does. */
  function Budgets(policies: seq<Policy>, updates: seq<Update>): map<string, BudgetState> {
    if updates == [] then map[]
    else
      var before, u := Budgets(policies, updates[..|updates| - 1]), updates[|updates| - 1];
      var key := Key(u.sloName, u.window);
      before[key := Updated(if key in before then before[key] else NewState(u.sloName),
                            policies, u.sample.actual, u.sample.target, u.sample.at)]
  }

  /** The updates of a sequence that go to one key. */
  function UpdatesOf(updates: seq<Update>, key: string): seq<Update> {
    if updates == [] then []
    else
      var u := updates[|updates| - 1];
      UpdatesOf(updates[..|updates| - 1], key) + if Key(u.sloName, u.window) == key then [u] else []
  }

  function Samples(updates: seq<Update>): (s: seq<Sample>)
    ensures |s| == |updates| && forall i | 0 <= i < |updates| :: s[i] == updates[i].sample
  {
    seq(|updates|, i requires 0 <= i < |updates| => updates[i].sample)
  }

  /** However updates of different budgets interleave, the state under a key is what the updates
      of that key alone produce: named after the first of them, from the samples of all. */
  lemma {:induction false} BudgetsAreIndependent(policies: seq<Policy>, updates: seq<Update>, key: string)
    ensures key in Budgets(policies, updates) <==> UpdatesOf(updates, key) != []
    ensures key in Budgets(policies, updates) ==>
              var own := UpdatesOf(updates, key);
              Budgets(policies, updates)[key] == UpdatedAll(NewState(own[0].sloName), policies, Samples(own))
  {
    if updates != [] {
      var before, u := updates[..|updates| - 1], updates[|updates| - 1];
      BudgetsAreIndependent(policies, before, key);
      var own := UpdatesOf(before, key);
      if Key(u.sloName, u.window) == key {
        var samples := Samples(own + [u]);
        assert samples[..|samples| - 1] == Samples(own);
        hide Updated;
        assert UpdatesOf(updates, key)[0].sloName == if own == [] then u.sloName else own[0].sloName;
      } else {
        assert UpdatesOf(updates, key) == own;
      }
    }
  }

  /** The exhaustion estimate is a whole number of hours, at most one hour short of the exact
      quotient; once nothing remains the previous estimate is kept. */
  lemma ExhaustionEstimate(s: BudgetState, policies: seq<Policy>, actual: real, target: real, now: int)
    ensures var s' := Updated(s, policies, actual, target, now);
            if s'.burnRate > 0.0 && s'.currentRemaining > 0.0
            then exists hours: int :: s'.timeToExhaustion == hours * HOUR &&
                   hours as real <= s'.currentRemaining / (s'.burnRate / 24.0) < hours as real + 1.0
            else s'.timeToExhaustion == s.timeToExhaustion
  {
    var s' := Updated(s, policies, actual, target, now);
    if s'.burnRate > 0.0 && s'.currentRemaining > 0.0 {
      var exact := s'.currentRemaining / (s'.burnRate / 24.0);
      Quotient(s'.currentRemaining, s'.burnRate / 24.0);
      assert s'.timeToExhaustion == Truncate(exact) * HOUR;
    }
  }

  // ----- The manager -----

  class Manager {
    const policies: seq<Policy>
    var errorBudgets: map<string, BudgetState>

    constructor (policies: seq<Policy>)
      ensures this.policies == policies && errorBudgets == map[]
    {
      this.policies := policies;
      errorBudgets := map[];
    }

    method CheckErrorBudgetPolicies(state: BudgetState) returns (s: BudgetState)
      ensures s == state.(policyTriggered := Triggered(policies, state.consumedPercent))
    {
      var triggered: seq<string> := [];
      for i := 0 to |policies|
        invariant triggered == Triggered(policies[..i], state.consumedPercent)
      {
        assert policies[..i + 1][..i] == policies[..i];
        if state.consumedPercent >= policies[i].threshold {
          triggered := triggered + [policies[i].action];
        }
      }
      assert policies[..|policies|] == policies;
      s := state.(policyTriggered := triggered);
    }

    method UpdateSingleErrorBudget(sloName: string, actual: real, target: real, window: string, now: int)
      modifies this
      ensures var key := Key(sloName, window);
              var was := if key in old(errorBudgets) then old(errorBudgets)[key] else NewState(sloName);
              errorBudgets == old(errorBudgets)[key := Updated(was, policies, actual, target, now)]
    {
      var key := sloName + "_" + window;
      var state := if key in errorBudgets then errorBudgets[key] else NewState(sloName);
      var errorBudgetTotal := 1.0 - target;
      var errorBudgetConsumed := 0.0;
      if actual < target {
        errorBudgetConsumed := target - actual;
      }
      var remaining := 1.0;
      if errorBudgetTotal > 0.0 {
        remaining := (errorBudgetTotal - errorBudgetConsumed) / errorBudgetTotal;
      }
      assert remaining == CurrentRemaining(actual, target);
      hide CurrentRemaining;
      state := state.(currentRemaining := remaining, consumedPercent := 1.0 - remaining, lastUpdated := now);
      if state.burnRate == 0.0 {
        state := state.(burnRate := state.consumedPercent);
      } else {
        state := state.(burnRate := 0.9 * state.burnRate + 0.1 * state.consumedPercent);
      }
      if state.burnRate > 0.0 && state.currentRemaining > 0.0 {
        var hoursRemaining := state.currentRemaining / (state.burnRate / 24.0);
        state := state.(timeToExhaustion := Truncate(hoursRemaining) * HOUR);
      }
      state := CheckErrorBudgetPolicies(state);
      errorBudgets := errorBudgets[key := state];
    }

    /** GetRecommendedAction: the reached policy with the highest threshold above -1. */
    method GetRecommendedAction(consumed: real) returns (action: string)
      ensures action == Recommended(policies, consumed)
    {
      var applicable := "";
      var highest := -1.0;
      for i := 0 to |policies|
        invariant Best(policies[..i], consumed) == (applicable, highest)
      {
        assert policies[..i + 1][..i] == policies[..i];
        if consumed >= policies[i].threshold && policies[i].threshold > highest {
          applicable := policies[i].action;
          highest := policies[i].threshold;
        }
      }
      assert policies[..|policies|] == policies;
      if applicable != "" {
        return applicable;
      }
      action := "continue_normal_operations";
    }
  }
}
