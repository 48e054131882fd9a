/** The error budget manager: its bounded history, what it computes from it, and its report
    statistics. */
module BudgetHistory {
  import opened Common
  import EB = ErrorBudget

  datatype Snapshot = Snapshot(timestamp: int, remaining: real, consumedPercent: real, burnRate: real,
                               sloName: string, window: string)

  const LIMIT: nat := 1000

  function KeyOf(s: Snapshot): string {
    EB.Key(s.sloName, s.window)
  }

  // ----- The bounded history -----

  /** The last n elements, or all if there are fewer. */
  function Last<T>(s: seq<T>, n: nat): (r: seq<T>)
    ensures |r| <= n && |r| <= |s| && r == s[|s| - |r|..]
    ensures |r| == n || r == s
  {
    if |s| <= n then s else s[|s| - n..]
  }

  type History = map<string, seq<Snapshot>>

  function Recorded(h: History, s: Snapshot): History {
    var key := KeyOf(s);
    h[key := Last((if key in h then h[key] else []) + [s], LIMIT)]
  }

  function RecordedOnto(h: History, log: seq<Snapshot>): History {
    if log == [] then h else Recorded(RecordedOnto(h, log[..|log| - 1]), log[|log| - 1])
  }

  function RecordedAll(log: seq<Snapshot>): History {
    RecordedOnto(map[], log)
  }

  lemma {:induction false} OntoStep(h: History, log: seq<Snapshot>, i: nat)
    requires i < |log|
    ensures RecordedOnto(h, log[..0]) == h
    ensures RecordedOnto(h, log[..i + 1]) == Recorded(RecordedOnto(h, log[..i]), log[i])
  {
    hide Recorded;
    assert log[..i + 1][..i] == log[..i];
  }

  /** Recording never empties a history. */
  lemma {:induction false} StaysRecorded(h: History, log: seq<Snapshot>, key: string)
    requires key in h && h[key] != []
    ensures key in RecordedOnto(h, log) && RecordedOnto(h, log)[key] != []
  {
    if log != [] {
      StaysRecorded(h, log[..|log| - 1], key);
    }
  }

  /** The snapshots of a log recorded under a key. */
  function Under(log: seq<Snapshot>, key: string): seq<Snapshot> {
    if log == [] then []
    else Under(log[..|log| - 1], key) + if KeyOf(log[|log| - 1]) == key then [log[|log| - 1]] else []
  }

  lemma LastOfLast<T>(s: seq<T>, x: T, n: nat)
    requires n > 0
    ensures Last(Last(s, n) + [x], n) == Last(s + [x], n)
  {
  }

  /** What a history holds under a key, and what was recorded there in all. */
  predicate Holds(h: History, key: string, recorded: seq<Snapshot>) {
    if key in h then recorded != [] && h[key] == Last(recorded, LIMIT) else recorded == []
  }

  lemma RecordingHolds(h: History, s: Snapshot, key: string, recorded: seq<Snapshot>)
    requires Holds(h, key, recorded)
    ensures Holds(Recorded(h, s), key, recorded + if KeyOf(s) == key then [s] else [])
  {
    hide Last, KeyOf;
    if KeyOf(s) == key {
      LastOfLast(recorded, s, LIMIT);
      assert Last<Snapshot>([], LIMIT) == [];
    } else {
      assert recorded + [] == recorded;
    }
  }

  lemma {:induction false} HistoryHolds(log: seq<Snapshot>, key: string)
    ensures Holds(RecordedAll(log), key, Under(log, key))
  {
    if log != [] {
      hide Holds, Recorded, KeyOf, Last;
      HistoryHolds(log[..|log| - 1], key);
      RecordingHolds(RecordedAll(log[..|log| - 1]), log[|log| - 1], key, Under(log[..|log| - 1], key));
    }
  }

  /** Trimming one snapshot at a time keeps exactly the last 1000 snapshots of each key, and no
      key sees those of another. */
  lemma {:induction false} HistoryIsSuffix(log: seq<Snapshot>, key: string)
    ensures key in RecordedAll(log) <==> Under(log, key) != []
    ensures key in RecordedAll(log) ==> RecordedAll(log)[key] == Last(Under(log, key), LIMIT)
  {
    HistoryHolds(log, key);
  }

  // ----- Keys -----

  predicate EndsWith(s: string, suffix: string) {
    |suffix| <= |s| && s[|s| - |suffix|..] == suffix
  }

  lemma KeyTail(slo: string, window: string)
    ensures EndsWith(EB.Key(slo, window), window)
    ensures EndsWith(EB.Key(slo, window), "_" + window)
  {
    assert EB.Key(slo, window) == slo + ("_" + window);
  }

  lemma LongerWindow(slo: string, window: string, slo': string, window': string)
    requires EB.Key(slo, window) == EB.Key(slo', window') && |window| < |window'|
    ensures EndsWith(window', "_" + window)
  {
    var k := EB.Key(slo, window);
    KeyTail(slo, window);
    KeyTail(slo', window');
    var n := |window| + 1;
    assert window'[|window'| - n..] == k[|k| - |window'|..][|window'| - n..] == k[|k| - n..];
  }

  lemma SameLengthWindow(slo: string, window: string, slo': string, window': string)
    requires EB.Key(slo, window) == EB.Key(slo', window') && |window| == |window'|
    ensures slo == slo' && window == window'
  {
    KeyTail(slo, window);
    KeyTail(slo', window');
    assert EB.Key(slo, window)[..|slo|] == slo;
    assert EB.Key(slo', window')[..|slo'|] == slo';
  }

  lemma CollisionWitness(window: string, window': string)
    requires EndsWith(window', "_" + window)
    ensures exists slo :: EB.Key(slo, window) == EB.Key("", window') && window != window'
  {
    var p := window'[..|window'| - |window| - 1];
    assert window' == p + ("_" + window);
    assert EB.Key("_" + p, window) == EB.Key("", window');
  }

  /** Two windows can make different SLOs collide exactly when one of them ends in an underscore
      followed by the other. */
  lemma KeysCollide(window: string, window': string)
    ensures (exists slo, slo' ::
               EB.Key(slo, window) == EB.Key(slo', window') && (slo != slo' || window != window')) <==>
            EndsWith(window', "_" + window) || EndsWith(window, "_" + window')
  {
    if slo, slo' :| EB.Key(slo, window) == EB.Key(slo', window') && (slo != slo' || window != window') {
      if |window| == |window'| {
        SameLengthWindow(slo, window, slo', window');
      } else if |window| < |window'| {
        LongerWindow(slo, window, slo', window');
      } else {
        LongerWindow(slo', window', slo, window);
      }
    }
    if EndsWith(window', "_" + window) {
      CollisionWitness(window, window');
    }
    if EndsWith(window, "_" + window') {
      CollisionWitness(window', window);
    }
  }

  lemma UnderscoreInside(window: string, window': string)
    ensures EndsWith(window', "_" + window) ==> '_' in window'
  {
    if EndsWith(window', "_" + window) {
      assert window'[|window'| - |window| - 1] == '_';
    }
  }

  /** Without an underscore in the window names the key determines SLO and window. */
  lemma KeyInjective(slo: string, window: string, slo': string, window': string)
    requires '_' !in window && '_' !in window'
    ensures EB.Key(slo, window) == EB.Key(slo', window') <==> slo == slo' && window == window'
  {
    if EB.Key(slo, window) == EB.Key(slo', window') {
      KeysCollide(window, window');
      UnderscoreInside(window, window');
      UnderscoreInside(window', window);
    }
  }

  /** The snapshots of a log recorded for an SLO and a window. */
  function Of(log: seq<Snapshot>, slo: string, window: string): seq<Snapshot> {
    if log == [] then []
    else
      var s := log[|log| - 1];
      Of(log[..|log| - 1], slo, window) + if s.sloName == slo && s.window == window then [s] else []
  }

  lemma {:induction false} UnderIsOf(log: seq<Snapshot>, slo: string, window: string)
    requires '_' !in window && forall i | 0 <= i < |log| :: '_' !in log[i].window
    ensures Under(log, EB.Key(slo, window)) == Of(log, slo, window)
  {
    if log != [] {
      var s := log[|log| - 1];
      UnderIsOf(log[..|log| - 1], slo, window);
      KeyInjective(s.sloName, s.window, slo, window);
    }
  }

  /** Without underscores in the windows, the history of an SLO and a window is exactly the last
      1000 snapshots recorded for that SLO and that window. */
  lemma {:induction false} HistoryOfPair(log: seq<Snapshot>, slo: string, window: string)
    requires '_' !in window && forall i | 0 <= i < |log| :: '_' !in log[i].window
    ensures var h, key := RecordedAll(log), EB.Key(slo, window);
            (if key in h then h[key] else []) == Last(Of(log, slo, window), LIMIT)
  {
    HistoryIsSuffix(log, EB.Key(slo, window));
    UnderIsOf(log, slo, window);
  }

  // ----- The burn rate over a period -----

  datatype BurnResult = Rate(perHour: real) | InsufficientData | NoSnapshots | InvalidInterval

  /** The first snapshot after instant t, or |s|. */
  function FirstAfter(s: seq<Snapshot>, t: int): (i: nat)
    ensures i <= |s| && (forall k | 0 <= k < i :: s[k].timestamp <= t)
    ensures i < |s| ==> s[i].timestamp > t
    decreases |s|
  {
    if s == [] then 0
    else
      var i := FirstAfter(s[..|s| - 1], t);
      if i < |s| - 1 then i else if s[|s| - 1].timestamp > t then |s| - 1 else |s|
  }

  function Abs(x: real): real {
    if x < 0.0 then -x else x
  }

  /** From the last snapshot not after the start of the period (or the first of all) to the newest. */
  function BurnOver(s: seq<Snapshot>, periodStart: int): BurnResult {
    if |s| < 2 then InsufficientData
    else
      var i := FirstAfter(s, periodStart);
      if i == |s| then NoSnapshots
      else
        var first, last := s[if i > 0 then i - 1 else 0], s[|s| - 1];
        if last.timestamp <= first.timestamp then InvalidInterval
        else Rate(Abs(first.consumedPercent - last.consumedPercent) /
                  ((last.timestamp - first.timestamp) as real / EB.HOUR as real))
  }

  lemma Regroup(rate: real, hours: real, hour: real)
    ensures rate * (hours * hour) == rate * hours * hour
  {
  }

  lemma PerHour(change: real, elapsed: real, hour: real)
    requires elapsed > 0.0 && hour > 0.0
    ensures change / (elapsed / hour) * elapsed == change * hour
  {
    EB.Quotient(elapsed, hour);
    var hours := elapsed / hour;
    EB.Quotient(change, hours);
    var rate := change / hours;
    Regroup(rate, hours, hour);
  }

  predicate InOrder(s: seq<Snapshot>) {
    forall i, j | 0 <= i < j < |s| :: s[i].timestamp <= s[j].timestamp
  }

  /** For snapshots in the order of time a rate comes out exactly when there are two, the newest
      lies in the period, and not all were taken at one instant; it is never negative. */
  lemma BurnRateDefined(s: seq<Snapshot>, periodStart: int)
    requires InOrder(s)
    ensures BurnOver(s, periodStart).Rate? <==>
            |s| >= 2 && s[|s| - 1].timestamp > periodStart && s[|s| - 1].timestamp > s[0].timestamp
    ensures BurnOver(s, periodStart).Rate? ==> BurnOver(s, periodStart).perHour >= 0.0
  {
    var r := BurnOver(s, periodStart);
    if r.Rate? {
      var i := FirstAfter(s, periodStart);
      var first, last := s[if i > 0 then i - 1 else 0], s[|s| - 1];
      EB.Quotient((last.timestamp - first.timestamp) as real, EB.HOUR as real);
      EB.Quotient(Abs(first.consumedPercent - last.consumedPercent),
                  (last.timestamp - first.timestamp) as real / EB.HOUR as real);
    }
  }

  /** i is the last snapshot not after the start of the period, or 0 if there is none. */
  predicate StartsPeriod(s: seq<Snapshot>, periodStart: int, i: nat) {
    && i < |s|
    && (i > 0 ==> s[i].timestamp <= periodStart)
    && (forall k | i < k < |s| :: s[k].timestamp > periodStart)
  }

  /** perHour is the absolute change of the consumption from snapshot i to the newest, per hour. */
  predicate IsRateSince(s: seq<Snapshot>, i: nat, perHour: real)
    requires i < |s|
  {
    var last := s[|s| - 1];
    && last.timestamp > s[i].timestamp
    && perHour * (last.timestamp - s[i].timestamp) as real ==
       Abs(s[i].consumedPercent - last.consumedPercent) * EB.HOUR as real
  }

  lemma RateSince(s: seq<Snapshot>, i: nat)
    requires i < |s| && s[|s| - 1].timestamp > s[i].timestamp
    ensures var last := s[|s| - 1];
            IsRateSince(s, i, Abs(s[i].consumedPercent - last.consumedPercent) /
                              ((last.timestamp - s[i].timestamp) as real / EB.HOUR as real))
  {
    hide Abs;
    var last := s[|s| - 1];
    PerHour(Abs(s[i].consumedPercent - last.consumedPercent), (last.timestamp - s[i].timestamp) as real,
            EB.HOUR as real);
  }

  /** For snapshots in the order of time, the snapshot that a rate is measured from, and the rate. */
  lemma {:induction false} BurnRateExactly(s: seq<Snapshot>, periodStart: int)
    requires InOrder(s) && BurnOver(s, periodStart).Rate?
    ensures exists i: nat ::
              StartsPeriod(s, periodStart, i) && IsRateSince(s, i, BurnOver(s, periodStart).perHour)
  {
    hide Abs, IsRateSince;
    var f := FirstAfter(s, periodStart);
    var i: nat := if f > 0 then f - 1 else 0;
    RateSince(s, i);
    assert StartsPeriod(s, periodStart, i);
  }

  // ----- Violations, declaratively -----

  predicate Violates(s: Snapshot, warning: real) {
    s.consumedPercent >= warning
  }

  /** Snapshots i, ..., j-1 are a maximal run of violations. */
  predicate IsRun(s: seq<Snapshot>, warning: real, i: int, j: int) {
    && 0 <= i < j <= |s|
    && (forall k | i <= k < j :: Violates(s[k], warning))
    && (i == 0 || !Violates(s[i - 1], warning))
    && (j == |s| || !Violates(s[j], warning))
  }

  predicate StartsRun(s: seq<Snapshot>, warning: real, i: int) {
    0 <= i < |s| && Violates(s[i], warning) && (i == 0 || !Violates(s[i - 1], warning))
  }

  /** Number of runs that start among the first n snapshots. */
  function Runs(s: seq<Snapshot>, warning: real, n: nat): nat
    requires n <= |s|
  {
    if n == 0 then 0 else Runs(s, warning, n - 1) + if StartsRun(s, warning, n - 1) then 1 else 0
  }

  /** Counting starts counts runs: each run has one start, and each start opens one run. */
  lemma RunsHaveStarts(s: seq<Snapshot>, warning: real, i: int)
    ensures StartsRun(s, warning, i) <==> exists j :: IsRun(s, warning, i, j)
    ensures forall j, j' | IsRun(s, warning, i, j) && IsRun(s, warning, i, j') :: j == j'
  {
    if StartsRun(s, warning, i) {
      var j := i + 1;
      while j < |s| && Violates(s[j], warning)
        invariant i < j <= |s| && forall k | i <= k < j :: Violates(s[k], warning)
      {
        j := j + 1;
      }
      assert IsRun(s, warning, i, j);
    }
  }

  /** A run lasts to the first snapshot after it, an open run to `now`. */
  function Duration(s: seq<Snapshot>, i: int, j: int, now: int): int
    requires 0 <= i < j <= |s|
  {
    (if j < |s| then s[j].timestamp else now) - s[i].timestamp
  }

  /** `longest` is the largest of 0 and the durations of the runs that end before n. */
  ghost predicate IsLongest(s: seq<Snapshot>, warning: real, n: int, now: int, longest: int) {
    && longest >= 0
    && (forall i, j | IsRun(s, warning, i, j) && j < n :: Duration(s, i, j, now) <= longest)
    && (longest == 0 || exists i, j :: IsRun(s, warning, i, j) && j < n && Duration(s, i, j, now) == longest)
  }

  function SumRemaining(s: seq<Snapshot>, n: nat): real
    requires n <= |s|
  {
    if n == 0 then 0.0 else SumRemaining(s, n - 1) + s[n - 1].remaining
  }

  /** Number and sum of the positive burn rates. */
  function BurnCount(s: seq<Snapshot>, n: nat): nat
    requires n <= |s|
  {
    if n == 0 then 0 else BurnCount(s, n - 1) + if s[n - 1].burnRate > 0.0 then 1 else 0
  }

  function BurnSum(s: seq<Snapshot>, n: nat): real
    requires n <= |s|
  {
    if n == 0 then 0.0 else BurnSum(s, n - 1) + if s[n - 1].burnRate > 0.0 then s[n - 1].burnRate else 0.0
  }

  /** The mean, or 0 of nothing. */
  function Average(sum: real, n: nat): real {
    if n > 0 then sum / n as real else 0.0
  }

  datatype Statistics = Statistics(minRemaining: real, maxRemaining: real, avgRemaining: real,
                                   minBurnRate: real, maxBurnRate: real, avgBurnRate: real,
                                   totalViolations: nat, longestViolation: int)

  /** least is the minimum of the initial value and the remaining budgets, greatest the maximum. */
  predicate Extremes(s: seq<Snapshot>, n: nat, least: real, greatest: real)
    requires n <= |s|
  {
    && least <= 1.0 && greatest >= 0.0
    && (forall k | 0 <= k < n :: least <= s[k].remaining <= greatest)
    && (least == 1.0 || exists k :: 0 <= k < n && s[k].remaining == least)
    && (greatest == 0.0 || exists k :: 0 <= k < n && s[k].remaining == greatest)
  }

  /** The same for the positive burn rates, starting from 1e9 and 0. */
  predicate BurnExtremes(s: seq<Snapshot>, n: nat, least: real, greatest: real)
    requires n <= |s|
  {
    && least <= 1_000_000_000.0 && greatest >= 0.0
    && (forall k | 0 <= k < n && s[k].burnRate > 0.0 :: least <= s[k].burnRate <= greatest)
    && (least == 1_000_000_000.0 || exists k :: 0 <= k < n && s[k].burnRate > 0.0 && s[k].burnRate == least)
    && (greatest == 0.0 || exists k :: 0 <= k < n && s[k].burnRate > 0.0 && s[k].burnRate == greatest)
  }

  // ----- One pass over the snapshots -----

  /** The accumulators of the pass. */
  datatype BurnScan = BurnScan(min: real, max: real, total: real, count: nat)

  datatype Scan = Scan(minRemaining: real, maxRemaining: real, totalRemaining: real, burn: BurnScan,
                       inViolation: bool, violationStart: int, violations: nat, longest: int)

  function Absorbed(scan: Scan, s: Snapshot, warning: real): Scan {
    var b, v := scan.burn, Violates(s, warning);
    Scan(if s.remaining < scan.minRemaining then s.remaining else scan.minRemaining,
         if s.remaining > scan.maxRemaining then s.remaining else scan.maxRemaining,
         scan.totalRemaining + s.remaining,
         if s.burnRate <= 0.0 then b
         else BurnScan(if s.burnRate < b.min then s.burnRate else b.min,
                       if s.burnRate > b.max then s.burnRate else b.max, b.total + s.burnRate, b.count + 1),
         v,
         if v && !scan.inViolation then s.timestamp else scan.violationStart,
         if v && !scan.inViolation then scan.violations + 1 else scan.violations,
         if !v && scan.inViolation && s.timestamp - scan.violationStart > scan.longest
         then s.timestamp - scan.violationStart else scan.longest)
  }

  /** Snapshots start, ..., n-1 violate, and the run began at start. */
  predicate OpenRun(s: seq<Snapshot>, warning: real, start: int, n: int) {
    && 0 <= start < n <= |s|
    && (forall k | start <= k < n :: Violates(s[k], warning))
    && (start == 0 || !Violates(s[start - 1], warning))
  }

  /** What the accumulators mean after n snapshots; an open run began at `start`. */
  ghost predicate Scanned(s: seq<Snapshot>, warning: real, now: int, n: nat, scan: Scan, start: int)
    requires n <= |s|
  {
    && Extremes(s, n, scan.minRemaining, scan.maxRemaining)
    && scan.totalRemaining == SumRemaining(s, n)
    && BurnExtremes(s, n, scan.burn.min, scan.burn.max)
    && scan.burn.total == BurnSum(s, n) && scan.burn.count == BurnCount(s, n)
    && scan.violations == Runs(s, warning, n)
    && scan.inViolation == (n > 0 && Violates(s[n - 1], warning))
    && (scan.inViolation ==> OpenRun(s, warning, start, n) && scan.violationStart == s[start].timestamp)
    && IsLongest(s, warning, n, now, scan.longest)
  }

  lemma OpenRunStart(s: seq<Snapshot>, warning: real, start: int, n: nat)
    ensures OpenRun(s, warning, start, n) ==> 0 <= start < n <= |s|
  {
  }

  /** What one more snapshot does to the sums, the number of runs and the open run. */
  lemma ScanStep(s: seq<Snapshot>, warning: real, start: int, n: nat)
    requires n < |s|
    requires n > 0 && Violates(s[n - 1], warning) ==> OpenRun(s, warning, start, n)
    ensures SumRemaining(s, n + 1) == SumRemaining(s, n) + s[n].remaining
    ensures BurnCount(s, n + 1) == BurnCount(s, n) + if s[n].burnRate > 0.0 then 1 else 0
    ensures BurnSum(s, n + 1) == if s[n].burnRate > 0.0 then BurnSum(s, n) + s[n].burnRate else BurnSum(s, n)
    ensures Runs(s, warning, n + 1) ==
            Runs(s, warning, n) + if Violates(s[n], warning) && !(n > 0 && Violates(s[n - 1], warning)) then 1 else 0
    ensures Violates(s[n], warning) ==>
              OpenRun(s, warning, if n > 0 && Violates(s[n - 1], warning) then start else n, n + 1)
  {
  }

  lemma ExtremesStep(s: seq<Snapshot>, n: nat, least: real, greatest: real)
    requires n < |s| && Extremes(s, n, least, greatest)
    ensures Extremes(s, n + 1, if s[n].remaining < least then s[n].remaining else least,
                     if s[n].remaining > greatest then s[n].remaining else greatest)
  {
  }

  lemma BurnExtremesStep(s: seq<Snapshot>, n: nat, least: real, greatest: real)
    requires n < |s| && BurnExtremes(s, n, least, greatest)
    ensures BurnExtremes(s, n + 1,
                         if s[n].burnRate > 0.0 && s[n].burnRate < least then s[n].burnRate else least,
                         if s[n].burnRate > 0.0 && s[n].burnRate > greatest then s[n].burnRate else greatest)
  {
  }

  lemma OneStart(s: seq<Snapshot>, warning: real, i: int, i': int, j: int)
    requires IsRun(s, warning, i, j) && IsRun(s, warning, i', j)
    ensures i == i'
  {
  }

  /** Reaching position n closes the open run if snapshot n does not violate (or is missing),
      and no other run ends there. */
  lemma LongestStep(s: seq<Snapshot>, warning: real, start: int, n: nat, now: int, longest: int)
    requires n <= |s| && IsLongest(s, warning, n, now, longest)
    requires n > 0 && Violates(s[n - 1], warning) ==> OpenRun(s, warning, start, n)
    ensures var closes := n > 0 && Violates(s[n - 1], warning) && (n == |s| || !Violates(s[n], warning));
            IsLongest(s, warning, n + 1, now,
                      if closes && Duration(s, start, n, now) > longest then Duration(s, start, n, now) else longest)
  {
    if n > 0 && Violates(s[n - 1], warning) && (n == |s| || !Violates(s[n], warning)) {
      assert IsRun(s, warning, start, n);
      forall i | IsRun(s, warning, i, n)
        ensures i == start
      {
        assert StartsRun(s, warning, i) && StartsRun(s, warning, start);
        OneStart(s, warning, i, start, n);
      }
    }
  }

  lemma ScannedStep(s: seq<Snapshot>, warning: real, now: int, n: nat, scan: Scan, start: int)
    returns (start': int)
    requires n < |s| && Scanned(s, warning, now, n, scan, start)
    ensures Scanned(s, warning, now, n + 1, Absorbed(scan, s[n], warning), start')
  {
    start' := if scan.inViolation then start else n;
    hide Extremes, BurnExtremes, IsLongest, OpenRun, Violates, Runs, SumRemaining, BurnSum, BurnCount;
    ScanStep(s, warning, start, n);
    ExtremesStep(s, n, scan.minRemaining, scan.maxRemaining);
    BurnExtremesStep(s, n, scan.burn.min, scan.burn.max);
    OpenRunStart(s, warning, start, n);
    LongestStep(s, warning, start, n, now, scan.longest);
  }

  lemma ScannedMeans(s: seq<Snapshot>, warning: real, now: int, scan: Scan, start: int)
    requires s != [] && Scanned(s, warning, now, |s|, scan, start)
    ensures Extremes(s, |s|, scan.minRemaining, scan.maxRemaining)
    ensures scan.totalRemaining == SumRemaining(s, |s|)
    ensures BurnExtremes(s, |s|, scan.burn.min, scan.burn.max)
    ensures scan.burn.total == BurnSum(s, |s|) && scan.burn.count == BurnCount(s, |s|)
    ensures scan.violations == Runs(s, warning, |s|)
    ensures IsLongest(s, warning, |s| + 1, now,
                      if scan.inViolation && now - scan.violationStart > scan.longest
                      then now - scan.violationStart else scan.longest)
  {
    hide Extremes, BurnExtremes, IsLongest;
    LongestStep(s, warning, start, |s|, now, scan.longest);
  }

  // ----- Averages lie between the extremes -----

  lemma {:induction false} SumBetween(s: seq<Snapshot>, n: nat, low: real, high: real)
    requires n <= |s| && forall k | 0 <= k < n :: low <= s[k].remaining <= high
    ensures low * n as real <= SumRemaining(s, n) <= high * n as real
  {
    if n > 0 {
      SumBetween(s, n - 1, low, high);
      assert low * n as real == low * (n - 1) as real + low;
      assert high * n as real == high * (n - 1) as real + high;
    }
  }

  lemma Scale(x: real, y: real, b: real)
    requires x <= y && b > 0.0
    ensures x * b <= y * b
    ensures x < y ==> x * b < y * b
  {
    if x < y {
      assert (y - x) * b > 0.0;
    }
  }

  lemma MeanBetween(sum: real, n: nat, low: real, high: real)
    requires n > 0 && low * n as real <= sum <= high * n as real
    ensures low <= Average(sum, n) <= high
  {
    var q, m := sum / n as real, n as real;
    assert q * m == sum;
    if q < low {
      Scale(q, low, m);
    } else if q > high {
      Scale(high, q, m);
    }
  }

  /** The average times the number is the sum. */
  lemma AverageMeaning(sum: real, n: nat)
    ensures if n == 0 then Average(sum, n) == 0.0 else Average(sum, n) * n as real == sum
  {
  }

  /** MinRemaining <= AvgRemaining <= MaxRemaining for every non-empty sequence. */
  lemma AverageBetween(s: seq<Snapshot>, least: real, greatest: real)
    requires s != [] && Extremes(s, |s|, least, greatest)
    ensures least <= Average(SumRemaining(s, |s|), |s|) <= greatest
  {
    hide Average, SumRemaining;
    SumBetween(s, |s|, least, greatest);
    hide Extremes;
    MeanBetween(SumRemaining(s, |s|), |s|, least, greatest);
  }

  /** For budgets in [0, 1] the extremes are attained: the initial values 1 and 0 do not show. */
  lemma ExtremesAttained(s: seq<Snapshot>, least: real, greatest: real)
    requires s != [] && Extremes(s, |s|, least, greatest)
    requires forall k | 0 <= k < |s| :: 0.0 <= s[k].remaining <= 1.0
    ensures exists k :: 0 <= k < |s| && s[k].remaining == least
    ensures exists k :: 0 <= k < |s| && s[k].remaining == greatest
  {
    assert least <= s[0].remaining <= greatest;
  }

  // ----- Predicting exhaustion -----

  /** From the newest snapshot's consumption and a positive burn rate: already exhausted, or a
      whole number of hours ahead. */
  function Prediction(newest: Snapshot, burnRate: real, now: int): int
    requires burnRate > 0.0
  {
    var remaining := 1.0 - newest.consumedPercent;
    if remaining <= 0.0 then newest.timestamp else now + Truncate(remaining / burnRate) * EB.HOUR
  }

  lemma Distribute(h: real, d: real, b: real)
    ensures (h + d) * b == h * b + d * b
  {
  }

  lemma Fraction(d: real, b: real)
    requires 0.0 <= d < 1.0 && b > 0.0
    ensures 0.0 <= d * b < b
  {
    assert (1.0 - d) * b > 0.0;
  }

  lemma Bracket(x: real, b: real, h: real)
    requires b > 0.0 && h <= x / b < h + 1.0
    ensures h * b <= x < h * b + b
  {
    EB.Quotient(x, b);
    var d := x / b - h;
    Distribute(h, d, b);
    Fraction(d, b);
    var whole, part := h * b, d * b;
    assert x == whole + part;
    assert part < b;
  }

  /** The prediction is early by less than one hour: at the predicted time the budget is not
      overspent at this rate, one hour later it is. */
  lemma PredictionWithinOneHour(newest: Snapshot, burnRate: real, now: int)
    requires burnRate > 0.0
    ensures newest.consumedPercent >= 1.0 ==> Prediction(newest, burnRate, now) == newest.timestamp
    ensures newest.consumedPercent < 1.0 ==> exists hours: nat ::
              && Prediction(newest, burnRate, now) == now + hours * EB.HOUR
              && newest.consumedPercent + hours as real * burnRate <= 1.0
              && 1.0 < newest.consumedPercent + hours as real * burnRate + burnRate
  {
    if newest.consumedPercent < 1.0 {
      var remaining := 1.0 - newest.consumedPercent;
      var hours := Truncate(remaining / burnRate);
      EB.Quotient(remaining, burnRate);
      Bracket(remaining, burnRate, hours as real);
      hide Truncate;
      assert Prediction(newest, burnRate, now) == now + hours * EB.HOUR;
    }
  }

  // ----- The manager -----

  class ErrorBudgetManager {
    const warning: real
    var history: History

    constructor (warning: real)
      ensures this.warning == warning && history == map[]
    {
      this.warning := warning;
      history := map[];
    }

    method RecordSnapshot(snapshot: Snapshot)
      modifies this
      ensures history == Recorded(old(history), snapshot)
    {
      var key := KeyOf(snapshot);
      if key !in history {
        history := history[key := []];
      }
      history := history[key := history[key] + [snapshot]];
      if |history[key]| > LIMIT {
        history := history[key := history[key][|history[key]| - LIMIT..]];
      }
    }

    /** What other callers do between two operations. */
    method RecordOthers(others: seq<Snapshot>)
      modifies this
      ensures history == RecordedOnto(old(history), others)
    {
      hide Recorded;
      for i := 0 to |others|
        invariant history == RecordedOnto(old(history), others[..i])
      {
        OntoStep(old(history), others, i);
        RecordSnapshot(others[i]);
      }
      assert others[..|others|] == others;
    }

    method CalculateBurnRate(sloName: string, window: string, period: int, now: int) returns (r: BurnResult)
      ensures var key := EB.Key(sloName, window);
              r == BurnOver(if key in history then history[key] else [], now - period)
    {
      var key := EB.Key(sloName, window);
      if key !in history || |history[key]| < 2 {
        return InsufficientData;
      }
      var snapshots := history[key];
      var periodStart := now - period;
      var start, end: Option<Snapshot> := None, None;
      for i := 0 to |snapshots|
        invariant start.None? ==> forall k | 0 <= k < i :: snapshots[k].timestamp <= periodStart
        invariant start.Some? ==>
                    var f := FirstAfter(snapshots, periodStart);
                    f < i && start.value == snapshots[if f > 0 then f - 1 else 0]
        invariant end == if i == 0 then None else Some(snapshots[i - 1])
      {
        if snapshots[i].timestamp > periodStart && start.None? {
          assert FirstAfter(snapshots, periodStart) == i;
          start := Some(snapshots[if i > 0 then i - 1 else i]);
        }
        end := Some(snapshots[i]);
      }
      if start.None? || end.None? {
        return NoSnapshots;
      }
      var timeDiff := end.value.timestamp - start.value.timestamp;
      if timeDiff <= 0 {
        return InvalidInterval;
      }
      var budgetConsumed := start.value.consumedPercent - end.value.consumedPercent;
      if budgetConsumed < 0.0 {
        budgetConsumed := -budgetConsumed;
      }
      var hoursElapsed := timeDiff as real / EB.HOUR as real;
      r := Rate(budgetConsumed / hoursElapsed);
    }

    /** PredictExhaustion from the burn rate of the last hour.  It takes the lock twice, and
        others may record snapshots in between; the clock is read twice as well. */
    method PredictExhaustion(sloName: string, window: string, now: int, others: seq<Snapshot>, later: int)
      returns (r: Option<int>)
      modifies this
      ensures history == RecordedOnto(old(history), others)
      ensures var key := EB.Key(sloName, window);
              var burn := BurnOver(if key in old(history) then old(history)[key] else [], now - EB.HOUR);
              if burn.Rate? && burn.perHour > 0.0
              then key in history && history[key] != [] &&
                   r == Some(Prediction(history[key][|history[key]| - 1], burn.perHour, later))
              else r == None
    {
      var key := EB.Key(sloName, window);
      var burn := CalculateBurnRate(sloName, window, EB.HOUR, now);
      ghost var before := history;
      RecordOthers(others);
      if !burn.Rate? || burn.perHour <= 0.0 {
        return None;
      }
      StaysRecorded(before, others, key);
      if key !in history || |history[key]| == 0 {
        return None;
      }
      var newest := history[key][|history[key]| - 1];
      var remaining := 1.0 - newest.consumedPercent;
      if remaining <= 0.0 {
        return Some(newest.timestamp);
      }
      r := Some(later + Truncate(remaining / burn.perHour) * EB.HOUR);
    }

    /** One turn of the loop over the snapshots. */
    method Absorb(scan: Scan, snapshot: Snapshot) returns (r: Scan)
      ensures r == Absorbed(scan, snapshot, warning)
    {
      r := scan;
      if snapshot.remaining < r.minRemaining {
        r := r.(minRemaining := snapshot.remaining);
      }
      if snapshot.remaining > r.maxRemaining {
        r := r.(maxRemaining := snapshot.remaining);
      }
      r := r.(totalRemaining := r.totalRemaining + snapshot.remaining);
      if snapshot.burnRate > 0.0 {
        var burn := r.burn;
        if snapshot.burnRate < burn.min {
          burn := burn.(min := snapshot.burnRate);
        }
        if snapshot.burnRate > burn.max {
          burn := burn.(max := snapshot.burnRate);
        }
        r := r.(burn := burn.(total := burn.total + snapshot.burnRate, count := burn.count + 1));
      }
      if snapshot.consumedPercent >= warning {
        if !r.inViolation {
          r := r.(inViolation := true, violationStart := snapshot.timestamp, violations := r.violations + 1);
        }
      } else if r.inViolation {
        var violationDuration := snapshot.timestamp - r.violationStart;
        if violationDuration > r.longest {
          r := r.(longest := violationDuration);
        }
        r := r.(inViolation := false);
      }
    }

    /** One pass over the snapshots; `now` is what time.Since reads. */
    method CalculateStatistics(s: seq<Snapshot>, now: int) returns (stats: Statistics)
      ensures s == [] ==> stats == Statistics(0.0, 0.0, 0.0, 0.0, 0.0, 0.0, 0, 0)
      ensures s != [] ==> Extremes(s, |s|, stats.minRemaining, stats.maxRemaining)
      ensures s != [] ==> stats.avgRemaining == Average(SumRemaining(s, |s|), |s|)
      ensures s != [] ==> BurnExtremes(s, |s|, stats.minBurnRate, stats.maxBurnRate)
      ensures s != [] ==> stats.avgBurnRate == Average(BurnSum(s, |s|), BurnCount(s, |s|))
      ensures stats.totalViolations == Runs(s, warning, |s|)
      ensures IsLongest(s, warning, |s| + 1, now, stats.longestViolation)
    {
      if |s| == 0 {
        return Statistics(0.0, 0.0, 0.0, 0.0, 0.0, 0.0, 0, 0);
      }
      var scan := Scan(1.0, 0.0, 0.0, BurnScan(1_000_000_000.0, 0.0, 0.0, 0), false, 0, 0, 0);
      ghost var start := 0;
      assert Scanned(s, warning, now, 0, scan, 0);
      hide Average, Extremes, BurnExtremes, IsLongest, Scanned;
      for i := 0 to |s|
        invariant Scanned(s, warning, now, i, scan, start)
      {
        start := ScannedStep(s, warning, now, i, scan, start);
        scan := Absorb(scan, s[i]);
      }
      ScannedMeans(s, warning, now, scan, start);
      var longest := scan.longest;
      if scan.inViolation {
        var violationDuration := now - scan.violationStart;
        if violationDuration > longest {
          longest := violationDuration;
        }
      }
      stats := Statistics(scan.minRemaining, scan.maxRemaining, Average(scan.totalRemaining, |s|),
                          scan.burn.min, scan.burn.max, Average(scan.burn.total, scan.burn.count),
                          scan.violations, longest);
    }
  }
}
