/** The curve bookkeeping of `PriceChart.tsx`: a second-by-second roll-forward, and exactly when it agrees with a
    rebuild. */
module ChartCurve {
  import opened Numbers
  import opened Outcomes
  import opened PriceGrid

  // ---- steps ----

  /** A whole number of steps. */
  predicate OnStep(t: int, step: nat)
    requires step > 0
  {
    t == t / step * step
  }

  lemma MultipleDiv(q: int, step: nat)
    requires step > 0
    ensures q * step / step == q
  {
    var d := q * step / step;
    DivBounds(q * step, step);
    CancelLe(d, q, step);
    Distribute(step, d, 1);
    CancelLt(q, d + 1, step);
  }

  lemma FloorOnStep(t: int, step: nat)
    requires step > 0
    ensures OnStep(t / step * step, step) && t / step * step <= t < t / step * step + step
  {
    DivBounds(t, step);
    MultipleDiv(t / step, step);
  }

  lemma SumOnStep(a: int, k: int, step: nat)
    requires step > 0
    ensures OnStep(a, step) ==> OnStep(a + k * step, step)
  {
    Distribute(step, a / step, k);
    MultipleDiv(a / step + k, step);
  }

  /** Moving by whole steps changes nothing about being on one. */
  lemma ShiftOnStep(a: int, k: int, step: nat)
    requires step > 0
    ensures OnStep(a + k * step, step) <==> OnStep(a, step)
  {
    SumOnStep(a, k, step);
    SumOnStep(a + k * step, -k, step);
    assert -k * step == -(k * step);
  }

  /** Two bucket starts are a whole number of steps apart. */
  lemma StepsApart(a: int, b: int, step: nat) returns (k: int)
    requires step > 0 && OnStep(a, step) && OnStep(b, step)
    ensures b - a == k * step
    ensures a <= b ==> k >= 0
  {
    k := b / step - a / step;
    Distribute(step, b / step, a / step);
    if k < 0 {
      MulLePositive(-k, step);
      assert -k * step == -(k * step);
    }
  }

  /** The last bucket start at or before t is the only one within a step of it. */
  lemma FloorUnique(t: int, bucket: int, step: nat)
    requires step > 0 && OnStep(bucket, step) && bucket <= t < bucket + step
    ensures bucket == t / step * step
  {
    FloorOnStep(t, step);
    var k := StepsApart(bucket, t / step * step, step);
    CancelLt(k, 1, step);
    CancelLt(-1, k, step);
  }

  lemma FloorMonotone(a: int, b: int, step: nat)
    requires step > 0 && a <= b
    ensures a / step * step <= b / step * step
  {
    FloorOnStep(a, step);
    FloorOnStep(b, step);
    var k := StepsApart(a / step * step, b / step * step, step);
    CancelLt(-1, k, step);
    MulLePositive(k, step);
  }

  // ---- the last point of a grid ----

  /** The last bucket a grid plots; `plottedStep` after a replot. */
  function LastBucket(candles: seq<Candle>, step: nat, nowSec: int, maxBars: nat): int
    requires step > 0 && |candles| > 0
  {
    StartBucket(candles, step, nowSec, maxBars) + (|Core(candles, step, nowSec, maxBars)| - 1) * step
  }

  /** The core samples the curve from its start through its last bucket, within a step of the end bucket. */
  lemma CoreSpan(candles: seq<Candle>, step: nat, nowSec: int, maxBars: nat) returns (start: int, m: nat)
    requires step > 0 && Ascending(candles) && |candles| > 0 && maxBars > 0
    ensures start == StartBucket(candles, step, nowSec, maxBars) && 0 < m <= maxBars
    ensures Core(candles, step, nowSec, maxBars) == Sampled(candles, start, step, m)
    ensures LastBucket(candles, step, nowSec, maxBars) == start + (m - 1) * step
    ensures start + (m - 1) * step <= EndBucket(candles, step, nowSec) < start + (m - 1) * step + step
  {
    CoreShape(candles, step, nowSec, maxBars);
    start, m := StartBucket(candles, step, nowSec, maxBars), |Core(candles, step, nowSec, maxBars)|;
    var end := EndBucket(candles, step, nowSec);
    StartBeforeEnd(candles, step, nowSec, maxBars);
    DivBounds(end - start, step);
  }

  lemma StartBeforeEnd(candles: seq<Candle>, step: nat, nowSec: int, maxBars: nat)
    requires step > 0 && Ascending(candles) && |candles| > 0 && maxBars > 0
    ensures StartBucket(candles, step, nowSec, maxBars) <= EndBucket(candles, step, nowSec)
  {
    MulLe(0, maxBars - 1, step);
  }

  /** A grid that fills the window reaches its end bucket. */
  lemma FullReachesEnd(candles: seq<Candle>, step: nat, nowSec: int, maxBars: nat)
    requires step > 0 && Ascending(candles) && |candles| > 0 && maxBars > 0
    requires StartBucket(candles, step, nowSec, maxBars) == EndBucket(candles, step, nowSec) - (maxBars - 1) * step
    ensures LastBucket(candles, step, nowSec, maxBars) == EndBucket(candles, step, nowSec)
  {
    var start, m := CoreSpan(candles, step, nowSec, maxBars);
    FullWindow(start, EndBucket(candles, step, nowSec), step, m - 1, maxBars - 1);
  }

  /** A grid ends on a step if and only if it starts on one, and then on the last one before its end bucket. */
  lemma OnStepThroughout(candles: seq<Candle>, step: nat, nowSec: int, maxBars: nat)
    requires step > 0 && Ascending(candles) && |candles| > 0 && maxBars > 0
    ensures var start, last := StartBucket(candles, step, nowSec, maxBars), LastBucket(candles, step, nowSec, maxBars);
            && (OnStep(last, step) <==> OnStep(start, step))
            && (OnStep(start, step) ==> last == EndBucket(candles, step, nowSec) / step * step)
  {
    var start, m := CoreSpan(candles, step, nowSec, maxBars);
    ShiftOnStep(start, m - 1, step);
    if OnStep(start, step) {
      FloorUnique(EndBucket(candles, step, nowSec), start + (m - 1) * step, step);
    }
  }

  lemma LastBucketCases(candles: seq<Candle>, step: nat, nowSec: int, maxBars: nat)
    requires step > 0 && Ascending(candles) && |candles| > 0 && maxBars > 0
    ensures var start, end := StartBucket(candles, step, nowSec, maxBars), EndBucket(candles, step, nowSec);
            && (start == end - (maxBars - 1) * step ==> LastBucket(candles, step, nowSec, maxBars) == end)
            && (OnStep(start, step) ==> LastBucket(candles, step, nowSec, maxBars) == end / step * step)
            && (OnStep(LastBucket(candles, step, nowSec, maxBars), step) <==> OnStep(start, step))
  {
    OnStepThroughout(candles, step, nowSec, maxBars);
    if StartBucket(candles, step, nowSec, maxBars) == EndBucket(candles, step, nowSec) - (maxBars - 1) * step {
      FullReachesEnd(candles, step, nowSec, maxBars);
    }
  }

  lemma FullWindow(start: int, end: int, step: nat, k: nat, n: nat)
    requires step > 0 && k <= n && start + n * step == end && end < start + k * step + step
    ensures k == n
  {
    Distribute(step, k, 1);
    CancelLt(n, k + 1, step);
  }

  lemma LastPoints(candles: seq<Candle>, step: nat, nowSec: int, maxBars: nat)
    requires step > 0 && Ascending(candles) && |candles| > 0 && maxBars > 0
    ensures var core, w := Core(candles, step, nowSec, maxBars), Windowed(candles, step, nowSec, maxBars);
            && |core| > 0 && |w| == maxBars
            && core[|core| - 1] == w[maxBars - 1] == At(candles, LastBucket(candles, step, nowSec, maxBars))
            && core[|core| - 1].value.Some?
  {
    var start, m := CoreSpan(candles, step, nowSec, maxBars);
    CoreIsReal(candles, step, nowSec, maxBars);
    WindowExact(candles, step, nowSec, maxBars);
  }

  // ---- rolling forward ----

  /** One carried point per step after `from`, until `nowStep` is reached. */
  function Rolled(from: int, nowStep: int, step: nat, close: real): seq<GridPoint>
    requires step > 0
    decreases Max(nowStep - from, 0)
  {
    if nowStep > from then [GridPoint(from + step, Some(close))] + Rolled(from + step, nowStep, step, close) else []
  }

  /** Where that leaves `plottedStep`. */
  function RollEnd(from: int, nowStep: int, step: nat): int
    requires step > 0
    decreases Max(nowStep - from, 0)
  {
    if nowStep > from then RollEnd(from + step, nowStep, step) else from
  }

  /** What a roll-forward at `nowSec` adds to a grid plotted at `past`: copies of the grid's last value. */
  function RolledFrom(candles: seq<Candle>, step: nat, past: int, nowSec: int, maxBars: nat): seq<GridPoint>
    requires step > 0 && |candles| > 0
  {
    var last := LastBucket(candles, step, past, maxBars);
    var carried := LastAt(candles, last);
    if carried == None then [] else Rolled(last, nowSec / step * step, step, carried.value)
  }

  predicate Ends(s: seq<GridPoint>, tail: seq<GridPoint>) {
    |tail| <= |s| && s[|s| - |tail|..] == tail
  }

  /** The core rebuilt at `nowSec` is the tail of the core plotted at `past` plus the rolled points. */
  predicate CoreRolls(candles: seq<Candle>, step: nat, maxBars: nat, past: int, nowSec: int)
    requires step > 0 && |candles| > 0
  {
    Ends(Core(candles, step, past, maxBars) + RolledFrom(candles, step, past, nowSec, maxBars),
         Core(candles, step, nowSec, maxBars))
  }

  /** And so is the whole window, whitespace included. */
  predicate WindowRolls(candles: seq<Candle>, step: nat, maxBars: nat, past: int, nowSec: int)
    requires step > 0 && |candles| > 0
  {
    Ends(Windowed(candles, step, past, maxBars) + RolledFrom(candles, step, past, nowSec, maxBars),
         Windowed(candles, step, nowSec, maxBars))
  }

  /** The condition, on the first and last candle alone but for one close: the last is on a step and the grid starts on
      one or is full from the outset; or the grid starts on a step, is not yet full, and already shows the last
      close. */
  predicate RollSafe(candles: seq<Candle>, step: nat, maxBars: nat)
    requires step > 0 && |candles| > 0
  {
    var first, last := candles[0].time, candles[|candles| - 1];
    var reach := last.time - (maxBars - 1) * step;
    || (OnStep(last.time, step) && (OnStep(first, step) || first <= reach))
    || (OnStep(first, step) && reach <= first && LastAt(candles, last.time / step * step) == Some(last.close))
  }

  /** Candles bucketed by the step itself, as the indexer returns them for the window they were fetched for. */
  predicate Aligned(candles: seq<Candle>, step: nat)
    requires step > 0
  {
    forall i :: 0 <= i < |candles| ==> OnStep(candles[i].time, step)
  }

  lemma AlignedIsSafe(candles: seq<Candle>, step: nat, maxBars: nat)
    requires step > 0 && |candles| > 0 && Aligned(candles, step)
    ensures RollSafe(candles, step, maxBars)
  {
  }

  // ---- safe: the rolled line is the rebuilt one ----

  lemma LatestFromThere(candles: seq<Candle>, t: int)
    requires |candles| > 0 && candles[|candles| - 1].time <= t
    ensures LastAt(candles, t) == Some(candles[|candles| - 1].close)
  {
  }

  /** Before the last candle's bucket has passed. */
  lemma SafeLastEarly(candles: seq<Candle>, step: nat, nowSec: int, maxBars: nat)
    requires step > 0 && Ascending(candles) && |candles| > 0 && maxBars > 0 && RollSafe(candles, step, maxBars)
    requires nowSec / step * step <= candles[|candles| - 1].time
    ensures LastBucket(candles, step, nowSec, maxBars) == candles[|candles| - 1].time / step * step
  {
    LastBucketCases(candles, step, nowSec, maxBars);
  }

  /** Once it has. */
  lemma SafeLastLate(candles: seq<Candle>, step: nat, nowSec: int, maxBars: nat)
    requires step > 0 && Ascending(candles) && |candles| > 0 && maxBars > 0 && RollSafe(candles, step, maxBars)
    requires nowSec / step * step > candles[|candles| - 1].time
    ensures LastBucket(candles, step, nowSec, maxBars) == nowSec / step * step
  {
    FloorOnStep(nowSec, step);
    LastBucketCases(candles, step, nowSec, maxBars);
  }

  /** Either way the last bucket is on a step, shows the last close, and no later bucket can show anything else. */
  lemma SafeLast(candles: seq<Candle>, step: nat, nowSec: int, maxBars: nat)
    requires step > 0 && Ascending(candles) && |candles| > 0 && maxBars > 0 && RollSafe(candles, step, maxBars)
    ensures var last, bucket := candles[|candles| - 1], LastBucket(candles, step, nowSec, maxBars);
            && bucket == Max(nowSec / step * step, last.time / step * step) && OnStep(bucket, step)
            && LastAt(candles, bucket) == Some(last.close) && last.time < bucket + step
  {
    var last := candles[|candles| - 1];
    FloorOnStep(nowSec, step);
    FloorOnStep(last.time, step);
    if nowSec / step * step <= last.time {
      FloorMonotone(nowSec / step * step, last.time, step);
      SafeLastEarly(candles, step, nowSec, maxBars);
    } else {
      SafeLastLate(candles, step, nowSec, maxBars);
    }
  }

  lemma SampledConcat(candles: seq<Candle>, start: int, step: nat, n: nat, m: nat)
    ensures Sampled(candles, start, step, n) + Sampled(candles, start + n * step, step, m)
         == Sampled(candles, start, step, n + m)
  {
    var whole := Sampled(candles, start, step, n) + Sampled(candles, start + n * step, step, m);
    forall k: nat | k < n + m ensures whole[k] == At(candles, start + k * step) {
      if k >= n {
        Distribute(step, n, k - n);
      }
    }
  }

  /** Two samplings that end on the same bucket: the shorter is the tail of the longer. */
  lemma SampledSuffix(candles: seq<Candle>, start: int, start': int, step: nat, n: nat, m: nat)
    requires 0 < m <= n && start + (n - 1) * step == start' + (m - 1) * step
    ensures Ends(Sampled(candles, start, step, n), Sampled(candles, start', step, m))
  {
    var long, short := Sampled(candles, start, step, n), Sampled(candles, start', step, m);
    forall k: nat | k < m ensures long[n - m..][k] == short[k] {
      Distribute(step, n - 1, m - 1);
      Distribute(step, k, n - m);
    }
  }

  /** Past the last candle the roll-forward appends exactly the samples a rebuild would hold there. */
  lemma {:induction false} RolledSampled(candles: seq<Candle>, from: int, nowStep: int, step: nat, n: nat)
    requires step > 0 && |candles| > 0 && candles[|candles| - 1].time < from + step
    requires Max(from, nowStep) == from + n * step
    ensures Rolled(from, nowStep, step, candles[|candles| - 1].close) == Sampled(candles, from + step, step, n)
    ensures RollEnd(from, nowStep, step) == from + n * step
    decreases n
  {
    var close := candles[|candles| - 1].close;
    if n == 0 {
      assert nowStep <= from;
    } else {
      MulLe(1, n, step);
      Distribute(step, n, 1);
      RolledSampled(candles, from + step, nowStep, step, n - 1);
      LatestFromThere(candles, from + step);
      SampledConcat(candles, from + step, step, 1, n - 1);
      assert Sampled(candles, from + step, step, 1) == [GridPoint(from + step, Some(close))];
    }
  }

  /** From one last bucket to another later on, in whole steps. */
  lemma StepsToLast(candles: seq<Candle>, step: nat, past: int, nowSec: int, maxBars: nat) returns (n: nat)
    requires step > 0 && Ascending(candles) && |candles| > 0 && maxBars > 0 && RollSafe(candles, step, maxBars)
    requires past <= nowSec
    ensures var from := LastBucket(candles, step, past, maxBars);
            LastBucket(candles, step, nowSec, maxBars) == Max(from, nowSec / step * step) == from + n * step
  {
    var from, to := LastBucket(candles, step, past, maxBars), LastBucket(candles, step, nowSec, maxBars);
    SafeLast(candles, step, past, maxBars);
    SafeLast(candles, step, nowSec, maxBars);
    FloorMonotone(past, nowSec, step);
    n := StepsApart(from, to, step);
  }

  lemma RolledSafe(candles: seq<Candle>, step: nat, past: int, nowSec: int, maxBars: nat) returns (n: nat)
    requires step > 0 && Ascending(candles) && |candles| > 0 && maxBars > 0 && RollSafe(candles, step, maxBars)
    requires past <= nowSec
    ensures var from, nowStep := LastBucket(candles, step, past, maxBars), nowSec / step * step;
            && LastBucket(candles, step, nowSec, maxBars) == RollEnd(from, nowStep, step) == from + n * step
            && RolledFrom(candles, step, past, nowSec, maxBars) == Sampled(candles, from + step, step, n)
  {
    n := StepsToLast(candles, step, past, nowSec, maxBars);
    SafeLast(candles, step, past, maxBars);
    RolledSampled(candles, LastBucket(candles, step, past, maxBars), nowSec / step * step, step, n);
  }

  lemma CountWithin(start: int, start': int, step: nat, m: nat, m': nat, n: nat)
    requires step > 0 && 0 < m && 0 < m' && start <= start'
    requires start' + (m' - 1) * step == start + (m - 1) * step + n * step
    ensures m' <= m + n && start + (m + n - 1) * step == start' + (m' - 1) * step
  {
    Distribute(step, m - 1, n);
    Distribute(step, m' - 1, m + n - 1);
    MulLePositive(m' - 1 - (m + n - 1), step);
  }

  lemma ExtendedSampled(candles: seq<Candle>, start: int, step: nat, m: nat, end: int, n: nat)
    requires 0 < m && end == start + (m - 1) * step
    ensures Sampled(candles, start, step, m) + Sampled(candles, end + step, step, n)
         == Sampled(candles, start, step, m + n)
  {
    Distribute(step, m - 1, 1);
    SampledConcat(candles, start, step, m, n);
  }

  lemma TailOfExtended(candles: seq<Candle>, start: int, start': int, step: nat, m: nat, m': nat, end: int, n: nat)
    requires step > 0 && 0 < m && 0 < m' && start <= start'
    requires end == start + (m - 1) * step && start' + (m' - 1) * step == end + n * step
    ensures Ends(Sampled(candles, start, step, m) + Sampled(candles, end + step, step, n),
                 Sampled(candles, start', step, m'))
  {
    CountWithin(start, start', step, m, m', n);
    SampledSuffix(candles, start, start', step, m + n, m');
    ExtendedSampled(candles, start, step, m, end, n);
  }

  /** The same of any sequences that are such samplings. */
  lemma TailOf(grid: seq<GridPoint>, rolled: seq<GridPoint>, grid': seq<GridPoint>, candles: seq<Candle>,
               start: int, start': int, step: nat, m: nat, m': nat, end: int, n: nat)
    requires step > 0 && 0 < m && 0 < m'
    requires end == start + (m - 1) * step && start' + (m' - 1) * step == end + n * step
    requires grid == Sampled(candles, start, step, m) && rolled == Sampled(candles, end + step, step, n)
    requires grid' == Sampled(candles, start', step, m') && start <= start'
    ensures Ends(grid + rolled, grid')
  {
    TailOfExtended(candles, start, start', step, m, m', end, n);
  }

  lemma StartMonotone(candles: seq<Candle>, step: nat, past: int, nowSec: int, maxBars: nat)
    requires step > 0 && |candles| > 0 && past <= nowSec
    ensures StartBucket(candles, step, past, maxBars) <= StartBucket(candles, step, nowSec, maxBars)
  {
    FloorMonotone(past, nowSec, step);
  }

  lemma CoreIsRolledTail(candles: seq<Candle>, step: nat, past: int, nowSec: int, maxBars: nat)
    requires step > 0 && Ascending(candles) && |candles| > 0 && maxBars > 0 && RollSafe(candles, step, maxBars)
    requires past <= nowSec
    ensures CoreRolls(candles, step, maxBars, past, nowSec)
  {
    var n := RolledSafe(candles, step, past, nowSec, maxBars);
    var start, m := CoreSpan(candles, step, past, maxBars);
    var start', m' := CoreSpan(candles, step, nowSec, maxBars);
    StartMonotone(candles, step, past, nowSec, maxBars);
    TailOf(Core(candles, step, past, maxBars), RolledFrom(candles, step, past, nowSec, maxBars),
           Core(candles, step, nowSec, maxBars), candles, start, start', step, m, m',
           LastBucket(candles, step, past, maxBars), n);
  }

  lemma WindowSpan(candles: seq<Candle>, step: nat, nowSec: int, maxBars: nat) returns (origin: int)
    requires step > 0 && Ascending(candles) && |candles| > 0 && maxBars > 0
    ensures Windowed(candles, step, nowSec, maxBars) == Sampled(candles, origin, step, maxBars)
    ensures origin + (maxBars - 1) * step == LastBucket(candles, step, nowSec, maxBars)
  {
    WindowSampled(candles, step, nowSec, maxBars);
    origin := Origin(candles, step, nowSec, maxBars);
    Distribute(step, maxBars - |Core(candles, step, nowSec, maxBars)|, |Core(candles, step, nowSec, maxBars)| - 1);
  }

  lemma WindowIsRolledTail(candles: seq<Candle>, step: nat, past: int, nowSec: int, maxBars: nat)
    requires step > 0 && Ascending(candles) && |candles| > 0 && maxBars > 0 && RollSafe(candles, step, maxBars)
    requires past <= nowSec
    ensures WindowRolls(candles, step, maxBars, past, nowSec)
  {
    var n := RolledSafe(candles, step, past, nowSec, maxBars);
    var origin := WindowSpan(candles, step, past, maxBars);
    var origin' := WindowSpan(candles, step, nowSec, maxBars);
    MulLePositive(n, step);
    TailOf(Windowed(candles, step, past, maxBars), RolledFrom(candles, step, past, nowSec, maxBars),
           Windowed(candles, step, nowSec, maxBars), candles, origin, origin', step, maxBars, maxBars,
           LastBucket(candles, step, past, maxBars), n);
  }

  // ---- unsafe: some later tick drifts ----

  /** The last rolled point: a whole number of steps on, with the value the roll started from. */
  lemma {:induction false} RolledLast(from: int, nowStep: int, step: nat, close: real)
    requires step > 0 && nowStep > from
    ensures var rolled, end := Rolled(from, nowStep, step, close), RollEnd(from, nowStep, step);
            && |rolled| > 0 && rolled[|rolled| - 1] == GridPoint(end, Some(close))
            && (OnStep(end, step) <==> OnStep(from, step))
    decreases nowStep - from
  {
    ShiftOnStep(from, 1, step);
    assert 1 * step == step;
    if nowStep > from + step {
      RolledLast(from + step, nowStep, step, close);
    }
  }

  /** A tick late enough for the whole window to lie past the last candle. */
  function LateTick(candles: seq<Candle>, step: nat, maxBars: nat): int
    requires step > 0 && |candles| > 0
  {
    candles[|candles| - 1].time / step * step + (maxBars + 1) * step
  }

  lemma LateTickGrid(candles: seq<Candle>, step: nat, maxBars: nat)
    requires step > 0 && Ascending(candles) && |candles| > 0 && maxBars > 0
    ensures var now, last := LateTick(candles, step, maxBars), candles[|candles| - 1];
            && OnStep(now, step) && now > last.time && LastBucket(candles, step, now, maxBars) == now
            && LastAt(candles, now) == Some(last.close)
  {
    var now, last := LateTick(candles, step, maxBars), candles[|candles| - 1];
    FloorOnStep(last.time, step);
    SumOnStep(last.time / step * step, maxBars + 1, step);
    Distribute(step, maxBars - 1, 2);
    MulLePositive(maxBars - 1, step);
    LastBucketCases(candles, step, now, maxBars);
    LatestFromThere(candles, now);
  }

  /** What rolling that far from the grid plotted when the last candle arrived ends in. */
  lemma LateRoll(candles: seq<Candle>, step: nat, maxBars: nat)
    requires step > 0 && Ascending(candles) && |candles| > 0 && maxBars > 0
    ensures var past, now := candles[|candles| - 1].time, LateTick(candles, step, maxBars);
            var bucket := LastBucket(candles, step, past, maxBars);
            var rolled := RolledFrom(candles, step, past, now, maxBars);
            && |rolled| > 0 && rolled[|rolled| - 1] == GridPoint(RollEnd(bucket, now, step), LastAt(candles, bucket))
            && (OnStep(RollEnd(bucket, now, step), step) <==> OnStep(bucket, step))
  {
    var past, now := candles[|candles| - 1].time, LateTick(candles, step, maxBars);
    LateTickGrid(candles, step, maxBars);
    LastPoints(candles, step, past, maxBars);
    var start, m := CoreSpan(candles, step, past, maxBars);
    FloorOnStep(past, step);
    FloorOnStep(now, step);
    var bucket := LastBucket(candles, step, past, maxBars);
    RolledLast(bucket, now, step, LastAt(candles, bucket).value);
  }

  lemma SameLast(line: seq<GridPoint>, more: seq<GridPoint>, tail: seq<GridPoint>)
    requires |more| > 0 && |tail| > 0
    ensures Ends(line + more, tail) ==> tail[|tail| - 1] == more[|more| - 1]
  {
    var s := line + more;
    if Ends(s, tail) {
      assert s[|s| - |tail|..][|tail| - 1] == s[|s| - 1];
    }
  }

  /** A line rolled that far agrees with the rebuild in its last point only if it started on a step with the last
      close. */
  lemma {:induction false} LastPointAgrees(candles: seq<Candle>, step: nat, maxBars: nat)
    requires step > 0 && Ascending(candles) && |candles| > 0 && maxBars > 0
    requires var past, now := candles[|candles| - 1].time, LateTick(candles, step, maxBars);
             CoreRolls(candles, step, maxBars, past, now) || WindowRolls(candles, step, maxBars, past, now)
    ensures var bucket := LastBucket(candles, step, candles[|candles| - 1].time, maxBars);
            OnStep(bucket, step) && LastAt(candles, bucket) == Some(candles[|candles| - 1].close)
  {
    var past, now := candles[|candles| - 1].time, LateTick(candles, step, maxBars);
    LateTickGrid(candles, step, maxBars);
    LateRoll(candles, step, maxBars);
    LastPoints(candles, step, now, maxBars);
    var rolled := RolledFrom(candles, step, past, now, maxBars);
    SameLast(Core(candles, step, past, maxBars), rolled, Core(candles, step, now, maxBars));
    SameLast(Windowed(candles, step, past, maxBars), rolled, Windowed(candles, step, now, maxBars));
  }

  /** Without the condition the line plotted when the last candle arrives has drifted by the late tick at the latest. */
  lemma {:induction false} UnsafeDrifts(candles: seq<Candle>, step: nat, maxBars: nat)
    requires step > 0 && Ascending(candles) && |candles| > 0 && maxBars > 0 && !RollSafe(candles, step, maxBars)
    ensures var past, now := candles[|candles| - 1].time, LateTick(candles, step, maxBars);
            && past <= now
            && !CoreRolls(candles, step, maxBars, past, now) && !WindowRolls(candles, step, maxBars, past, now)
  {
    var past, now := candles[|candles| - 1].time, LateTick(candles, step, maxBars);
    LateTickGrid(candles, step, maxBars);
    if CoreRolls(candles, step, maxBars, past, now) || WindowRolls(candles, step, maxBars, past, now) {
      LastPointAgrees(candles, step, maxBars);
      FloorOnStep(past, step);
      LastBucketCases(candles, step, past, maxBars);
      assert false;
    }
  }

  /** Rolling forward and rebuilding show the same curve at all times, with or without whitespace, if and only if the
      condition on the candles holds. */
  lemma {:induction false} RollsIff(candles: seq<Candle>, step: nat, maxBars: nat)
    requires step > 0 && Ascending(candles) && |candles| > 0 && maxBars > 0
    ensures RollSafe(candles, step, maxBars) <==>
              forall past: int, nowSec: int :: past <= nowSec ==> CoreRolls(candles, step, maxBars, past, nowSec)
    ensures RollSafe(candles, step, maxBars) <==>
              forall past: int, nowSec: int :: past <= nowSec ==> WindowRolls(candles, step, maxBars, past, nowSec)
  {
    if RollSafe(candles, step, maxBars) {
      forall past: int, nowSec: int | past <= nowSec
        ensures CoreRolls(candles, step, maxBars, past, nowSec) && WindowRolls(candles, step, maxBars, past, nowSec)
      {
        CoreIsRolledTail(candles, step, past, nowSec, maxBars);
        WindowIsRolledTail(candles, step, past, nowSec, maxBars);
      }
    } else {
      UnsafeDrifts(candles, step, maxBars);
    }
  }

  /** The chart's own failing case: a one-second candle still cached after the one-day window was chosen and its fetch
      failed. The rolled line ends at 25, where no rebuild plots anything. */
  lemma WindowChangeDrifts()
    ensures var candles, step, maxBars := [Candle(1, 0.5)], GridStep(86_400), GridBars(86_400);
            && step == 24 && maxBars == 3600 && Aligned(candles, GridStep(3600)) && !RollSafe(candles, step, maxBars)
            && Core(candles, step, 24, maxBars) == [GridPoint(1, Some(0.5))]
            && RolledFrom(candles, step, 24, 24, maxBars) == [GridPoint(25, Some(0.5))]
            && !CoreRolls(candles, step, maxBars, 24, 24)
  {
    var candles := [Candle(1, 0.5)];
    assert Core(candles, 24, 24, 3600) == [At(candles, 1)];
    assert Rolled(1, 24, 24, 0.5) == [GridPoint(25, Some(0.5))] + Rolled(25, 24, 24, 0.5);
    SameLast(Core(candles, 24, 24, 3600), Rolled(1, 24, 24, 0.5), Core(candles, 24, 24, 3600));
  }

  // ---- the chart's state ----

  /** A line that ends with the window a rebuild at `nowSec` would plot, and bookkeeping that agrees with its last
      point. */
  ghost predicate Shows(candles: seq<Candle>, step: nat, maxBars: nat, nowSec: int, line: seq<GridPoint>,
                        plottedStep: int, carriedClose: Option<real>)
    requires step > 0
  {
    var w := Windowed(candles, step, nowSec, maxBars);
    && Ends(line, w)
    && if |w| == 0 then carriedClose == None else w[|w| - 1] == GridPoint(plottedStep, carriedClose)
  }

  lemma EndsExtend(line: seq<GridPoint>, window: seq<GridPoint>, more: seq<GridPoint>, tail: seq<GridPoint>)
    requires Ends(line, window) && Ends(window + more, tail)
    ensures Ends(line + more, tail)
  {
    var head := line[..|line| - |window|];
    assert line + more == head + (window + more);
    assert (head + (window + more))[|head| + |window + more| - |tail|..] == (window + more)[|window + more| - |tail|..];
  }

  predicate Safe(candles: seq<Candle>, step: nat, maxBars: nat)
    requires step > 0
  {
    |candles| == 0 || RollSafe(candles, step, maxBars)
  }

  lemma RollShows(candles: seq<Candle>, step: nat, maxBars: nat, past: int, nowSec: int, line: seq<GridPoint>,
                  plottedStep: int, carriedClose: Option<real>)
    requires step > 0 && maxBars > 0 && Ascending(candles) && Safe(candles, step, maxBars) && past <= nowSec
    requires Shows(candles, step, maxBars, past, line, plottedStep, carriedClose)
    ensures var nowStep := nowSec / step * step;
            if carriedClose == None then Shows(candles, step, maxBars, nowSec, line, plottedStep, carriedClose)
            else Shows(candles, step, maxBars, nowSec, line + Rolled(plottedStep, nowStep, step, carriedClose.value),
                       RollEnd(plottedStep, nowStep, step), carriedClose)
  {
    if |candles| == 0 {
      assert Windowed(candles, step, past, maxBars) == Windowed(candles, step, nowSec, maxBars) == [];
    } else {
      LastPoints(candles, step, past, maxBars);
      LastPoints(candles, step, nowSec, maxBars);
      SafeLast(candles, step, past, maxBars);
      SafeLast(candles, step, nowSec, maxBars);
      var n := RolledSafe(candles, step, past, nowSec, maxBars);
      WindowIsRolledTail(candles, step, past, nowSec, maxBars);
      EndsExtend(line, Windowed(candles, step, past, maxBars), RolledFrom(candles, step, past, nowSec, maxBars),
                 Windowed(candles, step, nowSec, maxBars));
    }
  }

  /** What `PriceChart` keeps for one market, and the points its line shows before inversion and group normalisation. */
  class Curve {
    var windowSecs: int
    var candles: seq<Candle>
    var plottedStep: int
    var carriedClose: Option<real>
    var line: seq<GridPoint>

    ghost predicate Valid()
      reads this
    {
      windowSecs > 0 && Ascending(candles)
    }

    function Step(): (s: nat)
      reads this`windowSecs
      ensures s > 0
    {
      GridStep(windowSecs)
    }

    function Bars(): (n: nat)
      reads this`windowSecs
      requires windowSecs > 0
      ensures n > 0
    {
      BarsCoverWindow(windowSecs);
      GridBars(windowSecs)
    }

    /** The line ends with exactly the window a rebuild at `nowSec` would plot. */
    ghost predicate UpToDate(nowSec: int)
      reads this
      requires Valid()
    {
      Shows(candles, Step(), Bars(), nowSec, line, plottedStep, carriedClose)
    }

    constructor (windowSecs: int)
      requires windowSecs > 0
      ensures Valid() && this.windowSecs == windowSecs && candles == [] && line == [] && carriedClose == None
    {
      this.windowSecs := windowSecs;
      candles, plottedStep, carriedClose, line := [], 0, None, [];
    }

    /** Another window: step and bar count change at once, the line and the cached candles only with the next load. */
    method ChooseWindow(secs: int)
      requires Valid() && secs > 0
      modifies this`windowSecs
      ensures Valid() && windowSecs == secs
    {
      windowSecs := secs;
    }

    method Replot(nowSec: int)
      requires Valid()
      modifies this`line, this`plottedStep, this`carriedClose
      ensures Valid() && line == Windowed(candles, Step(), nowSec, Bars()) && UpToDate(nowSec)
    {
      var step := GridStep(windowSecs);
      var grid := BuildWindowedGrid(candles, step, nowSec, Bars());
      if |grid| > 0 {
        plottedStep := grid[|grid| - 1].time;
        carriedClose := grid[|grid| - 1].value;
      } else {
        plottedStep := 0;
        carriedClose := None;
      }
      line := grid;
    }

    /** A poll: a failed fetch keeps the cached candles, whatever step they were fetched for; either way the window is
        plotted again. */
    method Load(fetched: Option<seq<Candle>>, nowSec: int)
      requires Valid() && (fetched.Some? ==> Ascending(fetched.value))
      modifies this
      ensures windowSecs == old(windowSecs) && candles == if fetched.Some? then fetched.value else old(candles)
      ensures Valid() && line == Windowed(candles, Step(), nowSec, Bars()) && UpToDate(nowSec)
    {
      if fetched.Some? {
        candles := fetched.value;
      }
      Replot(nowSec);
    }

    /** The wall-clock tick. If the candles are safe for the window, a line that was right at any earlier time is right
        again, without a rebuild; `RollsIff` says that the condition cannot be relaxed. */
    method RollForward(nowSec: int)
      requires Valid()
      modifies this`line, this`plottedStep
      ensures Valid()
      ensures var nowStep := nowSec / Step() * Step();
              if carriedClose == None then line == old(line) && plottedStep == old(plottedStep)
              else line == old(line) + Rolled(old(plottedStep), nowStep, Step(), carriedClose.value)
                   && plottedStep == RollEnd(old(plottedStep), nowStep, Step())
      ensures Safe(candles, Step(), Bars()) ==>
                forall past: int :: past <= nowSec && old(UpToDate(past)) ==> UpToDate(nowSec)
    {
      var step := GridStep(windowSecs);
      var nowStep := nowSec / step * step;
      if carriedClose.Some? {
        ExtendTo(nowStep);
      }
      if Safe(candles, step, Bars()) {
        forall past: int | past <= nowSec && old(UpToDate(past)) ensures UpToDate(nowSec) {
          RollShows(candles, step, Bars(), past, nowSec, old(line), old(plottedStep), carriedClose);
        }
      }
    }

    method ExtendTo(nowStep: int)
      requires Valid() && carriedClose.Some?
      modifies this`line, this`plottedStep
      ensures line == old(line) + Rolled(old(plottedStep), nowStep, Step(), carriedClose.value)
      ensures plottedStep == RollEnd(old(plottedStep), nowStep, Step())
    {
      var step := GridStep(windowSecs);
      var b := plottedStep;
      ghost var close, rolled := carriedClose.value, [];
      while nowStep > b
        invariant b >= plottedStep == old(plottedStep)
        invariant line == old(line) + rolled
        invariant rolled + Rolled(b, nowStep, step, close) == Rolled(plottedStep, nowStep, step, close)
        invariant RollEnd(b, nowStep, step) == RollEnd(plottedStep, nowStep, step)
        decreases nowStep - b
      {
        b := b + step;
        line := line + [GridPoint(b, carriedClose)];
        rolled := rolled + [GridPoint(b, carriedClose)];
      }
      plottedStep := Max(plottedStep, b);
    }
  }
}
