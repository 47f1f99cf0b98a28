/** `priceGrid.ts`: a uniform grid over sparse candles, each point holding the latest close. */
module PriceGrid {
  import opened Numbers
  import opened Outcomes

  datatype Candle = Candle(time: int, close: real)

  /** A value of None is a whitespace point: it widens the axis and draws nothing. */
  datatype GridPoint = GridPoint(time: int, value: Option<real>)

  const MAX_POINTS: nat := 3600

  function CeilDiv(a: int, b: nat): int
    requires b > 0
  {
    (a + b - 1) / b
  }

  function GridStep(windowSecs: int): (s: nat)
    ensures s >= 1
  {
    Max(1, CeilDiv(windowSecs, MAX_POINTS))
  }

  function GridBars(windowSecs: int): int {
    CeilDiv(windowSecs, GridStep(windowSecs))
  }

  lemma CeilDivBounds(a: int, b: nat)
    requires b > 0
    ensures (CeilDiv(a, b) - 1) * b < a <= CeilDiv(a, b) * b
  {
    var q := CeilDiv(a, b);
    assert (q - 1) * b == q * b - b by { Distribute(b, q, 1); }
    assert q * b <= a + b - 1 < q * b + b by { DivBounds(a + b - 1, b); }
  }

  lemma DivBounds(a: int, b: int)
    requires b > 0
    ensures a / b * b <= a < a / b * b + b
  {
  }

  /** The bars cover the window, not one of them is spare, and the point budget is kept. */
  lemma BarsCoverWindow(windowSecs: int)
    requires windowSecs > 0
    ensures var step, bars := GridStep(windowSecs), GridBars(windowSecs);
            1 <= bars <= MAX_POINTS && (bars - 1) * step < windowSecs <= bars * step
  {
    var step, bars := GridStep(windowSecs), GridBars(windowSecs);
    CeilDivBounds(windowSecs, step);
    CeilDivBounds(windowSecs, MAX_POINTS);
    MulLePositive(-bars, step);
    assert -bars * step == -(bars * step);
    MulLePositive(bars - 1 - MAX_POINTS, step);
    Distribute(step, bars - 1, MAX_POINTS);
  }

  // ---- the curve the grid samples ----

  predicate Ascending(candles: seq<Candle>) {
    forall i, k :: 0 <= i < k < |candles| ==> candles[i].time <= candles[k].time
  }

  /** The close of the latest candle at or before t. */
  function LastAt(candles: seq<Candle>, t: int): Option<real> {
    if |candles| == 0 then None
    else if candles[|candles| - 1].time <= t then Some(candles[|candles| - 1].close)
    else LastAt(candles[..|candles| - 1], t)
  }

  /** The candles before the cursor, and only those, are at or before t. */
  predicate CursorAt(candles: seq<Candle>, t: int, ci: int) {
    && 0 <= ci <= |candles|
    && (forall i :: 0 <= i < ci ==> candles[i].time <= t)
    && (forall i :: ci <= i < |candles| ==> candles[i].time > t)
  }

  function CarryOf(candles: seq<Candle>, ci: nat): Option<real>
    requires ci <= |candles|
  {
    if ci == 0 then None else Some(candles[ci - 1].close)
  }

  lemma {:induction false} LastAtCursor(candles: seq<Candle>, t: int, ci: nat)
    requires CursorAt(candles, t, ci)
    ensures LastAt(candles, t) == CarryOf(candles, ci)
  {
    if ci < |candles| {
      LastAtCursor(candles[..|candles| - 1], t, ci);
    }
  }

  function At(candles: seq<Candle>, t: int): GridPoint {
    GridPoint(t, LastAt(candles, t))
  }

  function Sampled(candles: seq<Candle>, start: int, interval: nat, n: nat): (g: seq<GridPoint>)
    ensures |g| == n && forall k :: 0 <= k < n ==> g[k] == At(candles, start + k * interval)
  {
    seq(n, k requires 0 <= k < n => At(candles, start + k * interval))
  }

  function EndBucket(candles: seq<Candle>, interval: nat, nowSec: int): int
    requires interval > 0 && |candles| > 0
  {
    Max(nowSec / interval * interval, candles[|candles| - 1].time)
  }

  function StartBucket(candles: seq<Candle>, interval: nat, nowSec: int, maxBars: nat): int
    requires interval > 0 && |candles| > 0
  {
    Max(candles[0].time, EndBucket(candles, interval, nowSec) - (maxBars - 1) * interval)
  }

  function StepsThrough(start: int, end: int, interval: nat): nat
    requires interval > 0
  {
    if start > end then 0 else (end - start) / interval + 1
  }

  function Core(candles: seq<Candle>, interval: nat, nowSec: int, maxBars: nat): seq<GridPoint>
    requires interval > 0
  {
    if |candles| == 0 then []
    else
      var start := StartBucket(candles, interval, nowSec, maxBars);
      Sampled(candles, start, interval, StepsThrough(start, EndBucket(candles, interval, nowSec), interval))
  }

  function Padding(first: int, interval: nat, n: nat): (g: seq<GridPoint>)
    ensures |g| == n && forall k :: 0 <= k < n ==> g[k] == GridPoint(first - (n - k) * interval, None)
  {
    seq(n, k requires 0 <= k < n => GridPoint(first - (n - k) * interval, None))
  }

  function Windowed(candles: seq<Candle>, interval: nat, nowSec: int, maxBars: nat): seq<GridPoint>
    requires interval > 0
  {
    var core := Core(candles, interval, nowSec, maxBars);
    if |core| == 0 || |core| >= maxBars then core
    else Padding(core[0].time, interval, maxBars - |core|) + core
  }

  // ---- the loops ----

  lemma LoopCount(start: int, end: int, interval: nat, n: nat)
    requires interval > 0 && start + n * interval > end
    requires n > 0 ==> start + (n - 1) * interval <= end
    ensures n == StepsThrough(start, end, interval)
  {
    if n > 0 {
      MulLe(0, n - 1, interval);
      Distribute(interval, n, 1);
      QuotientGe(end - start, interval, n - 1);
      QuotientLe(end - start, interval, n - 1);
    }
  }

  method BuildGrid(candles: seq<Candle>, interval: nat, nowSec: int, maxBars: nat) returns (out: seq<GridPoint>)
    requires interval > 0 && Ascending(candles)
    ensures out == Core(candles, interval, nowSec, maxBars)
  {
    out := [];
    if |candles| == 0 {
      return;
    }
    var firstBucket, lastBucket := candles[0].time, candles[|candles| - 1].time;
    var currentBucket := nowSec / interval * interval;
    var endBucket := Max(currentBucket, lastBucket);
    var start := Max(firstBucket, endBucket - (maxBars - 1) * interval);
    var ci := 0;
    var carried: Option<real> := None;
    while ci < |candles| && candles[ci].time <= start
      invariant ci <= |candles| && carried == CarryOf(candles, ci)
      invariant forall i :: 0 <= i < ci ==> candles[i].time <= start
    {
      carried := Some(candles[ci].close);
      ci := ci + 1;
    }
    var b := start;
    while b <= endBucket
      invariant b == start + |out| * interval
      invariant |out| > 0 ==> start + (|out| - 1) * interval <= endBucket
      invariant out == Sampled(candles, start, interval, |out|)
      invariant 0 < ci <= |candles| && carried == CarryOf(candles, ci)
      invariant forall i :: 0 <= i < ci ==> candles[i].time <= b
      decreases endBucket - b
    {
      while ci < |candles| && candles[ci].time <= b
        invariant 0 < ci <= |candles| && carried == CarryOf(candles, ci)
        invariant forall i :: 0 <= i < ci ==> candles[i].time <= b
      {
        carried := Some(candles[ci].close);
        ci := ci + 1;
      }
      assert CursorAt(candles, b, ci);
      LastAtCursor(candles, b, ci);
      if carried.Some? {
        out := out + [GridPoint(b, carried)];
      }
      Distribute(interval, |out| - 1, 1);
      b := b + interval;
    }
    LoopCount(start, endBucket, interval, |out|);
  }

  method BuildWindowedGrid(candles: seq<Candle>, interval: nat, nowSec: int, maxBars: nat)
    returns (grid: seq<GridPoint>)
    requires interval > 0 && Ascending(candles)
    ensures grid == Windowed(candles, interval, nowSec, maxBars)
  {
    var core := BuildGrid(candles, interval, nowSec, maxBars);
    if |core| == 0 || |core| >= maxBars {
      return core;
    }
    var missing := maxBars - |core|;
    var padding := [];
    var i := missing;
    while i >= 1
      invariant 0 <= i <= missing
      invariant padding == Padding(core[0].time, interval, missing)[..missing - i]
    {
      padding := padding + [GridPoint(core[0].time - i * interval, None)];
      i := i - 1;
    }
    return padding + core;
  }

  // ---- what the grid is ----

  /** A real value is the close of the latest candle at or before its bucket; whitespace means there is none. */
  lemma {:induction false} LastAtMeaning(candles: seq<Candle>, t: int)
    requires Ascending(candles)
    ensures match LastAt(candles, t)
            case None => forall i :: 0 <= i < |candles| ==> candles[i].time > t
            case Some(v) => exists i :: 0 <= i < |candles| && candles[i].time <= t && candles[i].close == v
                                        && forall k :: i < k < |candles| ==> candles[k].time > t
  {
    var n := |candles|;
    if n > 0 && candles[n - 1].time <= t {
      assert candles[n - 1].close == LastAt(candles, t).value;
    } else if n > 0 {
      var shorter := candles[..n - 1];
      LastAtMeaning(shorter, t);
      if LastAt(candles, t).Some? {
        var i :| 0 <= i < |shorter| && shorter[i].time <= t && shorter[i].close == LastAt(shorter, t).value
                 && forall k :: i < k < |shorter| ==> shorter[k].time > t;
        assert candles[i] == shorter[i];
        forall k | i < k < n ensures candles[k].time > t {
          assert k < n - 1 ==> candles[k] == shorter[k];
        }
      }
    }
  }

  lemma CoreShape(candles: seq<Candle>, interval: nat, nowSec: int, maxBars: nat)
    requires interval > 0 && Ascending(candles) && |candles| > 0 && maxBars > 0
    ensures var core := Core(candles, interval, nowSec, maxBars);
            && 0 < |core| <= maxBars
            && core[0].time == StartBucket(candles, interval, nowSec, maxBars) >= candles[0].time
            && (|core| < maxBars ==> core[0].time == candles[0].time)
  {
    var start, end := StartBucket(candles, interval, nowSec, maxBars), EndBucket(candles, interval, nowSec);
    MulLe(0, maxBars - 1, interval);
    Distribute(interval, maxBars - 1, 1);
    QuotientLe(end - start, interval, maxBars - 1);
    if start == end - (maxBars - 1) * interval {
      QuotientGe(end - start, interval, maxBars - 1);
    }
  }

  /** Every core point carries a real value. */
  lemma CoreIsReal(candles: seq<Candle>, interval: nat, nowSec: int, maxBars: nat)
    requires interval > 0 && Ascending(candles)
    ensures var core := Core(candles, interval, nowSec, maxBars);
            forall k :: 0 <= k < |core| ==> core[k].value.Some?
  {
    var core := Core(candles, interval, nowSec, maxBars);
    forall k | 0 <= k < |core| ensures core[k].value.Some? {
      MulLe(0, interval, k);
      LastAtMeaning(candles, core[k].time);
    }
  }

  lemma NothingBeforeFirst(candles: seq<Candle>, t: int)
    requires Ascending(candles) && |candles| > 0 && t < candles[0].time
    ensures At(candles, t) == GridPoint(t, None)
  {
    LastAtCursor(candles, t, 0);
  }

  lemma PaddingSampled(candles: seq<Candle>, first: int, interval: nat, n: nat, m: nat)
    requires interval > 0 && Ascending(candles) && |candles| > 0 && (n > 0 ==> first == candles[0].time)
    ensures Padding(first, interval, n) + Sampled(candles, first, interval, m)
         == Sampled(candles, first - n * interval, interval, n + m)
  {
    var whole := Padding(first, interval, n) + Sampled(candles, first, interval, m);
    forall k: nat | k < n + m ensures whole[k] == At(candles, first - n * interval + k * interval) {
      Distribute(interval, n, k);
      Distribute(interval, k, n);
      if k < n {
        MulLe(1, n - k, interval);
        NothingBeforeFirst(candles, first - (n - k) * interval);
      }
    }
  }

  /** Where a windowed grid starts, whitespace included. */
  function Origin(candles: seq<Candle>, interval: nat, nowSec: int, maxBars: nat): int
    requires interval > 0 && |candles| > 0
  {
    StartBucket(candles, interval, nowSec, maxBars) - (maxBars - |Core(candles, interval, nowSec, maxBars)|) * interval
  }

  /** Padding and core together are one uniform sampling of the curve. */
  lemma WindowSampled(candles: seq<Candle>, interval: nat, nowSec: int, maxBars: nat)
    requires interval > 0 && Ascending(candles) && |candles| > 0 && maxBars > 0
    ensures Windowed(candles, interval, nowSec, maxBars)
         == Sampled(candles, Origin(candles, interval, nowSec, maxBars), interval, maxBars)
  {
    CoreShape(candles, interval, nowSec, maxBars);
    var core := Core(candles, interval, nowSec, maxBars);
    PaddingSampled(candles, core[0].time, interval, maxBars - |core|, |core|);
  }

  /** A non-empty windowed grid has exactly `maxBars` points, one step apart, and each samples the curve at its own
      time: whitespace before the first candle, the latest close from then on. */
  lemma WindowExact(candles: seq<Candle>, interval: nat, nowSec: int, maxBars: nat)
    requires interval > 0 && Ascending(candles) && |candles| > 0
    ensures var w := Windowed(candles, interval, nowSec, maxBars);
            && |w| == maxBars
            && (forall k :: 0 <= k < maxBars - 1 ==> w[k + 1].time - w[k].time == interval)
            && (forall k :: 0 <= k < maxBars ==> w[k] == At(candles, w[k].time))
  {
    if maxBars == 0 {
      assert Core(candles, interval, nowSec, 0) == [];
    } else {
      WindowSampled(candles, interval, nowSec, maxBars);
      SampledSteps(candles, Origin(candles, interval, nowSec, maxBars), interval, maxBars);
    }
  }

  lemma SampledSteps(candles: seq<Candle>, start: int, interval: nat, n: nat)
    ensures var g := Sampled(candles, start, interval, n);
            && (forall k :: 0 <= k < n - 1 ==> g[k + 1].time - g[k].time == interval)
            && (forall k :: 0 <= k < n ==> g[k] == At(candles, g[k].time))
  {
    var g := Sampled(candles, start, interval, n);
    forall k | 0 <= k < n - 1 ensures g[k + 1].time - g[k].time == interval {
      Distribute(interval, k, 1);
    }
  }
}
