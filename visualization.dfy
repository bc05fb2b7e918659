/**
 * The visualiser's per-frame arithmetic on bar values: whether anything is loud enough
 * to draw, resampling the raw values into a fixed number of bars, smoothing towards a
 * target, finding peaks, averaging and clamping. A missing array (`null` or `undefined`)
 * is `None`.
 */
module Visualization {
  import opened Wrappers

  /** Values below this are treated as silence. */
  const Threshold: real := 0.001

  /** The `smoothing` argument `smoothValues` uses when the caller gives none. */
  const DefaultSmoothing: real := 0.3

  /** The `threshold` argument `findPeaks` uses when the caller gives none. */
  const DefaultPeakThreshold: real := 0.7

  function RMin(a: real, b: real): real {
    if a <= b then a else b
  }

  function RMax(a: real, b: real): real {
    if a >= b then a else b
  }

  /** `clamp(value, min, max)`: `Math.max(min, Math.min(max, value))`. */
  function Clamp(value: real, lo: real, hi: real): (r: real)
    ensures lo <= hi ==> lo <= r <= hi
    ensures lo <= value <= hi ==> r == value
    ensures lo > hi ==> r == lo
  {
    RMax(lo, RMin(hi, value))
  }

  /** The sum of the values, added up from the front as the loops do. */
  function Sum(s: seq<real>): real
    decreases |s|
  {
    if s == [] then 0.0 else Sum(s[..|s| - 1]) + s[|s| - 1]
  }

  /** A sum of `k` values between `lo` and `hi` lies between `k * lo` and `k * hi`. */
  lemma {:induction false} SumBounds(s: seq<real>, lo: real, hi: real)
    requires forall i :: 0 <= i < |s| ==> lo <= s[i] <= hi
    ensures |s| as real * lo <= Sum(s) <= |s| as real * hi
    decreases |s|
  {
    if s != [] {
      SumBounds(s[..|s| - 1], lo, hi);
      assert (|s| - 1) as real * lo + lo == |s| as real * lo;
      assert (|s| - 1) as real * hi + hi == |s| as real * hi;
    }
  }

  /** The sum of `k` copies of `c` is `k * c`. */
  lemma {:induction false} SumConst(s: seq<real>, c: real)
    requires forall i :: 0 <= i < |s| ==> s[i] == c
    ensures Sum(s) == |s| as real * c
    decreases |s|
  {
    if s != [] {
      SumConst(s[..|s| - 1], c);
      assert (|s| - 1) as real * c + c == |s| as real * c;
    }
  }

  // ---------------------------------------------------------------------------
  // shouldVisualize
  // ---------------------------------------------------------------------------

  /**
   * `shouldVisualize`: nothing to draw without bars or values; otherwise scan for a
   * value at or above the threshold and stop at the first one.
   */
  method ShouldVisualize(bars: int, values: Option<seq<real>>) returns (r: bool)
    ensures r <==> bars != 0 && values.Some? && |values.value| > 0
                   && exists i :: 0 <= i < |values.value| && values.value[i] >= Threshold
  {
    if bars == 0 || values.None? || |values.value| == 0 {
      return false;
    }
    var vs := values.value;
    for i := 0 to |vs|
      invariant forall j :: 0 <= j < i ==> vs[j] < Threshold
    {
      if vs[i] >= Threshold {
        return true;
      }
    }
    return false;
  }

  // ---------------------------------------------------------------------------
  // normalizeValues
  // ---------------------------------------------------------------------------

  /** `Math.floor(i * step)` with `step = n / bars`, taken exactly. */
  function BinStart(i: nat, n: nat, bars: nat): nat
    requires bars > 0
  {
    (i * n) / bars
  }

  /** The value of bar `i`: the mean of its bin clamped into [0, 1], or 0 for an empty bin. */
  function BinValue(values: seq<real>, bars: nat, i: nat): real
    requires bars > 0
  {
    var n := |values|;
    var s := BinStart(i, n, bars);
    var e := if BinStart(i + 1, n, bars) < n then BinStart(i + 1, n, bars) else n;
    if s < e then Clamp(Sum(values[s..e]) / (e - s) as real, 0.0, 1.0) else 0.0
  }

  /** What `normalizeValues` returns: `bars` zeros without values, else one bin mean per bar. */
  function Normalized(values: Option<seq<real>>, bars: nat): seq<real> {
    if values.None? || |values.value| == 0 then seq(bars, _ => 0.0)
    else seq(bars, i requires 0 <= i < bars => BinValue(values.value, bars, i))
  }

  /** The result has one entry per bar, each in [0, 1], all zero without values. */
  lemma NormalizedLaws(values: Option<seq<real>>, bars: nat)
    ensures var r := Normalized(values, bars);
      && |r| == bars
      && (forall i :: 0 <= i < bars ==> 0.0 <= r[i] <= 1.0)
      && (values.None? || |values.value| == 0 ==> forall i :: 0 <= i < bars ==> r[i] == 0.0)
  {
  }

  /** Euclidean division by a positive divisor rounds down. */
  lemma DivChar(x: nat, d: nat)
    requires d > 0
    ensures d * (x / d) <= x < d * (x / d) + d
  {
  }

  /** Multiplying by a natural number keeps the order. */
  lemma {:induction false} MulLe(x: int, y: int, d: nat)
    requires x <= y
    ensures d * x <= d * y
  {
    if d > 0 {
      MulLe(x, y, d - 1);
      assert d * x == (d - 1) * x + x && d * y == (d - 1) * y + y;
    }
  }

  lemma MulSucc(d: int, x: int)
    ensures d * (x + 1) == d * x + d
  {
  }

  lemma DivMonotone(a: nat, b: nat, d: nat)
    requires 0 < d && a <= b
    ensures a / d <= b / d
  {
    DivChar(a, d);
    DivChar(b, d);
    MulSucc(d, b / d);
    if a / d > b / d {
      MulLe(b / d + 1, a / d, d);
    }
  }

  /** A bin ends at or before the input does, and not before it starts. */
  lemma BinBounds(i: nat, n: nat, bars: nat)
    requires 0 < bars && i < bars
    ensures BinStart(i, n, bars) <= BinStart(i + 1, n, bars) <= n
  {
    MulLe(i, i + 1, n);
    MulLe(i + 1, bars, n);
    assert n * i == i * n && n * (i + 1) == (i + 1) * n && n * bars == bars * n;
    DivMonotone(i * n, (i + 1) * n, bars);
    DivMonotone((i + 1) * n, bars * n, bars);
    DivExact(n, bars);
  }

  /** `(bars * n) / bars == n`. */
  lemma DivExact(n: nat, d: nat)
    requires d > 0
    ensures (d * n) / d == n
  {
    DivChar(d * n, d);
    var q := (d * n) / d;
    MulSucc(d, q);
    MulSucc(d, n);
    if q < n {
      MulLe(q + 1, n, d);
    } else if q > n {
      MulLe(n + 1, q, d);
    }
  }

  /** Adding the divisor adds one to the quotient. */
  lemma DivAddOne(a: nat, d: nat)
    requires d > 0
    ensures (a + d) / d == a / d + 1
  {
    DivChar(a, d);
    DivChar(a + d, d);
    var q := (a + d) / d;
    var p := a / d;
    MulSucc(d, p);
    MulSucc(d, p + 1);
    MulSucc(d, q);
    if q < p + 1 {
      MulLe(q + 1, p + 1, d);
    } else if q > p + 1 {
      MulLe(p + 2, q, d);
    }
  }

  /** With at least as many values as bars, no bin is empty. */
  lemma BinNonEmpty(i: nat, n: nat, bars: nat)
    requires 0 < bars <= n && i < bars
    ensures BinStart(i, n, bars) < BinStart(i + 1, n, bars)
  {
    var a := i * n;
    assert (i + 1) * n == a + n;
    DivMonotone(a + bars, a + n, bars);
    DivAddOne(a, bars);
  }

  /** Resampling a constant signal in [0, 1] onto no more bars than values gives that constant everywhere. */
  lemma NormalizedConstant(values: seq<real>, bars: nat, c: real, i: nat)
    requires 0 < bars <= |values| && i < bars
    requires 0.0 <= c <= 1.0 && forall j :: 0 <= j < |values| ==> values[j] == c
    ensures Normalized(Some(values), bars)[i] == c
  {
    var n := |values|;
    BinBounds(i, n, bars);
    BinNonEmpty(i, n, bars);
    var s := BinStart(i, n, bars);
    var e := BinStart(i + 1, n, bars);
    SumConst(values[s..e], c);
    var k := (e - s) as real;
    assert Sum(values[s..e]) / k == c;
  }

  /** `normalizeValues`: fill a fresh array bar by bar, summing each bin with an inner loop. */
  method NormalizeValues(values: Option<seq<real>>, bars: nat) returns (normalized: seq<real>)
    ensures normalized == Normalized(values, bars)
  {
    if values.None? || |values.value| == 0 {
      var zeros := new real[bars](_ => 0.0);
      return zeros[..];
    }
    var vs := values.value;
    var n := |vs|;
    var out := new real[bars];
    for i := 0 to bars
      invariant forall k :: 0 <= k < i ==> out[k] == BinValue(vs, bars, k)
    {
      var startIdx := BinStart(i, n, bars);
      var endIdx := BinStart(i + 1, n, bars);
      BinBounds(i, n, bars);
      var sum := 0.0;
      var count := 0;
      var j := startIdx;
      while j < endIdx && j < n
        invariant startIdx <= j <= endIdx
        invariant count == j - startIdx
        invariant sum == Sum(vs[startIdx..j])
      {
        assert vs[startIdx..j + 1][..j - startIdx] == vs[startIdx..j];
        sum := sum + vs[j];
        count := count + 1;
        j := j + 1;
      }
      out[i] := if count > 0 then Clamp(sum / count as real, 0.0, 1.0) else 0.0;
    }
    return out[..];
  }

  // ---------------------------------------------------------------------------
  // smoothValues
  // ---------------------------------------------------------------------------

  /** What `smoothValues` returns: a copy of the target without a current array, else each shared position moved `smoothing` of the way. */
  function Smoothed(current: Option<seq<real>>, target: seq<real>, smoothing: real): seq<real> {
    if current.None? || |current.value| == 0 then target
    else
      var c := current.value;
      seq(|target|, i requires 0 <= i < |target| =>
        if i < |c| then c[i] + (target[i] - c[i]) * smoothing else target[i])
  }

  /**
   * The result is as long as the target; past the end of the current values it is the
   * target; with a smoothing factor in [0, 1] each entry lies between the current value
   * and the target, at the current value for 0 and at the target for 1.
   */
  lemma SmoothedLaws(current: Option<seq<real>>, target: seq<real>, smoothing: real)
    ensures var r := Smoothed(current, target, smoothing);
      && |r| == |target|
      && (current.None? || |current.value| == 0 ==> r == target)
      && (current.Some? ==> forall i :: |current.value| <= i < |target| ==> r[i] == target[i])
      && (current.Some? && 0.0 <= smoothing <= 1.0 ==>
            forall i :: 0 <= i < |target| && i < |current.value| ==>
              RMin(current.value[i], target[i]) <= r[i] <= RMax(current.value[i], target[i]))
      && (current.Some? && smoothing == 1.0 ==> r == target)
      && (current.Some? && |current.value| > 0 && smoothing == 0.0 ==>
            forall i :: 0 <= i < |target| && i < |current.value| ==> r[i] == current.value[i])
  {
    var r := Smoothed(current, target, smoothing);
    if current.Some? && |current.value| > 0 && 0.0 <= smoothing <= 1.0 {
      var c := current.value;
      forall i | 0 <= i < |target| && i < |c|
        ensures RMin(c[i], target[i]) <= r[i] <= RMax(c[i], target[i])
      {
        Between(c[i], target[i], smoothing);
      }
    }
  }

  /** A step of `t` from `a` towards `b` stays between the two. */
  lemma Between(a: real, b: real, t: real)
    requires 0.0 <= t <= 1.0
    ensures RMin(a, b) <= a + (b - a) * t <= RMax(a, b)
  {
    MulNonneg(if a <= b then b - a else a - b, t);
    MulNonneg(if a <= b then b - a else a - b, 1.0 - t);
    assert (b - a) * t + (b - a) * (1.0 - t) == b - a;
  }

  lemma MulNonneg(x: real, y: real)
    requires x >= 0.0 && y >= 0.0
    ensures x * y >= 0.0
  {
  }

  /** `smoothValues`: two index loops over a fresh array. */
  method SmoothValues(current: Option<seq<real>>, target: seq<real>, smoothing: real) returns (result: seq<real>)
    ensures result == Smoothed(current, target, smoothing)
  {
    if current.None? || |current.value| == 0 {
      return target;
    }
    var c := current.value;
    var out := new real[|target|];
    var len := if |c| <= |target| then |c| else |target|;
    for i := 0 to len
      invariant forall k :: 0 <= k < i ==> out[k] == c[k] + (target[k] - c[k]) * smoothing
    {
      out[i] := c[i] + (target[i] - c[i]) * smoothing;
    }
    for i := len to |target|
      invariant forall k :: 0 <= k < len ==> out[k] == c[k] + (target[k] - c[k]) * smoothing
      invariant forall k :: len <= k < i ==> out[k] == target[k]
    {
      out[i] := target[i];
    }
    assert forall k :: 0 <= k < |target| ==> out[k] == Smoothed(current, target, smoothing)[k];
    return out[..];
  }

  // ---------------------------------------------------------------------------
  // findPeaks
  // ---------------------------------------------------------------------------

  /** An interior value above the threshold and above both neighbours. */
  predicate IsPeak(values: seq<real>, i: int, threshold: real) {
    1 <= i < |values| - 1 && values[i] > threshold && values[i] > values[i - 1] && values[i] > values[i + 1]
  }

  /** `findPeaks`: the peak indices, in increasing order. */
  method FindPeaks(values: seq<real>, threshold: real) returns (peaks: seq<int>)
    ensures forall k, l :: 0 <= k < l < |peaks| ==> peaks[k] < peaks[l]
    ensures forall i :: i in peaks <==> IsPeak(values, i, threshold)
  {
    peaks := [];
    var i := 1;
    while i < |values| - 1
      invariant 1 <= i
      invariant forall k, l :: 0 <= k < l < |peaks| ==> peaks[k] < peaks[l]
      invariant forall k :: 0 <= k < |peaks| ==> peaks[k] < i
      invariant forall j :: j in peaks <==> j < i && IsPeak(values, j, threshold)
    {
      if values[i] > threshold && values[i] > values[i - 1] && values[i] > values[i + 1] {
        peaks := peaks + [i];
      }
      i := i + 1;
    }
  }

  /** Two neighbouring positions are never both peaks. */
  lemma PeaksNotAdjacent(values: seq<real>, i: int, threshold: real)
    ensures !(IsPeak(values, i, threshold) && IsPeak(values, i + 1, threshold))
  {
  }

  // ---------------------------------------------------------------------------
  // calculateAverage
  // ---------------------------------------------------------------------------

  /** What `calculateAverage` returns: 0 without values, else the sum over the count. */
  function Average(values: Option<seq<real>>): real {
    if values.None? || |values.value| == 0 then 0.0 else Sum(values.value) / |values.value| as real
  }

  /** The average of values between `lo` and `hi` lies between them. */
  lemma AverageBounds(values: seq<real>, lo: real, hi: real)
    requires |values| > 0 && forall i :: 0 <= i < |values| ==> lo <= values[i] <= hi
    ensures lo <= Average(Some(values)) <= hi
  {
    SumBounds(values, lo, hi);
    var n := |values| as real;
    assert n * lo <= Sum(values) <= n * hi;
    DivBetween(Sum(values), n, lo, hi);
  }

  lemma DivBetween(x: real, n: real, lo: real, hi: real)
    requires n > 0.0 && n * lo <= x <= n * hi
    ensures lo <= x / n <= hi
  {
  }

  /** The average of a constant signal is that constant. */
  lemma AverageConstant(values: seq<real>, c: real)
    requires |values| > 0 && forall i :: 0 <= i < |values| ==> values[i] == c
    ensures Average(Some(values)) == c
  {
    SumConst(values, c);
  }

  /** `calculateAverage`: one summing loop. */
  method CalculateAverage(values: Option<seq<real>>) returns (avg: real)
    ensures avg == Average(values)
  {
    if values.None? || |values.value| == 0 {
      return 0.0;
    }
    var vs := values.value;
    var sum := 0.0;
    for i := 0 to |vs|
      invariant sum == Sum(vs[..i])
    {
      assert vs[..i + 1][..i] == vs[..i];
      sum := sum + vs[i];
    }
    assert vs[..|vs|] == vs;
    return sum / |vs| as real;
  }
}
