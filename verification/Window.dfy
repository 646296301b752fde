/** The time window of a query. Times are nanoseconds since Go's zero time, durations are int64 nanoseconds. */
module Window {
  import opened Collections

  const MAX64 := 0x7FFF_FFFF_FFFF_FFFF
  const MIN64 := -0x8000_0000_0000_0000
  const SECOND := 1_000_000_000
  const DEFAULT_LENGTH_SECONDS := 300

  predicate InInt64(x: int) {
    MIN64 <= x <= MAX64
  }

  /** Two's complement wrap-around. */
  function Wrap64(x: int): (r: int)
    ensures InInt64(r) && (r == x <==> InInt64(x))
  {
    (x - MIN64) % 0x1_0000_0000_0000_0000 + MIN64
  }

  /** Go's integer division truncates toward zero. */
  function TruncDiv(a: int, b: int): int
    requires b > 0
  {
    if a >= 0 then a / b else -((-a) / b)
  }

  /** `time.Time.Round`: to the nearest multiple of `d` since the zero time, halves up. */
  function Round(t: int, d: int): int
    requires d > 0
  {
    var r := t % d;
    if r + r < d then t - r else t + (d - r)
  }

  /** A number of seconds as a `time.Duration`. */
  function Seconds(n: int): int {
    Wrap64(n * SECOND)
  }

  function RoundedNow(now: int, roundingPeriod: int): int {
    if roundingPeriod > 0 then Round(now + TruncDiv(-roundingPeriod, 2), roundingPeriod) else now
  }

  function EndOf(now: int, roundingPeriod: int, delay: int): int {
    RoundedNow(now, roundingPeriod) + Wrap64(-delay)
  }

  function StartOf(now: int, roundingPeriod: int, length: int, delay: int): int {
    RoundedNow(now, roundingPeriod) + Wrap64(-Wrap64(length + delay))
  }

  ghost predicate IsMultiple(t: int, d: int) {
    exists q :: t == q * d
  }

  /** Two multiples of `d` that differ are at least `d` apart. */
  lemma MultiplesApart(p: int, q: int, d: int)
    requires d > 0 && p > q
    ensures p * d >= q * d + d
  {
    assert p * d - q * d == (p - q) * d;
    assert (p - q) * d == (p - q - 1) * d + d;
  }

  lemma Quotient(t: int, d: int, q: int, r: int)
    requires d > 0 && t == q * d + r && 0 <= r < d
    ensures t % d == r
  {
    assert t == (t / d) * d + t % d;
    if t / d < q {
      MultiplesApart(q, t / d, d);
    } else if t / d > q {
      MultiplesApart(t / d, q, d);
    }
  }

  /** Subtracting half a period and rounding to nearest is rounding down, for even and odd periods alike. */
  lemma RoundingIsFloor(now: int, period: int)
    requires period > 0
    ensures RoundedNow(now, period) == now - now % period
  {
    var half, q, r := period / 2, now / period, now % period;
    var shifted := now - half;
    assert TruncDiv(-period, 2) == -half;
    if r >= half {
      assert shifted == q * period + (r - half);
      Quotient(shifted, period, q, r - half);
    } else {
      assert (q - 1) * period == q * period - period;
      assert shifted == (q - 1) * period + (period + r - half);
      Quotient(shifted, period, q - 1, period + r - half);
    }
  }

  /** The greatest multiple of the period that is not after `now`. */
  lemma RoundedIsGreatestMultiple(now: int, period: int, other: int)
    requires period > 0
    ensures IsMultiple(RoundedNow(now, period), period)
    ensures now - period < RoundedNow(now, period) <= now
    ensures IsMultiple(other, period) && other <= now ==> other <= RoundedNow(now, period)
  {
    RoundingIsFloor(now, period);
    var q := now / period;
    assert RoundedNow(now, period) == q * period;
    if IsMultiple(other, period) && other <= now {
      var p :| other == p * period;
      if p > q {
        MultiplesApart(p, q, period);
      } else if p < q {
        MultiplesApart(q, p, period);
      }
    }
  }

  /** Rounding keeps the order of times. */
  lemma RoundingIsMonotone(now: int, later: int, period: int)
    requires now <= later
    ensures RoundedNow(now, period) <= RoundedNow(later, period)
  {
    if period > 0 {
      RoundedIsGreatestMultiple(now, period, 0);
      RoundedIsGreatestMultiple(later, period, RoundedNow(now, period));
    }
  }

  const WORD := 0x1_0000_0000_0000_0000

  lemma WrapForm(x: int) returns (q: int)
    ensures x == Wrap64(x) + q * WORD
  {
    q := (x - MIN64) / WORD;
  }

  lemma WrapShift(x: int, q: int)
    ensures Wrap64(x + q * WORD) == Wrap64(x)
  {
    var p := WrapForm(x + q * WORD);
    var o := WrapForm(x);
    assert Wrap64(x + q * WORD) - Wrap64(x) == (o + q - p) * WORD;
  }

  /** Wrapping in between makes no difference to the value wrapped in the end. */
  lemma WrapOnce(x: int, delay: int)
    ensures Wrap64(-Wrap64(Wrap64(x) + delay)) == Wrap64(Wrap64(-delay) - x)
  {
    var p := WrapForm(x);
    var q := WrapForm(Wrap64(x) + delay);
    var o := WrapForm(-delay);
    assert -Wrap64(Wrap64(x) + delay) == (Wrap64(-delay) - x) + (o + p + q) * WORD;
    WrapShift(Wrap64(-delay) - x, o + p + q);
  }

  /**
   The end lies within a period before the time less the delay, and the window is as wide as `width` asks for exactly
   if the offset of its start fits an int64. (The offset of the end is the negated delay; the least int64, which has
   no negation, is its own.)
   */
  ghost predicate IsWindow(now: int, period: int, width: int, delay: int, start: int, end: int) {
    var offset := Wrap64(-delay);
    && (period > 0 ==> now + offset - period < end <= now + offset)
    && (period <= 0 ==> end == now + offset)
    && (end - start == width <==> InInt64(offset - width))
  }

  /** Where the window lies and how wide it is, for all durations; also when `x` was wrapped to give the length. */
  lemma WindowPlacement(now: int, period: int, x: int, delay: int)
    ensures IsWindow(now, period, x, delay, StartOf(now, period, Wrap64(x), delay), EndOf(now, period, delay))
    ensures InInt64(delay) && delay != MIN64 ==> Wrap64(-delay) == -delay
  {
    if period > 0 {
      RoundedIsGreatestMultiple(now, period, now);
    }
    WrapOnce(x, delay);
  }

  method DetermineGetMetricDataWindow(now: int, roundingPeriod: int, length: int, delay: int)
    returns (startTime: int, endTime: int)
    requires InInt64(length) && InInt64(delay)
    ensures startTime == StartOf(now, roundingPeriod, length, delay) && endTime == EndOf(now, roundingPeriod, delay)
    ensures IsWindow(now, roundingPeriod, length, delay, startTime, endTime)
  {
    var rounded := now;
    if roundingPeriod > 0 {
      rounded := rounded + TruncDiv(-roundingPeriod, 2);
      rounded := Round(rounded, roundingPeriod);
    }
    startTime := rounded + Wrap64(-Wrap64(length + delay));
    endTime := rounded + Wrap64(-delay);
    WindowPlacement(now, roundingPeriod, length, delay);
  }

  // ---- the length of the window ----

  /** The greatest of the defaulted job length and the metric lengths, in seconds. */
  ghost predicate IsWindowLength(length: int, jobLength: int, metricLengths: seq<int>) {
    var floor := if jobLength > 0 then jobLength else 300;
    && length >= floor
    && (forall i :: 0 <= i < |metricLengths| ==> length >= metricLengths[i])
    && (length == floor || length in metricLengths)
  }

  method GetMetricDataInputLength(jobLength: int, metricLengths: seq<int>) returns (length: int)
    ensures IsWindowLength(length, jobLength, metricLengths)
  {
    length := DEFAULT_LENGTH_SECONDS;
    if jobLength > 0 {
      length := jobLength;
    }
    for i := 0 to |metricLengths|
      invariant IsWindowLength(length, jobLength, metricLengths[..i])
    {
      if metricLengths[i] > length {
        length := metricLengths[i];
      }
      assert metricLengths[..i + 1] == metricLengths[..i] + [metricLengths[i]];
      assert metricLengths[..i + 1][i] == metricLengths[i];
      assert forall k :: 0 <= k < i ==> metricLengths[..i + 1][k] == metricLengths[..i][k];
    }
    assert metricLengths[..|metricLengths|] == metricLengths;
  }

  /**
   The window is as wide as the greatest length asked for exactly if the offset of its start fits an int64, and then
   it covers what the job and each of its metrics ask for. Lengths and delays are any numbers of seconds: also those
   that wrap when they are made durations.
   */
  lemma WindowCoversJob(now: int, period: int, seconds: int, delay: int, jobLength: int, metricLengths: seq<int>)
    requires IsWindowLength(seconds, jobLength, metricLengths)
    ensures var start := StartOf(now, period, Seconds(seconds), Seconds(delay));
            var end := EndOf(now, period, Seconds(delay));
      && (end - start == seconds * 1_000_000_000
          <==> InInt64(Wrap64(-(delay * 1_000_000_000)) - seconds * 1_000_000_000))
      && (end - start == seconds * 1_000_000_000 ==>
            && end - start >= (if jobLength > 0 then jobLength else 300) * 1_000_000_000
            && (forall i :: 0 <= i < |metricLengths| ==> end - start >= metricLengths[i] * 1_000_000_000))
  {
    WindowPlacement(now, period, seconds * SECOND, Seconds(delay));
    WrapOnce(delay * SECOND, 0);
  }
}
