/** Retrying with jittered exponential backoff. Durations are int64 nanoseconds, the attempt counter is a uint8. */
module Retry {
  import opened Collections
  import opened Window

  type Error = string

  /** The function that is retried: its n-th call gives `results(n)`; `None` is the nil error. */
  class Operation {
    const results: nat -> Option<Error>
    var calls: nat

    constructor (results: nat -> Option<Error>)
      ensures this.results == results && calls == 0
    {
      this.results := results;
      calls := 0;
    }

    method Call() returns (err: Option<Error>)
      modifies this
      ensures calls == old(calls) + 1 && err == results(old(calls))
    {
      err := results(calls);
      calls := calls + 1;
    }
  }

  /** Where the process sleeps. */
  class Clock {
    var slept: seq<int>

    constructor ()
      ensures slept == []
    {
      slept := [];
    }

    method Sleep(d: int)
      modifies this
      ensures slept == old(slept) + [d]
    {
      slept := slept + [d];
    }
  }

  /** Drawing a jitter from an empty range panics. */
  datatype Outcome = Returned(err: Option<Error>) | Panicked

  // ---- the sleeps as a function of the jitters ----

  /** The variable `sleep` after the jitters drawn so far. */
  function Current(sleep: int, jitters: seq<int>): int
    decreases |jitters|, 1
  {
    if jitters == [] then sleep
    else Wrap64(2 * LastSleep(sleep, jitters))
  }

  /** How long the sleep was that the last jitter lengthened. */
  function LastSleep(sleep: int, jitters: seq<int>): int
    requires jitters != []
    decreases |jitters|, 0
  {
    var n := |jitters| - 1;
    Wrap64(Current(sleep, jitters[..n]) + jitters[n] / 2)
  }

  function Sleeps(sleep: int, jitters: seq<int>): (r: seq<int>)
    ensures |r| == |jitters|
  {
    if jitters == [] then []
    else Sleeps(sleep, jitters[..|jitters| - 1]) + [LastSleep(sleep, jitters)]
  }

  /** Every jitter was drawn from zero up to the current sleep. */
  predicate Drawn(sleep: int, jitters: seq<int>) {
    jitters == [] ||
    var n := |jitters| - 1;
    Drawn(sleep, jitters[..n]) && 0 <= jitters[n] < Current(sleep, jitters[..n])
  }

  /** The jitters were drawn in range, `pause` follows from them, and so does what was slept since `before`. */
  ghost predicate InStep(sleep: int, jitters: seq<int>, pause: int, slept: seq<int>, before: seq<int>) {
    pause == Current(sleep, jitters) && Drawn(sleep, jitters) && slept == before + Sleeps(sleep, jitters)
  }

  lemma NothingDrawn(sleep: int, slept: seq<int>)
    ensures InStep(sleep, [], sleep, slept, slept)
  {
  }

  ghost predicate AllFailed(f: Operation, first: nat, calls: nat) {
    forall i: nat :: first <= i < first + calls ==> f.results(i).Some?
  }

  /**
   How the outcome follows from `made` calls: nil after the first success (or without any attempt), the last
   error after as many failures as there are attempts, a panic after a failure that leaves attempts.
   */
  ghost predicate Justified(f: Operation, first: nat, made: nat, maxAttempts: nat, outcome: Outcome) {
    match outcome
    case Panicked => 0 < made < maxAttempts && AllFailed(f, first, made)
    case Returned(None) =>
      if maxAttempts == 0 then made == 0
      else 0 < made <= maxAttempts && AllFailed(f, first, made - 1) && f.results(first + made - 1).None?
    case Returned(err) =>
      0 < made == maxAttempts && AllFailed(f, first, made) && err == f.results(first + made - 1)
  }

  method RetryOnErr(f: Operation, clock: Clock, maxAttempts: nat, sleep: int)
    returns (outcome: Outcome, ghost jitters: seq<int>)
    requires maxAttempts < 256
    modifies f, clock
    ensures old(f.calls) <= f.calls <= old(f.calls) + maxAttempts
    ensures Justified(f, old(f.calls), f.calls - old(f.calls), maxAttempts, outcome)
    ensures |jitters| == if maxAttempts == 0 then 0 else f.calls - old(f.calls) - 1
    ensures InStep(sleep, jitters, Current(sleep, jitters), clock.slept, old(clock.slept))
    ensures outcome.Panicked? ==> Current(sleep, jitters) <= 0
  {
    jitters := [];
    var attempt := 1;
    var pause := sleep;
    NothingDrawn(sleep, clock.slept);
    while attempt <= maxAttempts
      invariant attempt == 1 || 1 <= attempt <= maxAttempts
      invariant f.calls == old(f.calls) + attempt - 1 && |jitters| == attempt - 1
      invariant AllFailed(f, old(f.calls), attempt - 1)
      invariant InStep(sleep, jitters, pause, clock.slept, old(clock.slept))
      decreases maxAttempts - attempt
    {
      var ended;
      ended, pause, jitters := Turn(f, clock, attempt, maxAttempts, pause, sleep, jitters, old(clock.slept));
      if ended.Some? {
        return ended.value, jitters;
      }
      attempt := (attempt + 1) % 256;
    }
    outcome := Returned(None);
  }

  /** One turn of the loop: a call, and unless the loop ends with it, a jitter and a sleep. */
  method Turn(f: Operation, clock: Clock, attempt: nat, maxAttempts: nat, pause: int,
              ghost sleep: int, ghost jitters: seq<int>, ghost before: seq<int>)
    returns (ended: Option<Outcome>, next: int, ghost more: seq<int>)
    requires 1 <= attempt <= maxAttempts < 256 && attempt - 1 <= f.calls
    requires AllFailed(f, f.calls - (attempt - 1), attempt - 1)
    requires InStep(sleep, jitters, pause, clock.slept, before)
    modifies f, clock
    ensures f.calls == old(f.calls) + 1
    ensures ended.Some? ==>
      && Justified(f, f.calls - attempt, attempt, maxAttempts, ended.value)
      && more == jitters && next == pause && clock.slept == old(clock.slept)
      && (ended.value.Panicked? ==> pause <= 0)
    ensures ended.None? ==> attempt < maxAttempts && |more| == |jitters| + 1 && AllFailed(f, f.calls - attempt, attempt)
    ensures InStep(sleep, more, next, clock.slept, before)
  {
    next, more := pause, jitters;
    var err := f.Call();
    if err.None? {
      return Some(Returned(None)), next, more;
    }
    if attempt == maxAttempts {
      return Some(Returned(err)), next, more;
    }
    if pause <= 0 {
      return Some(Panicked), next, more;
    }
    next, more := BackOff(clock, pause, sleep, jitters, before);
    ended := None;
  }

  /** The end of one turn of the loop: lengthen the sleep by a random jitter, sleep, double it. */
  method BackOff(clock: Clock, pause: int, ghost sleep: int, ghost jitters: seq<int>, ghost before: seq<int>)
    returns (next: int, ghost more: seq<int>)
    requires pause > 0 && InStep(sleep, jitters, pause, clock.slept, before)
    modifies clock
    ensures |more| == |jitters| + 1 && InStep(sleep, more, next, clock.slept, before)
  {
    assert 0 <= 0 < pause;
    var jitter: int :| 0 <= jitter < pause;
    more := jitters + [jitter];
    assert more[..|jitters|] == jitters;
    next := Wrap64(pause + jitter / 2);
    clock.Sleep(next);
    next := Wrap64(2 * next);
  }

  // ---- bounds for every jitter sequence ----

  /** `s` times the n-th power of two. */
  function Doubled(s: int, n: nat): int {
    if n == 0 then s else 2 * Doubled(s, n - 1)
  }

  /** `s` times the n-th power of three. */
  function Tripled(s: int, n: nat): int {
    if n == 0 then s else 3 * Tripled(s, n - 1)
  }

  function Sum(s: seq<int>): int {
    if s == [] then 0 else Sum(s[..|s| - 1]) + s[|s| - 1]
  }

  /** The variable `sleep` in unbounded arithmetic. */
  function Ideal(sleep: int, jitters: seq<int>): int {
    if jitters == [] then sleep
    else
      var n := |jitters| - 1;
      2 * (Ideal(sleep, jitters[..n]) + jitters[n] / 2)
  }

  /** The greatest value it can have after `n` jitters, by drawing the greatest jitter each time. */
  function Peak(sleep: int, n: nat): int {
    if n == 0 then sleep else AfterGreatest(Peak(sleep, n - 1))
  }

  /** The next value after the greatest jitter. */
  function AfterGreatest(current: int): int {
    2 * (current + (current - 1) / 2)
  }

  ghost predicate NeverWraps(sleep: int, n: nat) {
    forall jitters :: |jitters| <= n && Drawn(sleep, jitters) ==> Current(sleep, jitters) == Ideal(sleep, jitters)
  }

  lemma {:induction false} PeakGrows(sleep: int, m: nat, n: nat)
    requires sleep > 0 && m <= n
    ensures 0 < Peak(sleep, m) <= Peak(sleep, n)
  {
    if m < n {
      PeakGrows(sleep, m, n - 1);
    } else if n > 0 {
      PeakGrows(sleep, n - 1, n - 1);
    }
  }

  lemma {:induction false} BelowPeak(sleep: int, jitters: seq<int>)
    requires 0 < sleep && Drawn(sleep, jitters) && Peak(sleep, |jitters|) <= MAX64
    ensures 0 < Current(sleep, jitters) == Ideal(sleep, jitters) <= Peak(sleep, |jitters|)
  {
    if jitters != [] {
      var n := |jitters| - 1;
      PeakGrows(sleep, n, n + 1);
      BelowPeak(sleep, jitters[..n]);
    }
  }

  /** No matter what is drawn, `n` sleeps fit an int64. The doubling after the last sleep need not. */
  predicate SleepsFit(sleep: int, n: nat) {
    n == 0 || Peak(sleep, n) <= 2 * MAX64
  }

  ghost predicate Bounded(sleep: int, slept: seq<int>) {
    && (forall i: nat :: i < |slept| ==> SleepInBounds(sleep, slept[i], i))
    && Doubled(sleep, |slept|) - sleep <= Sum(slept)
    && 4 * Sum(slept) <= 3 * (Tripled(sleep, |slept|) - sleep)
  }

  /**
   For every jitter sequence, as long as the sleeps fit: the i-th sleep lies between 2^i and 3/2 times 3^i first
   sleeps, and the total of n sleeps between 2^n - 1 and 3/4 times 3^n - 1 of them.
   */
  lemma {:induction false} BackoffBounds(sleep: int, jitters: seq<int>)
    requires sleep > 0 && Drawn(sleep, jitters) && SleepsFit(sleep, |jitters|)
    ensures 0 < Doubled(sleep, |jitters|) <= Ideal(sleep, jitters) <= Tripled(sleep, |jitters|)
    ensures Bounded(sleep, Sleeps(sleep, jitters))
  {
    if jitters != [] {
      var n := |jitters| - 1;
      EarlierSleepsFit(sleep, n, n + 1);
      BackoffBounds(sleep, jitters[..n]);
      BelowPeak(sleep, jitters[..n]);
      OneSleep(sleep, jitters);
      NextSleep(sleep, jitters);
      BoundedNext(sleep, Sleeps(sleep, jitters[..n]), LastSleep(sleep, jitters));
    }
  }

  lemma BoundedNext(sleep: int, slept: seq<int>, last: int)
    requires Bounded(sleep, slept) && SleepInBounds(sleep, last, |slept|)
    ensures Bounded(sleep, slept + [last])
  {
    assert (slept + [last])[..|slept|] == slept;
  }

  lemma EarlierSleepsFit(sleep: int, m: nat, n: nat)
    requires sleep > 0 && m < n && SleepsFit(sleep, n)
    ensures SleepsFit(sleep, m) && Peak(sleep, m) <= MAX64
  {
    PeakGrows(sleep, m, n - 1);
    PeakDoubles(sleep, n);
  }

  lemma PeakDoubles(sleep: int, n: nat)
    requires sleep > 0 && n > 0
    ensures 0 < 2 * Peak(sleep, n - 1) <= Peak(sleep, n)
  {
    PeakGrows(sleep, 0, n - 1);
  }

  /** One turn without wrapping: the sleep is at least the current one, and at most half as much again. */
  lemma OneSleep(sleep: int, jitters: seq<int>)
    requires jitters != [] && Drawn(sleep, jitters) && SleepsFit(sleep, |jitters|)
    requires var n := |jitters| - 1;
      0 < Current(sleep, jitters[..n]) == Ideal(sleep, jitters[..n]) <= Peak(sleep, n)
    ensures var before, last := Ideal(sleep, jitters[..|jitters| - 1]), LastSleep(sleep, jitters);
      before <= last && 2 * last <= 3 * before && Ideal(sleep, jitters) == 2 * last
  {
  }

  lemma NextSleep(sleep: int, jitters: seq<int>)
    requires jitters != []
    ensures var n := |jitters| - 1; var before := Sleeps(sleep, jitters[..n]);
      && Sleeps(sleep, jitters) == before + [LastSleep(sleep, jitters)]
      && Sum(Sleeps(sleep, jitters)) == Sum(before) + LastSleep(sleep, jitters)
  {
    assert Sleeps(sleep, jitters)[..|jitters| - 1] == Sleeps(sleep, jitters[..|jitters| - 1]);
  }

  ghost predicate SleepInBounds(sleep: int, slept: int, i: nat) {
    Doubled(sleep, i) <= slept && 2 * slept <= 3 * Tripled(sleep, i)
  }

  /** Room for every jitter that can be drawn; a single attempt draws none. */
  predicate NoPanic(sleep: int, maxAttempts: nat) {
    maxAttempts < 2 || (sleep > 0 && Peak(sleep, maxAttempts - 2) <= MAX64)
  }

  /** The whole call: it cannot panic, and it returns an error if and only if all attempts failed, the last one. */
  method RetrySafely(f: Operation, clock: Clock, maxAttempts: nat, sleep: int) returns (err: Option<Error>)
    requires maxAttempts < 256 && NoPanic(sleep, maxAttempts)
    modifies f, clock
    ensures err.Some? <==> maxAttempts > 0 && AllFailed(f, old(f.calls), maxAttempts)
    ensures err.Some? ==> err == f.results(old(f.calls) + maxAttempts - 1)
    ensures maxAttempts > 0 ==> f.calls > old(f.calls)
    ensures |old(clock.slept)| <= |clock.slept| && old(clock.slept) == clock.slept[..|old(clock.slept)|]
    ensures var slept := clock.slept[|old(clock.slept)|..];
      && |slept| == (if maxAttempts == 0 then 0 else f.calls - old(f.calls) - 1)
      && (sleep > 0 && SleepsFit(sleep, |slept|) ==> Bounded(sleep, slept))
  {
    var outcome: Outcome;
    ghost var jitters;
    outcome, jitters := RetryOnErr(f, clock, maxAttempts, sleep);
    if outcome.Panicked? {
      PeakGrows(sleep, |jitters|, maxAttempts - 2);
      BelowPeak(sleep, jitters);
    }
    if sleep > 0 && SleepsFit(sleep, |jitters|) {
      BackoffBounds(sleep, jitters);
    }
    assert clock.slept[|old(clock.slept)|..] == Sleeps(sleep, jitters);
    err := outcome.err;
  }

  // ---- exactly when a run can panic, and when it can wrap ----

  lemma {:induction false} PeakIsReached(sleep: int, n: nat) returns (jitters: seq<int>)
    requires 0 < sleep && (n == 0 || Peak(sleep, n - 1) <= MAX64)
    ensures |jitters| == n && Drawn(sleep, jitters) && Ideal(sleep, jitters) == Peak(sleep, n)
  {
    if n == 0 {
      jitters := [];
    } else {
      PeakGrows(sleep, if n == 1 then 0 else n - 2, n - 1);
      var before := PeakIsReached(sleep, n - 1);
      BelowPeak(sleep, before);
      jitters := before + [Peak(sleep, n - 1) - 1];
      assert jitters[..n - 1] == before;
    }
  }

  /** No run of `n` sleeps wraps, whatever it draws, if and only if the peak fits an int64. */
  lemma {:induction false} NeverWrapsIffPeakFits(sleep: int, n: nat)
    requires 0 < sleep <= MAX64
    ensures NeverWraps(sleep, n) <==> Peak(sleep, n) <= MAX64
  {
    if Peak(sleep, n) <= MAX64 {
      forall jitters | |jitters| <= n && Drawn(sleep, jitters)
        ensures Current(sleep, jitters) == Ideal(sleep, jitters)
      {
        PeakGrows(sleep, |jitters|, n);
        BelowPeak(sleep, jitters);
      }
    } else {
      var m := FirstOverflow(sleep, n);
      var jitters := PeakIsReached(sleep, m);
      assert InInt64(Current(sleep, jitters));
    }
  }

  /** From any value whose greatest successor overflows, some jitter makes the next range empty. */
  lemma EmptyingJitter(c: int) returns (jitter: int)
    requires 0 < c <= MAX64 < AfterGreatest(c)
    ensures 0 <= jitter < c && Wrap64(2 * Wrap64(c + jitter / 2)) <= 0
  {
    var quarter := 0x4000_0000_0000_0000;
    assert c + (c - 1) / 2 >= quarter;
    if 2 * c > MAX64 {
      jitter := 0;
      assert Wrap64(2 * c) == 2 * c - 0x1_0000_0000_0000_0000;
    } else {
      jitter := 2 * (quarter - c);
      assert c + jitter / 2 == quarter;
    }
  }

  /** At the first overflow a run can panic. */
  lemma OverflowPanics(sleep: int, n: nat) returns (jitters: seq<int>)
    requires 0 < sleep && Peak(sleep, n) <= MAX64 < Peak(sleep, n + 1)
    ensures |jitters| == n + 1 && Drawn(sleep, jitters) && Current(sleep, jitters) <= 0
  {
    var before := PeakIsReached(sleep, n);
    BelowPeak(sleep, before);
    var jitter := EmptyingJitter(Current(sleep, before));
    jitters := before + [jitter];
    assert jitters[..n] == before;
  }

  /** No jitter sequence of up to `n` draws leaves an empty range if and only if the peak fits an int64. */
  lemma RangeNeverEmptyIffPeakFits(sleep: int, n: nat)
    requires 0 < sleep <= MAX64
    ensures (forall jitters :: |jitters| <= n && Drawn(sleep, jitters) ==> Current(sleep, jitters) > 0)
       <==> Peak(sleep, n) <= MAX64
  {
    if Peak(sleep, n) <= MAX64 {
      forall jitters | |jitters| <= n && Drawn(sleep, jitters) ensures Current(sleep, jitters) > 0 {
        PeakGrows(sleep, |jitters|, n);
        BelowPeak(sleep, jitters);
      }
    } else {
      var m := FirstOverflow(sleep, n);
      var jitters := OverflowPanics(sleep, m - 1);
    }
  }

  /**
   The condition of `RetrySafely` is exact, for every first sleep: after a failure that leaves attempts a jitter is
   drawn, which panics on an empty range, and no such range is empty if and only if `NoPanic` holds.
   */
  lemma NoPanicIsExact(sleep: int, maxAttempts: nat)
    requires InInt64(sleep)
    ensures (forall jitters :: |jitters| + 2 <= maxAttempts && Drawn(sleep, jitters) ==> Current(sleep, jitters) > 0)
       <==> NoPanic(sleep, maxAttempts)
  {
    if maxAttempts >= 2 {
      if sleep > 0 {
        RangeNeverEmptyIffPeakFits(sleep, maxAttempts - 2);
        assert forall jitters: seq<int> :: |jitters| + 2 <= maxAttempts <==> |jitters| <= maxAttempts - 2;
      } else {
        assert Drawn(sleep, []) && Current(sleep, []) == sleep;
      }
    }
  }

  /** The power of three that the peak stays below. */
  lemma {:induction false} PeakBelowTripled(sleep: int, n: nat)
    requires sleep > 0
    ensures 0 < Peak(sleep, n) <= Tripled(sleep, n)
  {
    if n > 0 {
      PeakBelowTripled(sleep, n - 1);
    }
  }

  /** In particular, with room for `maxAttempts - 1` triplings nothing panics and every sleep fits. */
  lemma TriplingsSuffice(sleep: int, maxAttempts: nat)
    requires sleep > 0 && maxAttempts > 0 && Tripled(sleep, maxAttempts - 1) <= MAX64
    ensures NoPanic(sleep, maxAttempts) && SleepsFit(sleep, maxAttempts - 1) && NeverWraps(sleep, maxAttempts - 1)
  {
    PeakBelowTripled(sleep, maxAttempts - 1);
    PeakGrows(sleep, 0, maxAttempts - 1);
    if maxAttempts > 1 {
      PeakGrows(sleep, maxAttempts - 2, maxAttempts - 1);
    }
    NeverWrapsIffPeakFits(sleep, maxAttempts - 1);
  }

  lemma {:induction false} FirstOverflow(sleep: int, n: nat) returns (m: nat)
    requires 0 < sleep <= MAX64 < Peak(sleep, n)
    ensures 0 < m <= n && Peak(sleep, m - 1) <= MAX64 < Peak(sleep, m)
  {
    if Peak(sleep, n - 1) <= MAX64 {
      m := n;
    } else {
      m := FirstOverflow(sleep, n - 1);
    }
  }

  /** The peak in closed form: after the first sleep its excess over one triples. */
  lemma {:induction false} PeakClosedForm(sleep: int, n: nat)
    requires sleep > 0 && n > 0
    ensures Peak(sleep, n) == Tripled(Peak(sleep, 1) - 1, n - 1) + 1
    ensures Peak(sleep, 1) == if sleep % 2 == 0 then 3 * sleep - 2 else 3 * sleep - 1
    ensures Peak(sleep, n) % 2 == 0
  {
    if n > 1 {
      PeakClosedForm(sleep, n - 1);
      AfterGreatestForm(Peak(sleep, n - 1));
    } else {
      assert Peak(sleep, 0) == sleep;
      AfterGreatestForm(sleep);
    }
  }

  lemma AfterGreatestForm(x: int)
    ensures AfterGreatest(x) == (if x % 2 == 0 then 3 * x - 2 else 3 * x - 1) && AfterGreatest(x) % 2 == 0
  {
    var half := (x - 1) / 2;
    assert x - 1 == 2 * half + (x - 1) % 2;
    assert (x - 1) % 2 == if x % 2 == 0 then 1 else 0;
  }
}
