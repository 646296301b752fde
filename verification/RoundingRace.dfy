/**
 The variable `roundingPeriod`, which the query workers lower without a lock: a worker compares a period
 with the variable in one step and writes it in a later one, so another worker can write in between.
 */
module RoundingRace {
  import opened Collections

  const DEFAULT_PERIOD := 300

  /** A worker is before the comparison for period `k`, or between that comparison and its write. */
  datatype Pc = At(k: nat) | Pending(k: nat)

  datatype State = State(value: int, pcs: seq<Pc>)

  datatype Action = Compare(i: nat) | Write(i: nat)

  type Periods = seq<seq<int>>

  ghost predicate Enabled(workers: Periods, s: State, a: Action)
    requires |s.pcs| == |workers|
  {
    a.i < |workers| && s.pcs[a.i].k < |workers[a.i]| && (if a.Compare? then s.pcs[a.i].At? else s.pcs[a.i].Pending?)
  }

  ghost function Apply(workers: Periods, s: State, a: Action): (t: State)
    requires |s.pcs| == |workers| && Enabled(workers, s, a)
    ensures |t.pcs| == |workers|
  {
    var k := s.pcs[a.i].k;
    if a.Write? then State(workers[a.i][k], s.pcs[a.i := At(k + 1)])
    else if workers[a.i][k] < s.value then s.(pcs := s.pcs[a.i := Pending(k)])
    else s.(pcs := s.pcs[a.i := At(k + 1)])
  }

  ghost function Init(workers: Periods): State {
    State(DEFAULT_PERIOD, seq(|workers|, i => At(0)))
  }

  ghost predicate Legal(workers: Periods, schedule: seq<Action>)
    decreases |schedule|, 0
  {
    schedule == [] ||
    var n := |schedule| - 1;
    Legal(workers, schedule[..n]) && Enabled(workers, After(workers, schedule[..n]), schedule[n])
  }

  ghost function After(workers: Periods, schedule: seq<Action>): (s: State)
    requires Legal(workers, schedule)
    ensures |s.pcs| == |workers|
    decreases |schedule|, 1
  {
    if schedule == [] then Init(workers)
    else
      var n := |schedule| - 1;
      Apply(workers, After(workers, schedule[..n]), schedule[n])
  }

  /** All workers have passed their last period, which is what the wait group waits for. */
  ghost predicate Complete(workers: Periods, schedule: seq<Action>) {
    Legal(workers, schedule) &&
    forall i :: 0 <= i < |workers| ==> After(workers, schedule).pcs[i] == At(|workers[i]|)
  }

  /** `m` is the smaller of `start` and all of `periods`. */
  ghost predicate IsMin(m: int, start: int, periods: seq<int>) {
    && m <= start && (forall k :: 0 <= k < |periods| ==> m <= periods[k])
    && (m == start || m in periods)
  }

  lemma MinNext(m: int, start: int, periods: seq<int>, k: nat)
    requires k < |periods| && IsMin(m, start, periods[..k])
    ensures IsMin(if periods[k] < m then periods[k] else m, start, periods[..k + 1])
  {
    assert periods[..k + 1] == periods[..k] + [periods[k]];
    assert periods[..k + 1][k] == periods[k];
    assert forall j :: 0 <= j < k ==> periods[..k + 1][j] == periods[..k][j];
  }

  // ---- one worker ----

  ghost predicate AloneInv(periods: seq<int>, s: State) {
    && |s.pcs| == 1 && s.pcs[0].k <= |periods|
    && IsMin(s.value, DEFAULT_PERIOD, periods[..s.pcs[0].k])
    && (s.pcs[0].Pending? ==> s.pcs[0].k < |periods| && periods[s.pcs[0].k] < s.value)
  }

  lemma {:induction false} AloneAfter(periods: seq<int>, schedule: seq<Action>)
    requires Legal([periods], schedule)
    ensures AloneInv(periods, After([periods], schedule))
    decreases |schedule|
  {
    if schedule == [] {
      assert periods[..0] == [];
    } else {
      var n := |schedule| - 1;
      AloneAfter(periods, schedule[..n]);
      var s := After([periods], schedule[..n]);
      MinNext(s.value, DEFAULT_PERIOD, periods, s.pcs[0].k);
    }
  }

  /** A single worker leaves the minimum of the default and all periods. */
  lemma SingleWorkerIsExact(periods: seq<int>, schedule: seq<Action>)
    requires Complete([periods], schedule)
    ensures IsMin(After([periods], schedule).value, DEFAULT_PERIOD, periods)
  {
    AloneAfter(periods, schedule);
    assert After([periods], schedule).pcs[0] == At(|[periods][0]|);
    assert periods[..|periods|] == periods;
  }

  // ---- any number of workers ----

  /** The least of the default and all periods of all workers. */
  ghost predicate IsLeast(workers: Periods, m: int) {
    && m <= DEFAULT_PERIOD
    && (forall i, k :: 0 <= i < |workers| && 0 <= k < |workers[i]| ==> m <= workers[i][k])
    && (m == DEFAULT_PERIOD || exists i, k :: 0 <= i < |workers| && 0 <= k < |workers[i]| && workers[i][k] == m)
  }

  /** The periods below the default, which are the ones that can be written at all, are all `p`. */
  ghost predicate SmallPeriodsAre(workers: Periods, p: int) {
    forall i, k :: 0 <= i < |workers| && 0 <= k < |workers[i]| && workers[i][k] < DEFAULT_PERIOD ==> workers[i][k] == p
  }

  ghost predicate AgreedInv(workers: Periods, p: int, s: State)
    requires |s.pcs| == |workers|
  {
    && (forall i :: 0 <= i < |workers| ==> s.pcs[i].k <= |workers[i]|)
    && (forall i :: 0 <= i < |workers| && s.pcs[i].Pending? ==>
          s.pcs[i].k < |workers[i]| && workers[i][s.pcs[i].k] == p < DEFAULT_PERIOD)
    && (s.value == DEFAULT_PERIOD || s.value == p < DEFAULT_PERIOD)
    && (forall i, k :: 0 <= i < |workers| && 0 <= k < s.pcs[i].k && workers[i][k] < DEFAULT_PERIOD ==> s.value == p)
    && (s.value != DEFAULT_PERIOD ==> exists i, k :: 0 <= i < |workers| && 0 <= k < |workers[i]| && workers[i][k] == p)
  }

  lemma StepAgreed(workers: Periods, p: int, s: State, a: Action)
    requires |s.pcs| == |workers| && Enabled(workers, s, a) && SmallPeriodsAre(workers, p) && AgreedInv(workers, p, s)
    ensures AgreedInv(workers, p, Apply(workers, s, a))
  {
    assert workers[a.i][s.pcs[a.i].k] < DEFAULT_PERIOD ==> workers[a.i][s.pcs[a.i].k] == p;
  }

  lemma {:induction false} AgreedAfter(workers: Periods, p: int, schedule: seq<Action>)
    requires Legal(workers, schedule) && SmallPeriodsAre(workers, p)
    ensures AgreedInv(workers, p, After(workers, schedule))
    decreases |schedule|
  {
    if schedule != [] {
      var n := |schedule| - 1;
      AgreedAfter(workers, p, schedule[..n]);
      StepAgreed(workers, p, After(workers, schedule[..n]), schedule[n]);
    }
  }

  /** When the periods below the default are equal no schedule of any number of workers can go wrong. */
  lemma UniformPeriodsAreExact(workers: Periods, p: int, schedule: seq<Action>)
    requires Complete(workers, schedule) && SmallPeriodsAre(workers, p)
    ensures IsLeast(workers, After(workers, schedule).value)
  {
    var s := After(workers, schedule);
    AgreedAfter(workers, p, schedule);
    forall i, k | 0 <= i < |workers| && 0 <= k < |workers[i]| ensures s.value <= workers[i][k] {
      assert s.pcs[i] == At(|workers[i]|);
    }
  }

  // ---- a schedule that loses the minimum ----

  lemma Then(workers: Periods, schedule: seq<Action>, a: Action) returns (longer: seq<Action>)
    requires Legal(workers, schedule) && Enabled(workers, After(workers, schedule), a)
    ensures longer == schedule + [a] && Legal(workers, longer)
    ensures After(workers, longer) == Apply(workers, After(workers, schedule), a)
  {
    longer := schedule + [a];
    assert longer[..|schedule|] == schedule;
  }

  ghost predicate AllAbove(periods: seq<int>, m: int) {
    forall k :: 0 <= k < |periods| ==> periods[k] > m
  }

  lemma PassOne(workers: Periods, schedule: seq<Action>, i: nat, k: nat, m: int) returns (longer: seq<Action>)
    requires Legal(workers, schedule) && i < |workers| && k < |workers[i]|
    requires After(workers, schedule).pcs[i] == At(k)
    ensures Legal(workers, longer)
    ensures var s, t := After(workers, schedule), After(workers, longer);
      && t.pcs == s.pcs[i := At(k + 1)]
      && (s.value > m && workers[i][k] > m ==> t.value > m)
  {
    var s := After(workers, schedule);
    longer := Then(workers, schedule, Compare(i));
    if workers[i][k] < s.value {
      longer := Then(workers, longer, Write(i));
      assert s.pcs[i := Pending(k)][i := At(k + 1)] == s.pcs[i := At(k + 1)];
    }
  }

  /** One worker can run to its end alone; with nothing to write at or below `m` it leaves a value above `m` above. */
  lemma {:induction false} FinishWorker(workers: Periods, schedule: seq<Action>, i: nat, k: nat, m: int)
    returns (longer: seq<Action>)
    requires Legal(workers, schedule) && i < |workers| && k <= |workers[i]|
    requires After(workers, schedule).pcs[i] == At(k)
    ensures Legal(workers, longer)
    ensures var s, t := After(workers, schedule), After(workers, longer);
      && t.pcs == s.pcs[i := At(|workers[i]|)]
      && (s.value > m && AllAbove(workers[i], m) ==> t.value > m)
    decreases |workers[i]| - k
  {
    if k == |workers[i]| {
      longer := schedule;
    } else {
      var passed := PassOne(workers, schedule, i, k, m);
      longer := FinishWorker(workers, passed, i, k + 1, m);
      assert After(workers, passed).pcs[i := At(|workers[i]|)] == After(workers, schedule).pcs[i := At(|workers[i]|)];
    }
  }

  /** All workers but `a` run to their ends, the first `n` of them so far. */
  lemma {:induction false} FinishOthers(workers: Periods, schedule: seq<Action>, a: nat, n: nat)
    returns (longer: seq<Action>)
    requires Legal(workers, schedule) && a < |workers| && n <= |workers|
    requires forall i: nat :: i < |workers| && i != a ==> After(workers, schedule).pcs[i] == At(0)
    ensures Legal(workers, longer)
    ensures var s, t := After(workers, schedule), After(workers, longer);
      && t.pcs[a] == s.pcs[a]
      && (forall i: nat :: i < n && i != a ==> t.pcs[i] == At(|workers[i]|))
      && (forall i: nat :: n <= i < |workers| && i != a ==> t.pcs[i] == At(0))
  {
    longer := schedule;
    if n > 0 {
      longer := FinishOthers(workers, schedule, a, n - 1);
      if n - 1 != a {
        longer := FinishWorker(workers, longer, n - 1, 0, 0);
      }
    }
  }

  /** A worker can pass periods that are not below the default without writing. */
  lemma {:induction false} PassLarge(workers: Periods, a: nat, k: nat) returns (schedule: seq<Action>)
    requires a < |workers| && k <= |workers[a]| && forall j :: 0 <= j < k ==> workers[a][j] >= DEFAULT_PERIOD
    ensures Legal(workers, schedule)
    ensures After(workers, schedule) == Init(workers).(pcs := Init(workers).pcs[a := At(k)])
  {
    if k == 0 {
      schedule := [];
      assert Init(workers).pcs[a := At(0)] == Init(workers).pcs;
    } else {
      schedule := PassLarge(workers, a, k - 1);
      schedule := Then(workers, schedule, Compare(a));
    }
  }

  lemma FirstSmall(periods: seq<int>) returns (k: nat)
    requires exists j :: 0 <= j < |periods| && periods[j] < DEFAULT_PERIOD
    ensures k < |periods| && periods[k] < DEFAULT_PERIOD && forall j :: 0 <= j < k ==> periods[j] >= DEFAULT_PERIOD
  {
    k := 0;
    while periods[k] >= DEFAULT_PERIOD
      invariant k < |periods| && forall j :: 0 <= j < k ==> periods[j] >= DEFAULT_PERIOD
      decreases |periods| - k
    {
      k := k + 1;
    }
  }

  /**
   A worker that has something to write, but nothing as small as `m`, can compare first and write last: whatever
   the others wrote in between is lost.
   */
  lemma MinimumCanBeLost(workers: Periods, a: nat, m: int) returns (schedule: seq<Action>)
    requires a < |workers| && AllAbove(workers[a], m)
    requires exists j :: 0 <= j < |workers[a]| && workers[a][j] < DEFAULT_PERIOD
    ensures Complete(workers, schedule) && After(workers, schedule).value > m
  {
    var k := FirstSmall(workers[a]);
    schedule := PassLarge(workers, a, k);
    schedule := Then(workers, schedule, Compare(a));
    schedule := FinishOthers(workers, schedule, a, |workers|);
    schedule := Then(workers, schedule, Write(a));
    schedule := FinishWorker(workers, schedule, a, k + 1, m);
  }

  /** Every worker's records have one period. */
  ghost predicate OnePeriodEach(workers: Periods) {
    forall i, k, l | 0 <= i < |workers| && 0 <= k < |workers[i]| && 0 <= l < |workers[i]| ::
      workers[i][k] == workers[i][l]
  }

  ghost predicate SmallPeriodsAgree(workers: Periods) {
    forall i, k, j, l |
      && 0 <= i < |workers| && 0 <= k < |workers[i]| && workers[i][k] < DEFAULT_PERIOD
      && 0 <= j < |workers| && 0 <= l < |workers[j]| && workers[j][l] < DEFAULT_PERIOD ::
      workers[i][k] == workers[j][l]
  }

  lemma CommonPeriod(workers: Periods) returns (p: int)
    requires SmallPeriodsAgree(workers)
    ensures SmallPeriodsAre(workers, p)
  {
    p := DEFAULT_PERIOD;
    if i, k :| 0 <= i < |workers| && 0 <= k < |workers[i]| && workers[i][k] < DEFAULT_PERIOD {
      p := workers[i][k];
    }
  }

  /** Workers with one period each keep the minimum in all schedules if and only if their small periods agree. */
  lemma MinimumIsKeptIffSmallPeriodsAgree(workers: Periods)
    requires OnePeriodEach(workers)
    ensures (forall schedule :: Complete(workers, schedule) ==> IsLeast(workers, After(workers, schedule).value))
       <==> SmallPeriodsAgree(workers)
  {
    if SmallPeriodsAgree(workers) {
      var p := CommonPeriod(workers);
      forall schedule | Complete(workers, schedule) ensures IsLeast(workers, After(workers, schedule).value) {
        UniformPeriodsAreExact(workers, p, schedule);
      }
    } else {
      var i, k, j, l :|
        && 0 <= i < |workers| && 0 <= k < |workers[i]| && workers[i][k] < DEFAULT_PERIOD
        && 0 <= j < |workers| && 0 <= l < |workers[j]| && workers[j][l] < DEFAULT_PERIOD
        && workers[i][k] < workers[j][l];
      var schedule := MinimumCanBeLost(workers, j, workers[i][k]);
      assert !IsLeast(workers, After(workers, schedule).value);
    }
  }
}
