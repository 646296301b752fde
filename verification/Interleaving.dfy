/**
 One run of everything: the job and metric workers, and inside them the page, filter and batch workers of every job
 and metric, take their steps in any interleaving that the program allows.
 */
module Interleaving {
  import opened Collections
  import opened Resources
  import opened Index
  import opened Filter
  import opened Records
  import opened Discovery
  import opened Queries
  import opened Matching
  import opened Batching
  import opened CollectData
  import ForkJoin
  import Nesting

  /** A step of a page worker of job `j`, of a filter or batch worker of its metric `k`, or at the outer levels. */
  datatype Step =
    | PageStep(j: nat, a: ForkJoin.Action)
    | FilterStep(j: nat, k: nat, a: ForkJoin.Action)
    | ScrapeStep(j: nat, k: nat, a: ForkJoin.Action)
    | OuterStep(a: ForkJoin.Action)

  /** What has happened so far: the schedules of the stages, kept with their jobs and metrics, and the outer one. */
  datatype State = State(jobs: seq<JobWork>, outer: seq<ForkJoin.Action>)

  ghost predicate HasMetric(jobs: seq<JobWork>, j: nat, k: nat) {
    j < |jobs| && k < |jobs[j].metrics|
  }

  ghost function JobIndex(jobs: seq<JobWork>, j: nat): nat
    requires j < |jobs|
  {
    Nesting.ParentIndex(JobLists(jobs), j)
  }

  ghost function MetricIndex(jobs: seq<JobWork>, j: nat, k: nat): nat
    requires HasMetric(jobs, j, k)
  {
    JobIndex(jobs, j) + 1 + k
  }

  /** Where the outer routine `i` is. */
  ghost function PcAt(s: State, i: nat): ForkJoin.Pc<Record>
    requires ForkJoin.Legal(CollectRoutines(s.jobs), s.outer)
  {
    var pcs := ForkJoin.After(CollectRoutines(s.jobs), s.outer).pcs;
    if i < |pcs| then pcs[i] else ForkJoin.Unborn
  }

  // ---- the stages of one metric ----

  ghost function PagesOf(job: JobWork): (routines: seq<ForkJoin.Routine<Resource>>)
    ensures ForkJoin.Forest(routines)
  {
    ForkJoin.Flat(ForkJoin.OneByOne(PageWork(job.search, job.pages)))
  }

  /** The page workers of the job have returned. */
  ghost predicate Tagged(job: JobWork) {
    AllValid(job.patterns) && ForkJoin.Complete(PagesOf(job), job.pageSchedule)
  }

  ghost function FiltersOf(job: JobWork, m: MetricWork): (routines: seq<ForkJoin.Routine<Metric>>)
    requires Tagged(job)
    ensures ForkJoin.Forest(routines)
  {
    FilterRoutines(RunIndex(QuestionOf(job, m), RunOf(job, m)), m.list)
  }

  /** The filter has returned and the responses are those to the batches that it leads to. */
  ghost predicate Asked(job: JobWork, m: MetricWork) {
    var q, run := QuestionOf(job, m), RunOf(job, m);
    Finished(q, run) && |m.responses| == |Batches(Discovered(q, run), BATCH)|
  }

  ghost function ScrapesOf(job: JobWork, m: MetricWork): (routines: seq<ForkJoin.Routine<Record>>)
    requires Asked(job, m)
    ensures ForkJoin.Forest(routines)
  {
    ScrapeRoutines(Discovered(QuestionOf(job, m), RunOf(job, m)), m.responses)
  }

  /** A stage has begun only if the one before it has returned, and has kept to its program. */
  ghost predicate InOrder(job: JobWork, m: MetricWork) {
    && (m.filterSchedule != [] ==> Tagged(job))
    && (Tagged(job) ==> ForkJoin.Legal(FiltersOf(job, m), m.filterSchedule))
    && (m.scrapeSchedule != [] ==> Asked(job, m))
    && (Asked(job, m) ==> ForkJoin.Legal(ScrapesOf(job, m), m.scrapeSchedule))
  }

  lemma NotDoneAtFirst(job: JobWork, m: MetricWork)
    requires m.scrapeSchedule == []
    ensures !MetricDone(job, m) && BlockSoFar(job, m) == []
  {
  }

  lemma DoneInOrder(job: JobWork, m: MetricWork)
    ensures MetricDone(job, m) <==> Asked(job, m) && ForkJoin.Complete(ScrapesOf(job, m), m.scrapeSchedule)
    ensures Asked(job, m) ==> Tagged(job)
  {
  }

  // ---- the steps ----

  ghost predicate MayStart(s: State, a: ForkJoin.Action) {
    && (a.Spawn? && a.i < |CollectRoutines(s.jobs)| ==> forall j: nat ::
          j < |s.jobs| && CollectRoutines(s.jobs)[a.i].parent == JobIndex(s.jobs, j) ==> Tagged(s.jobs[j]))
    && (a.Lock? ==> forall j: nat, k: nat ::
          HasMetric(s.jobs, j, k) && MetricIndex(s.jobs, j, k) == a.i ==> MetricDone(s.jobs[j], s.jobs[j].metrics[k]))
  }

  /** The stages run inside their workers; metric workers start after the pages, and append after their stages. */
  ghost predicate Enabled(s: State, step: Step) {
    ForkJoin.Legal(CollectRoutines(s.jobs), s.outer) &&
    match step
    case PageStep(j, a) =>
      && j < |s.jobs| && PcAt(s, JobIndex(s.jobs, j)).Idle?
      && ForkJoin.Legal(PagesOf(s.jobs[j]), s.jobs[j].pageSchedule + [a])
    case FilterStep(j, k, a) =>
      && HasMetric(s.jobs, j, k) && PcAt(s, MetricIndex(s.jobs, j, k)).Idle?
      && var job := s.jobs[j]; var m := job.metrics[k];
         Tagged(job) && ForkJoin.Legal(FiltersOf(job, m), m.filterSchedule + [a])
    case ScrapeStep(j, k, a) =>
      && HasMetric(s.jobs, j, k) && PcAt(s, MetricIndex(s.jobs, j, k)).Idle?
      && var job := s.jobs[j]; var m := job.metrics[k];
         Asked(job, m) && ForkJoin.Legal(ScrapesOf(job, m), m.scrapeSchedule + [a])
    case OuterStep(a) =>
      ForkJoin.Legal(CollectRoutines(s.jobs), s.outer + [a]) && MayStart(s, a)
  }

  ghost function WithMetric(job: JobWork, k: nat, m: MetricWork): JobWork
    requires k < |job.metrics|
  {
    job.(metrics := job.metrics[k := m])
  }

  ghost function Apply(s: State, step: Step): State
    requires Enabled(s, step)
  {
    match step
    case PageStep(j, a) =>
      var job := s.jobs[j];
      s.(jobs := s.jobs[j := job.(pageSchedule := job.pageSchedule + [a])])
    case FilterStep(j, k, a) =>
      var job := s.jobs[j]; var m := job.metrics[k];
      s.(jobs := s.jobs[j := WithMetric(job, k, m.(filterSchedule := m.filterSchedule + [a]))])
    case ScrapeStep(j, k, a) =>
      var job := s.jobs[j]; var m := job.metrics[k];
      s.(jobs := s.jobs[j := WithMetric(job, k, m.(scrapeSchedule := m.scrapeSchedule + [a]))])
    case OuterStep(a) => s.(outer := s.outer + [a])
  }

  // ---- the invariant ----

  /** A metric worker starts after its job's pages, and leaves its first place only when its stages have ended. */
  ghost predicate MetricInv(job: JobWork, m: MetricWork, pc: ForkJoin.Pc<Record>) {
    && InOrder(job, m)
    && (!pc.Unborn? ==> Tagged(job))
    && (!ForkJoin.NotBegun(pc) ==> MetricDone(job, m))
  }

  ghost predicate Inv(s: State) {
    && ForkJoin.Legal(CollectRoutines(s.jobs), s.outer)
    && (forall j: nat :: j < |s.jobs| ==> ForkJoin.Legal(PagesOf(s.jobs[j]), s.jobs[j].pageSchedule))
    && (forall j: nat, k: nat :: HasMetric(s.jobs, j, k) ==>
          MetricInv(s.jobs[j], s.jobs[j].metrics[k], PcAt(s, MetricIndex(s.jobs, j, k))))
  }

  /** Replacing one job leaves all places where they are. */
  lemma SamePlaces(jobs: seq<JobWork>, j: nat, job: JobWork, x: nat)
    requires j < |jobs| && x < |jobs| && |job.metrics| == |jobs[j].metrics|
    ensures JobIndex(jobs[j := job], x) == JobIndex(jobs, x)
  {
    Nesting.SameIndex(JobLists(jobs), JobLists(jobs[j := job]), x);
  }

  lemma SameRoutines(jobs: seq<JobWork>, j: nat, job: JobWork)
    requires j < |jobs| && JobBlocks(job) == JobBlocks(jobs[j])
    ensures CollectRoutines(jobs[j := job]) == CollectRoutines(jobs)
  {
    assert JobLists(jobs[j := job]) == JobLists(jobs);
  }

  lemma ChangedRoutines(jobs: seq<JobWork>, j: nat, k: nat, job: JobWork)
    requires HasMetric(jobs, j, k) && |job.metrics| == |jobs[j].metrics|
    requires JobBlocks(job) == JobBlocks(jobs[j])[k := JobBlocks(job)[k]]
    ensures var routines, i := CollectRoutines(jobs), MetricIndex(jobs, j, k);
      && i < |routines| && |routines[i].blocks| == 1
      && CollectRoutines(jobs[j := job]) == routines[i := routines[i].(blocks := [JobBlocks(job)[k]])]
  {
    var lists, block := JobLists(jobs), JobBlocks(job)[k];
    assert JobLists(jobs[j := job]) == lists[j := lists[j][k := block]];
    Nesting.ChildChanged(lists, j, k, block);
    MetricRoutine(jobs, j, k);
  }

  /** When only one metric's block becomes known, and its worker has not begun, the outer run is as it was. */
  lemma SameOuterRun(s: State, j: nat, k: nat, job: JobWork)
    requires ForkJoin.Legal(CollectRoutines(s.jobs), s.outer)
    requires HasMetric(s.jobs, j, k) && |job.metrics| == |s.jobs[j].metrics|
    requires JobBlocks(job) == JobBlocks(s.jobs[j])[k := JobBlocks(job)[k]]
    requires ForkJoin.NotBegun(PcAt(s, MetricIndex(s.jobs, j, k)))
    ensures ForkJoin.Legal(CollectRoutines(s.jobs[j := job]), s.outer)
    ensures forall i :: PcAt(s.(jobs := s.jobs[j := job]), i) == PcAt(s, i)
  {
    ChangedRoutines(s.jobs, j, k, job);
    ForkJoin.BlocksMayChange(CollectRoutines(s.jobs), s.outer, MetricIndex(s.jobs, j, k), [JobBlocks(job)[k]]);
  }

  // ---- every step keeps it ----

  /** The job and the places of its metrics, seen from the job alone. */
  ghost predicate JobInv(s: State, j: nat, job: JobWork)
    requires ForkJoin.Legal(CollectRoutines(s.jobs), s.outer) && j < |s.jobs|
  {
    && |job.metrics| == |s.jobs[j].metrics|
    && ForkJoin.Legal(PagesOf(job), job.pageSchedule)
    && (forall k: nat :: k < |job.metrics| ==> MetricInv(job, job.metrics[k], PcAt(s, MetricIndex(s.jobs, j, k))))
  }

  lemma InvOfJob(s: State, j: nat)
    requires Inv(s) && j < |s.jobs|
    ensures JobInv(s, j, s.jobs[j])
  {
  }

  /** A step inside one job is a matter of that job as long as the outer run stays as it was. */
  lemma JobReplaced(s: State, j: nat, job: JobWork)
    requires Inv(s) && j < |s.jobs| && JobInv(s, j, job)
    requires ForkJoin.Legal(CollectRoutines(s.jobs[j := job]), s.outer)
    requires forall i :: PcAt(s.(jobs := s.jobs[j := job]), i) == PcAt(s, i)
    ensures Inv(s.(jobs := s.jobs[j := job]))
  {
    var t := s.(jobs := s.jobs[j := job]);
    forall x: nat, k: nat | HasMetric(t.jobs, x, k)
      ensures MetricInv(t.jobs[x], t.jobs[x].metrics[k], PcAt(t, MetricIndex(t.jobs, x, k)))
    {
      SamePlaces(s.jobs, j, job, x);
      assert MetricIndex(t.jobs, x, k) == MetricIndex(s.jobs, x, k);
      if x != j {
        assert HasMetric(s.jobs, x, k);
      }
    }
  }

  lemma NothingKnown(job: JobWork)
    requires forall k: nat :: k < |job.metrics| ==> job.metrics[k].scrapeSchedule == []
    ensures JobBlocks(job) == seq(|job.metrics|, k => [])
  {
    forall k: nat | k < |job.metrics| ensures JobBlocks(job)[k] == [] {
      NotDoneAtFirst(job, job.metrics[k]);
    }
  }

  /** Before its pages have returned nothing has begun in a job. */
  lemma NothingBegun(s: State, j: nat)
    requires Inv(s) && j < |s.jobs| && !Tagged(s.jobs[j])
    ensures forall k: nat :: k < |s.jobs[j].metrics| ==>
      && s.jobs[j].metrics[k].filterSchedule == [] && s.jobs[j].metrics[k].scrapeSchedule == []
      && PcAt(s, MetricIndex(s.jobs, j, k)).Unborn?
  {
    InvOfJob(s, j);
    forall k: nat | k < |s.jobs[j].metrics|
      ensures s.jobs[j].metrics[k].filterSchedule == [] && s.jobs[j].metrics[k].scrapeSchedule == []
      ensures PcAt(s, MetricIndex(s.jobs, j, k)).Unborn?
    {
      DoneInOrder(s.jobs[j], s.jobs[j].metrics[k]);
    }
  }

  lemma NotYetInOrder(s: State, j: nat, job: JobWork)
    requires ForkJoin.Legal(CollectRoutines(s.jobs), s.outer) && j < |s.jobs| && job.metrics == s.jobs[j].metrics
    requires ForkJoin.Legal(PagesOf(job), job.pageSchedule)
    requires forall k: nat :: k < |job.metrics| ==>
      && job.metrics[k].filterSchedule == [] && job.metrics[k].scrapeSchedule == []
      && PcAt(s, MetricIndex(s.jobs, j, k)).Unborn?
    ensures JobInv(s, j, job)
  {
  }

  lemma PageStepKeeps(s: State, j: nat, a: ForkJoin.Action)
    requires Inv(s) && Enabled(s, PageStep(j, a))
    ensures Inv(Apply(s, PageStep(j, a)))
  {
    var job := s.jobs[j];
    var next := job.(pageSchedule := job.pageSchedule + [a]);
    if Tagged(job) {
      ForkJoin.NothingAfterReturn(PagesOf(job), job.pageSchedule, a);
    }
    NothingBegun(s, j);
    NothingKnown(job);
    NothingKnown(next);
    SameRoutines(s.jobs, j, next);
    NotYetInOrder(s, j, next);
    JobReplaced(s, j, next);
  }

  /** The metrics of a job do not see each other's stages. */
  lemma OtherMetrics(job: JobWork, k: nat, m: MetricWork, x: nat, pc: ForkJoin.Pc<Record>)
    requires k < |job.metrics| && x < |job.metrics| && x != k && MetricInv(job, job.metrics[x], pc)
    ensures WithMetric(job, k, m).metrics[x] == job.metrics[x]
    ensures JobBlocks(WithMetric(job, k, m))[x] == JobBlocks(job)[x]
    ensures MetricInv(WithMetric(job, k, m), job.metrics[x], pc)
  {
    SameMetric(job, WithMetric(job, k, m), job.metrics[x]);
  }

  /** What a metric is depends on its job through the search, the pages, their schedule and the expressions. */
  lemma SameMetric(job: JobWork, other: JobWork, m: MetricWork)
    requires job.(metrics := []) == other.(metrics := [])
    ensures QuestionOf(job, m) == QuestionOf(other, m) && RunOf(job, m) == RunOf(other, m)
    ensures BlockSoFar(job, m) == BlockSoFar(other, m) && (MetricDone(job, m) <==> MetricDone(other, m))
    ensures (InOrder(job, m) <==> InOrder(other, m)) && (Tagged(job) <==> Tagged(other))
  {
    assert QuestionOf(job, m) == QuestionOf(other, m) && RunOf(job, m) == RunOf(other, m);
  }

  lemma MetricReplaced(s: State, j: nat, k: nat, m: MetricWork)
    requires Inv(s) && HasMetric(s.jobs, j, k)
    requires MetricInv(WithMetric(s.jobs[j], k, m), m, PcAt(s, MetricIndex(s.jobs, j, k)))
    requires ForkJoin.NotBegun(PcAt(s, MetricIndex(s.jobs, j, k)))
    ensures Inv(s.(jobs := s.jobs[j := WithMetric(s.jobs[j], k, m)]))
  {
    var job, next := s.jobs[j], WithMetric(s.jobs[j], k, m);
    InvOfJob(s, j);
    forall x: nat | x < |job.metrics|
      ensures MetricInv(next, next.metrics[x], PcAt(s, MetricIndex(s.jobs, j, x)))
      ensures x != k ==> JobBlocks(next)[x] == JobBlocks(job)[x]
    {
      if x != k {
        OtherMetrics(job, k, m, x, PcAt(s, MetricIndex(s.jobs, j, x)));
      }
    }
    assert JobBlocks(next) == JobBlocks(job)[k := JobBlocks(next)[k]];
    SameOuterRun(s, j, k, next);
    JobReplaced(s, j, next);
  }

  lemma FilterStepKeeps(s: State, j: nat, k: nat, a: ForkJoin.Action)
    requires Inv(s) && Enabled(s, FilterStep(j, k, a))
    ensures Inv(Apply(s, FilterStep(j, k, a)))
  {
    var job, m := s.jobs[j], s.jobs[j].metrics[k];
    var more := m.(filterSchedule := m.filterSchedule + [a]);
    var pc := PcAt(s, MetricIndex(s.jobs, j, k));
    assert MetricInv(job, m, pc);
    if ForkJoin.Complete(FiltersOf(job, m), m.filterSchedule) {
      ForkJoin.NothingAfterReturn(FiltersOf(job, m), m.filterSchedule, a);
    }
    assert m.scrapeSchedule == [];
    NotDoneAtFirst(job, m);
    FilterInOrder(job, m, a);
    SameMetric(job, WithMetric(job, k, more), more);
    MetricReplaced(s, j, k, more);
  }

  lemma FilterInOrder(job: JobWork, m: MetricWork, a: ForkJoin.Action)
    requires Tagged(job) && ForkJoin.Legal(FiltersOf(job, m), m.filterSchedule + [a]) && m.scrapeSchedule == []
    ensures InOrder(job, m.(filterSchedule := m.filterSchedule + [a]))
  {
    var more := m.(filterSchedule := m.filterSchedule + [a]);
    assert FiltersOf(job, more) == FiltersOf(job, m);
  }

  lemma ScrapeStepKeeps(s: State, j: nat, k: nat, a: ForkJoin.Action)
    requires Inv(s) && Enabled(s, ScrapeStep(j, k, a))
    ensures Inv(Apply(s, ScrapeStep(j, k, a)))
  {
    var job, m := s.jobs[j], s.jobs[j].metrics[k];
    var more := m.(scrapeSchedule := m.scrapeSchedule + [a]);
    assert MetricInv(job, m, PcAt(s, MetricIndex(s.jobs, j, k)));
    DoneInOrder(job, m);
    if MetricDone(job, m) {
      ForkJoin.NothingAfterReturn(ScrapesOf(job, m), m.scrapeSchedule, a);
    }
    ScrapeInOrder(job, m, a);
    SameMetric(job, WithMetric(job, k, more), more);
    MetricReplaced(s, j, k, more);
  }

  lemma ScrapeInOrder(job: JobWork, m: MetricWork, a: ForkJoin.Action)
    requires InOrder(job, m) && Asked(job, m) && ForkJoin.Legal(ScrapesOf(job, m), m.scrapeSchedule + [a])
    ensures InOrder(job, m.(scrapeSchedule := m.scrapeSchedule + [a]))
  {
    var more := m.(scrapeSchedule := m.scrapeSchedule + [a]);
    assert RunOf(job, more) == RunOf(job, m) && QuestionOf(job, more) == QuestionOf(job, m);
    DoneInOrder(job, m);
  }

  /** A metric worker is started after the pages, and goes on from its first place only by way of the lock. */
  lemma OuterStepOfMetric(s: State, a: ForkJoin.Action, j: nat, k: nat)
    requires Inv(s) && Enabled(s, OuterStep(a)) && HasMetric(s.jobs, j, k)
    ensures var t := Apply(s, OuterStep(a));
      MetricInv(s.jobs[j], s.jobs[j].metrics[k], PcAt(t, MetricIndex(s.jobs, j, k)))
  {
    var i := MetricIndex(s.jobs, j, k);
    var pc := PcAt(s, i);
    MetricRoutine(s.jobs, j, k);
    OuterPc(s, a, i);
    assert MetricInv(s.jobs[j], s.jobs[j].metrics[k], pc);
  }

  lemma MetricRoutine(jobs: seq<JobWork>, j: nat, k: nat)
    requires HasMetric(jobs, j, k)
    ensures var routines, i := CollectRoutines(jobs), MetricIndex(jobs, j, k);
      i < |routines| && routines[i] == ForkJoin.Routine(JobIndex(jobs, j), [JobBlocks(jobs[j])[k]])
  {
    Nesting.ChildAt(JobLists(jobs), j, k);
  }

  lemma OuterPc(s: State, a: ForkJoin.Action, i: nat)
    requires ForkJoin.Legal(CollectRoutines(s.jobs), s.outer)
    requires ForkJoin.Legal(CollectRoutines(s.jobs), s.outer + [a])
    requires i < |CollectRoutines(s.jobs)| && |CollectRoutines(s.jobs)[i].blocks| == 1
    ensures var pc, next := PcAt(s, i), PcAt(s.(outer := s.outer + [a]), i);
      && (pc.Unborn? && !next.Unborn? ==> a == ForkJoin.Spawn(i))
      && (ForkJoin.NotBegun(pc) && !ForkJoin.NotBegun(next) ==> a == ForkJoin.Lock(i))
  {
    var routines := CollectRoutines(s.jobs);
    assert (s.outer + [a])[..|s.outer|] == s.outer;
    ForkJoin.FirstSteps(routines, ForkJoin.After(routines, s.outer), a, i);
  }

  lemma OuterStepKeeps(s: State, a: ForkJoin.Action)
    requires Inv(s) && Enabled(s, OuterStep(a))
    ensures Inv(Apply(s, OuterStep(a)))
  {
    forall j: nat, k: nat | HasMetric(s.jobs, j, k)
      ensures var t := Apply(s, OuterStep(a));
        MetricInv(s.jobs[j], s.jobs[j].metrics[k], PcAt(t, MetricIndex(s.jobs, j, k)))
    {
      OuterStepOfMetric(s, a, j, k);
    }
  }

  lemma StepKeeps(s: State, step: Step)
    requires Inv(s) && Enabled(s, step)
    ensures Inv(Apply(s, step))
  {
    match step
    case PageStep(j, a) => PageStepKeeps(s, j, a);
    case FilterStep(j, k, a) => FilterStepKeeps(s, j, k, a);
    case ScrapeStep(j, k, a) => ScrapeStepKeeps(s, j, k, a);
    case OuterStep(a) => OuterStepKeeps(s, a);
  }

  // ---- whole runs ----

  ghost predicate Legal(start: seq<JobWork>, steps: seq<Step>)
    decreases |steps|, 0
  {
    steps == [] ||
    var n := |steps| - 1;
    Legal(start, steps[..n]) && Enabled(After(start, steps[..n]), steps[n])
  }

  ghost function After(start: seq<JobWork>, steps: seq<Step>): State
    requires Legal(start, steps)
    decreases |steps|, 1
  {
    if steps == [] then State(start, [])
    else
      var n := |steps| - 1;
      Apply(After(start, steps[..n]), steps[n])
  }

  /** The collecting function has returned. */
  ghost predicate Returned(s: State) {
    ForkJoin.Complete(CollectRoutines(s.jobs), s.outer)
  }

  /** What it returns. */
  ghost function Collected(s: State): seq<Record>
    requires Returned(s)
  {
    ForkJoin.Output(CollectRoutines(s.jobs), s.outer)
  }

  ghost predicate Unstarted(jobs: seq<JobWork>) {
    forall j: nat :: j < |jobs| ==>
      && jobs[j].pageSchedule == []
      && forall k: nat :: k < |jobs[j].metrics| ==>
           jobs[j].metrics[k].filterSchedule == [] && jobs[j].metrics[k].scrapeSchedule == []
  }

  lemma StartInv(start: seq<JobWork>)
    requires Unstarted(start)
    ensures Inv(State(start, []))
  {
    var s := State(start, []);
    forall j: nat | j < |start| ensures JobInv(s, j, start[j]) {
      NotYetInOrder(s, j, start[j]);
    }
  }

  lemma {:induction false} InvAfter(start: seq<JobWork>, steps: seq<Step>)
    requires Unstarted(start) && Legal(start, steps)
    ensures Inv(After(start, steps))
    decreases |steps|
  {
    if steps == [] {
      StartInv(start);
    } else {
      var n := |steps| - 1;
      InvAfter(start, steps[..n]);
      StepKeeps(After(start, steps[..n]), steps[n]);
    }
  }

  /** At the return all stages of all metrics have run to their ends. */
  lemma ReturnedIsDone(s: State)
    requires Inv(s) && Returned(s)
    ensures AllDone(s.jobs)
  {
    ForkJoin.Conservation(CollectRoutines(s.jobs), s.outer);
    forall j: nat, k: nat | HasMetric(s.jobs, j, k) ensures MetricDone(s.jobs[j], s.jobs[j].metrics[k]) {
      MetricRoutine(s.jobs, j, k);
      assert PcAt(s, MetricIndex(s.jobs, j, k)).Ended?;
      assert MetricInv(s.jobs[j], s.jobs[j].metrics[k], PcAt(s, MetricIndex(s.jobs, j, k)));
    }
  }

  // ---- the jobs stay the same but for their schedules ----

  ghost predicate SameWork(a: MetricWork, b: MetricWork) {
    a.(filterSchedule := [], scrapeSchedule := []) == b.(filterSchedule := [], scrapeSchedule := [])
  }

  ghost predicate SameJob(a: JobWork, b: JobWork) {
    && a.(pageSchedule := [], metrics := []) == b.(pageSchedule := [], metrics := [])
    && |a.metrics| == |b.metrics|
    && forall k: nat :: k < |a.metrics| ==> SameWork(a.metrics[k], b.metrics[k])
  }

  ghost predicate SameJobs(a: seq<JobWork>, b: seq<JobWork>) {
    |a| == |b| && forall j: nat :: j < |a| ==> SameJob(a[j], b[j])
  }

  lemma StepKeepsJobs(s: State, step: Step)
    requires Enabled(s, step)
    ensures SameJobs(s.jobs, Apply(s, step).jobs)
  {
    if step.FilterStep? || step.ScrapeStep? {
      assert SameWork(s.jobs[step.j].metrics[step.k], Apply(s, step).jobs[step.j].metrics[step.k]);
      assert SameJob(s.jobs[step.j], Apply(s, step).jobs[step.j]);
    }
  }

  lemma {:induction false} RunKeepsJobs(start: seq<JobWork>, steps: seq<Step>)
    requires Legal(start, steps)
    ensures SameJobs(start, After(start, steps).jobs)
    decreases |steps|
  {
    if steps != [] {
      var n := |steps| - 1;
      RunKeepsJobs(start, steps[..n]);
      StepKeepsJobs(After(start, steps[..n]), steps[n]);
      SameJobsChain(start, After(start, steps[..n]).jobs, After(start, steps).jobs);
    }
  }

  lemma SameJobsChain(a: seq<JobWork>, b: seq<JobWork>, c: seq<JobWork>)
    requires SameJobs(a, b) && SameJobs(b, c)
    ensures SameJobs(a, c)
  {
    forall j: nat | j < |a| ensures SameJob(a[j], c[j]) {
      assert SameJob(a[j], b[j]) && SameJob(b[j], c[j]);
    }
  }

  lemma SameQuestion(a: JobWork, b: JobWork, k: nat)
    requires SameJob(a, b) && k < |a.metrics|
    ensures QuestionOf(a, a.metrics[k]) == QuestionOf(b, b.metrics[k])
  {
    assert SameWork(a.metrics[k], b.metrics[k]);
  }

  lemma SameJobReference(cloud: Cloud, a: JobWork, b: JobWork)
    requires SameJob(a, b) && AllValid(a.patterns) && AllValid(b.patterns)
    ensures JobReference(cloud, a) == JobReference(cloud, b)
    ensures JobIndependent(a) ==> JobIndependent(b)
  {
    forall k: nat | k < |a.metrics| ensures QuestionOf(a, a.metrics[k]) == QuestionOf(b, b.metrics[k]) {
      SameQuestion(a, b, k);
    }
  }

  /** The reference, and whether the jobs are independent of the schedules, does not depend on the schedules. */
  lemma {:induction false} SameReference(cloud: Cloud, a: seq<JobWork>, b: seq<JobWork>)
    requires SameJobs(a, b) && PatternsValid(a)
    ensures PatternsValid(b) && Reference(cloud, a) == Reference(cloud, b)
    ensures AllIndependent(a) ==> AllIndependent(b)
  {
    forall j: nat | j < |a| ensures AllValid(b[j].patterns) && (JobIndependent(a[j]) ==> JobIndependent(b[j])) {
      assert SameJob(a[j], b[j]);
      SameJobReference(cloud, a[j], b[j]);
    }
    if a != [] {
      var n := |a| - 1;
      assert SameJob(a[n], b[n]);
      SameReference(cloud, a[..n], b[..n]);
      SameJobReference(cloud, a[n], b[n]);
    }
  }

  // ---- every interleaving ----

  /** The ids drawn for a metric are distinct, and its batches were answered by the service. */
  ghost predicate HonestWhereDone(cloud: Cloud, jobs: seq<JobWork>) {
    forall j: nat, k: nat :: HasMetric(jobs, j, k) && MetricDone(jobs[j], jobs[j].metrics[k]) ==>
      HonestMetric(cloud, jobs[j], jobs[j].metrics[k])
  }

  /**
   However the steps of page, filter, batch, metric and job workers interleave: when collectData returns, it returns
   the sequential reference up to order and ids.
   */
  lemma EveryInterleaving(cloud: Cloud, start: seq<JobWork>, steps: seq<Step>)
    requires Unstarted(start) && PatternsValid(start) && AllIndependent(start)
    requires Legal(start, steps) && Returned(After(start, steps))
    requires HonestWhereDone(cloud, After(start, steps).jobs)
    ensures Permutation(FlatMap(Anonymous(), Collected(After(start, steps))), Concat(Reference(cloud, start)))
  {
    var s := After(start, steps);
    InvAfter(start, steps);
    ReturnedIsDone(s);
    RunKeepsJobs(start, steps);
    SameReference(cloud, start, s.jobs);
    CollectIsScheduleIndependent(cloud, s.jobs, s.outer);
  }

  /** No interleaving gets stuck, as long as the service answers every batch that is asked. */
  lemma SomebodyCanMove(s: State) returns (step: Step)
    requires Inv(s) && PatternsValid(s.jobs) && !Returned(s)
    requires forall j: nat, k: nat :: HasMetric(s.jobs, j, k) ==>
      (Finished(QuestionOf(s.jobs[j], s.jobs[j].metrics[k]), RunOf(s.jobs[j], s.jobs[j].metrics[k])) ==>
         Asked(s.jobs[j], s.jobs[j].metrics[k]))
    ensures Enabled(s, step)
  {
    var routines := CollectRoutines(s.jobs);
    var a := ForkJoin.NextAction(routines, s.outer);
    if MayStart(s, a) {
      step := OuterStep(a);
    } else if a.Spawn? {
      var j: nat :| j < |s.jobs| && routines[a.i].parent == JobIndex(s.jobs, j) && !Tagged(s.jobs[j]);
      assert PcAt(s, JobIndex(s.jobs, j)).Idle?;
      step := PageNext(s, j);
    } else {
      var j: nat, k: nat :| HasMetric(s.jobs, j, k) && MetricIndex(s.jobs, j, k) == a.i
        && !MetricDone(s.jobs[j], s.jobs[j].metrics[k]);
      step := StageStep(s, j, k);
    }
  }

  lemma PageNext(s: State, j: nat) returns (step: Step)
    requires Inv(s) && j < |s.jobs| && PcAt(s, JobIndex(s.jobs, j)).Idle?
    requires AllValid(s.jobs[j].patterns) && !Tagged(s.jobs[j])
    ensures Enabled(s, step)
  {
    InvOfJob(s, j);
    var a := ForkJoin.NextAction(PagesOf(s.jobs[j]), s.jobs[j].pageSchedule);
    step := PageStep(j, a);
  }

  /** A metric worker whose stages have not ended can take a step in one of them. */
  lemma StageStep(s: State, j: nat, k: nat) returns (step: Step)
    requires Inv(s) && HasMetric(s.jobs, j, k) && PcAt(s, MetricIndex(s.jobs, j, k)).Idle?
    requires var job := s.jobs[j]; var m := job.metrics[k];
      !MetricDone(job, m) && (Finished(QuestionOf(job, m), RunOf(job, m)) ==> Asked(job, m))
    ensures Enabled(s, step)
  {
    var job, m := s.jobs[j], s.jobs[j].metrics[k];
    assert MetricInv(job, m, PcAt(s, MetricIndex(s.jobs, j, k)));
    if Asked(job, m) {
      DoneInOrder(job, m);
      var a := ForkJoin.NextAction(ScrapesOf(job, m), m.scrapeSchedule);
      step := ScrapeStep(j, k, a);
    } else {
      var a := ForkJoin.NextAction(FiltersOf(job, m), m.filterSchedule);
      step := FilterStep(j, k, a);
    }
  }
}
