/** The outermost level: one worker a job, one worker a metric of the job, one result list. */
module CollectData {
  import opened Collections
  import opened Resources
  import opened Index
  import opened Filter
  import opened Records
  import opened Discovery
  import opened Queries
  import opened Matching
  import opened Batching
  import ForkJoin
  import Nesting

  /** One metric of a job: what it asks for, and what is particular to one run of it. */
  datatype MetricWork = MetricWork(
    list: seq<Metric>, target: Target,
    filterSchedule: seq<ForkJoin.Action>, ids: nat -> string,
    responses: Responses, scrapeSchedule: seq<ForkJoin.Action>)

  /** One job. Its tagged resources are found once and shared by its metrics. */
  datatype JobWork = JobWork(
    search: Search, pages: seq<seq<Mapping>>, patterns: seq<Pattern>,
    pageSchedule: seq<ForkJoin.Action>, metrics: seq<MetricWork>)

  ghost function QuestionOf(job: JobWork, m: MetricWork): Question {
    Question(job.search, job.pages, job.patterns, m.list, m.target)
  }

  ghost function RunOf(job: JobWork, m: MetricWork): Run {
    Run(job.pageSchedule, m.filterSchedule, m.ids)
  }

  /** The stages of one metric have run to their ends. */
  ghost predicate MetricDone(job: JobWork, m: MetricWork) {
    var q, run := QuestionOf(job, m), RunOf(job, m);
    Finished(q, run) &&
    var data := Discovered(q, run);
    |m.responses| == |Batches(data, BATCH)| && ForkJoin.Complete(ScrapeRoutines(data, m.responses), m.scrapeSchedule)
  }

  /** What the worker of a metric appends, in one piece. */
  ghost function MetricBlock(job: JobWork, m: MetricWork): seq<Record>
    requires MetricDone(job, m)
  {
    ForkJoin.Output(ScrapeRoutines(Discovered(QuestionOf(job, m), RunOf(job, m)), m.responses), m.scrapeSchedule)
  }

  ghost predicate AllDone(jobs: seq<JobWork>) {
    forall j, k :: 0 <= j < |jobs| && 0 <= k < |jobs[j].metrics| ==> MetricDone(jobs[j], jobs[j].metrics[k])
  }

  /** The block as far as it is known: nothing before the metric's own stages have ended. */
  ghost function BlockSoFar(job: JobWork, m: MetricWork): seq<Record> {
    if MetricDone(job, m) then MetricBlock(job, m) else []
  }

  ghost function JobBlocks(job: JobWork): (blocks: seq<seq<Record>>)
    ensures |blocks| == |job.metrics|
  {
    seq(|job.metrics|, k requires 0 <= k < |job.metrics| => BlockSoFar(job, job.metrics[k]))
  }

  ghost function JobLists(jobs: seq<JobWork>): (lists: seq<seq<seq<Record>>>)
    ensures |lists| == |jobs|
  {
    seq(|jobs|, j requires 0 <= j < |jobs| => JobBlocks(jobs[j]))
  }

  /** A routine for each job, which appends nothing itself and starts a routine for each of its metrics. */
  ghost function CollectRoutines(jobs: seq<JobWork>): (routines: seq<ForkJoin.Routine<Record>>)
    ensures ForkJoin.Forest(routines)
  {
    Nesting.TwoLevels(JobLists(jobs))
  }

  /** The metrics of all jobs, one block each, in configuration order. */
  ghost function BlocksInOrder(jobs: seq<JobWork>): seq<seq<Record>> {
    Concat(JobLists(jobs))
  }

  lemma NextJob(jobs: seq<JobWork>)
    requires jobs != []
    ensures var n := |jobs| - 1;
      BlocksInOrder(jobs) == BlocksInOrder(jobs[..n]) + JobBlocks(jobs[n])
  {
    assert JobLists(jobs)[..|jobs| - 1] == JobLists(jobs[..|jobs| - 1]);
  }

  /**
   For every interleaving of job and metric workers: collectData returns when all of them have ended, and
   returns the block of every metric of every job exactly once.
   */
  lemma CollectConserves(jobs: seq<JobWork>, schedule: seq<ForkJoin.Action>)
    requires AllDone(jobs) && ForkJoin.Complete(CollectRoutines(jobs), schedule)
    ensures var s := ForkJoin.After(CollectRoutines(jobs), schedule);
      && (forall i :: 0 <= i < |s.pcs| ==> s.pcs[i].Ended?)
      && s.shared == Concat(s.log) && Permutation(s.log, BlocksInOrder(jobs))
    ensures Permutation(ForkJoin.Output(CollectRoutines(jobs), schedule), Concat(BlocksInOrder(jobs)))
  {
    ForkJoin.Conservation(CollectRoutines(jobs), schedule);
    Nesting.TwoLevelBlocks(JobLists(jobs));
  }

  // ---- where a collected record comes from ----

  /** A record that was discovered for the metric, with the values of a result that carries its id. */
  ghost predicate ComesFrom(job: JobWork, m: MetricWork, out: Record)
    requires MetricDone(job, m)
  {
    IsFilled(Discovered(QuestionOf(job, m), RunOf(job, m)), m.responses, out)
  }

  lemma BlockComesFrom(job: JobWork, m: MetricWork, out: Record)
    requires MetricDone(job, m) && out in MetricBlock(job, m)
    ensures ComesFrom(job, m, out)
  {
    var data := Discovered(QuestionOf(job, m), RunOf(job, m));
    ScrapeUnderAnySchedule(data, m.responses, m.scrapeSchedule);
    PermutationMember(MetricBlock(job, m), Concat(BatchOutputs(data, m.responses)), out);
    OutputIsFilled(data, m.responses, out);
  }

  lemma {:induction false} BlocksComeFrom(jobs: seq<JobWork>, out: Record) returns (j: nat, k: nat)
    requires AllDone(jobs) && out in BlocksOut(jobs)
    ensures j < |jobs| && k < |jobs[j].metrics| && ComesFrom(jobs[j], jobs[j].metrics[k], out)
  {
    var n := |jobs| - 1;
    var blocks := JobBlocks(jobs[n]);
    NextJob(jobs);
    ConcatAppend(BlocksInOrder(jobs[..n]), blocks);
    InAppend(BlocksOut(jobs[..n]), Concat(blocks), out);
    if out in Concat(blocks) {
      j := n;
      k := InConcat(blocks, out);
      BlockComesFrom(jobs[n], jobs[n].metrics[k], out);
    } else {
      j, k := BlocksComeFrom(jobs[..n], out);
    }
  }

  ghost function BlocksOut(jobs: seq<JobWork>): seq<Record> {
    Concat(BlocksInOrder(jobs))
  }

  /** Every record that collectData returns was discovered for a metric of a job, and filled from one of its results. */
  lemma CollectedComeFrom(jobs: seq<JobWork>, schedule: seq<ForkJoin.Action>, out: Record) returns (j: nat, k: nat)
    requires AllDone(jobs) && ForkJoin.Complete(CollectRoutines(jobs), schedule)
    requires out in ForkJoin.Output(CollectRoutines(jobs), schedule)
    ensures j < |jobs| && k < |jobs[j].metrics| && ComesFrom(jobs[j], jobs[j].metrics[k], out)
  {
    CollectConserves(jobs, schedule);
    PermutationMember(ForkJoin.Output(CollectRoutines(jobs), schedule), BlocksOut(jobs), out);
    j, k := BlocksComeFrom(jobs, out);
  }

  // ---- what the conversion to samples relies on ----

  /** A datapoint never comes without its timestamp. */
  ghost predicate HasTimestamp(rec: Record) {
    rec.point.Some? ==> rec.timestamp.Some?
  }

  /** Whatever the schedule, no collected record makes the conversion to samples read a missing timestamp. */
  lemma CollectedHaveTimestamps(jobs: seq<JobWork>, schedule: seq<ForkJoin.Action>)
    requires AllDone(jobs) && ForkJoin.Complete(CollectRoutines(jobs), schedule)
    ensures forall out :: out in ForkJoin.Output(CollectRoutines(jobs), schedule) ==> HasTimestamp(out)
  {
    forall out | out in ForkJoin.Output(CollectRoutines(jobs), schedule) ensures HasTimestamp(out) {
      var j, k := CollectedComeFrom(jobs, schedule, out);
      FilledHasTimestamp(jobs[j], jobs[j].metrics[k], out);
    }
  }

  /** Discovered records have neither, and results bring both. */
  lemma FilledHasTimestamp(job: JobWork, m: MetricWork, out: Record)
    requires MetricDone(job, m) && ComesFrom(job, m, out)
    ensures HasTimestamp(out)
  {
    var q, run := QuestionOf(job, m), RunOf(job, m);
    var data := Discovered(q, run);
    var t := FilledRecord(data, m.responses, out);
    BuiltRecordsAreFresh(RunIndex(q, run), Filtered(q, run), q.target, run.ids, t);
  }

  // ---- all stages together ----

  datatype Quote = Quote(values: seq<int>, timestamps: seq<int>)

  /** The metric service: its answers to a query depend on what is asked, not on the random id. */
  type Cloud = Record -> seq<Quote>

  ghost function ServiceOf(cloud: Cloud): Service {
    (rec: Record) =>
      var quotes := cloud(rec.(metricId := ""));
      seq(|quotes|, i requires 0 <= i < |quotes| => Result(rec.metricId, quotes[i].values, quotes[i].timestamps))
  }

  /** A match has as many captures as its expression has groups. */
  ghost predicate PatternsValid(jobs: seq<JobWork>) {
    forall j :: 0 <= j < |jobs| ==> AllValid(jobs[j].patterns)
  }

  ghost predicate Honest(cloud: Cloud, jobs: seq<JobWork>)
    requires AllDone(jobs)
  {
    forall j, k :: 0 <= j < |jobs| && 0 <= k < |jobs[j].metrics| ==> HonestMetric(cloud, jobs[j], jobs[j].metrics[k])
  }

  /** The ids drawn are distinct, and every batch was answered by the service. */
  ghost predicate HonestMetric(cloud: Cloud, job: JobWork, m: MetricWork)
    requires MetricDone(job, m)
  {
    var data := Discovered(QuestionOf(job, m), RunOf(job, m));
    DistinctIds(data) && AllAnswer(ServiceOf(cloud), data, m.responses)
  }

  /** The sequential reference for one metric: find its records, ask for each one on its own. */
  ghost function ReferenceRecords(cloud: Cloud, q: Question): seq<Record>
    requires AllValid(q.patterns)
  {
    FlatMap(FilledBy(ServiceOf(cloud)), SequentialRecords(q))
  }

  ghost function Settled(cloud: Cloud): Record -> seq<Record> {
    (rec: Record) => FlatMap(Anonymous(), FilledBy(ServiceOf(cloud))(rec))
  }

  lemma FilledAnonymously(cloud: Cloud, rec: Record)
    ensures FlatMap(Anonymous(), FilledBy(ServiceOf(cloud))(rec)) == FilledBy(ServiceOf(cloud))(rec.(metricId := ""))
  {
    var bare := rec.(metricId := "");
    var results, anonymous := ServiceOf(cloud)(rec), ServiceOf(cloud)(bare);
    FilledElements(rec, results);
    FilledElements(bare, anonymous);
    AnonymousCopies(FilledBy(ServiceOf(cloud))(rec), FilledBy(ServiceOf(cloud))(bare));
  }

  lemma {:induction false} FilledElements(rec: Record, results: seq<Result>)
    ensures |FlatMap(FilledFrom(rec), results)| == |results|
    ensures forall i :: 0 <= i < |results| ==> FlatMap(FilledFrom(rec), results)[i] == Filled(rec, results[i])
  {
    if results != [] {
      FilledElements(rec, results[..|results| - 1]);
    }
  }

  lemma AnonymousTwice(cloud: Cloud, data: seq<Record>)
    ensures FlatMap(Anonymous(), FlatMap(FilledBy(ServiceOf(cloud)), data))
         == FlatMap(FilledBy(ServiceOf(cloud)), FlatMap(Anonymous(), data))
  {
    var filled, settled := FilledBy(ServiceOf(cloud)), Settled(cloud);
    FlatMapTwice(filled, Anonymous(), settled, data);
    forall rec | rec in data ensures FlatMap(filled, Anonymous()(rec)) == settled(rec) {
      FilledAnonymously(cloud, rec);
      FlatMapOne(filled, rec.(metricId := ""));
    }
    FlatMapTwice(Anonymous(), filled, settled, data);
  }

  /** One metric: whatever the schedules, ids and batches, its block is the reference up to order and ids. */
  lemma MetricIsScheduleIndependent(cloud: Cloud, job: JobWork, m: MetricWork)
    requires MetricDone(job, m) && HonestMetric(cloud, job, m) && Independent(QuestionOf(job, m))
    ensures Permutation(FlatMap(Anonymous(), MetricBlock(job, m)), ReferenceRecords(cloud, QuestionOf(job, m)))
  {
    var q, run := QuestionOf(job, m), RunOf(job, m);
    var data, filled := Discovered(q, run), FilledBy(ServiceOf(cloud));
    BatchingIsTransparent(data, ServiceOf(cloud), m.responses, m.scrapeSchedule);
    FlatMapPermuted(Anonymous(), MetricBlock(job, m), FlatMap(filled, data));
    AnonymousTwice(cloud, data);
    DiscoveryIsScheduleIndependent(q, run);
    FlatMapPermuted(filled, FlatMap(Anonymous(), data), SequentialRecords(q));
  }

  /** For every metric of every job the pages agree, in the sense in which `DiscoveryIndependence` is exact. */
  ghost predicate AllIndependent(jobs: seq<JobWork>)
    requires PatternsValid(jobs)
  {
    forall j :: 0 <= j < |jobs| ==> JobIndependent(jobs[j])
  }

  ghost predicate JobIndependent(job: JobWork)
    requires AllValid(job.patterns)
  {
    forall k :: 0 <= k < |job.metrics| ==> Independent(QuestionOf(job, job.metrics[k]))
  }

  ghost function JobReference(cloud: Cloud, job: JobWork): seq<seq<Record>>
    requires AllValid(job.patterns)
  {
    seq(|job.metrics|, k requires 0 <= k < |job.metrics| => ReferenceRecords(cloud, QuestionOf(job, job.metrics[k])))
  }

  /** The reference for the whole collection: job by job, metric by metric. It mentions no schedule and no id. */
  ghost function Reference(cloud: Cloud, jobs: seq<JobWork>): seq<seq<Record>>
    requires PatternsValid(jobs)
  {
    if jobs == [] then []
    else
      var n := |jobs| - 1;
      Reference(cloud, jobs[..n]) + JobReference(cloud, jobs[n])
  }

  ghost predicate JobDone(cloud: Cloud, job: JobWork) {
    forall k :: 0 <= k < |job.metrics| ==>
      MetricDone(job, job.metrics[k]) && HonestMetric(cloud, job, job.metrics[k])
  }

  lemma JobIsReference(cloud: Cloud, job: JobWork)
    requires AllValid(job.patterns) && JobDone(cloud, job) && JobIndependent(job)
    ensures Permutation(FlatMap(Anonymous(), Concat(JobBlocks(job))), Concat(JobReference(cloud, job)))
  {
    var blocks, reference := JobBlocks(job), JobReference(cloud, job);
    forall k | 0 <= k < |blocks| ensures Permutation(FlatMap(Anonymous(), blocks[k]), reference[k]) {
      MetricIsScheduleIndependent(cloud, job, job.metrics[k]);
    }
    MappedBlocksAlike(Anonymous(), blocks, reference);
  }

  ghost function BareBlocks(jobs: seq<JobWork>): seq<Record> {
    FlatMap(Anonymous(), Concat(BlocksInOrder(jobs)))
  }

  lemma NextBareBlocks(jobs: seq<JobWork>)
    requires jobs != []
    ensures var n := |jobs| - 1;
      BareBlocks(jobs) == BareBlocks(jobs[..n]) + FlatMap(Anonymous(), Concat(JobBlocks(jobs[n])))
  {
    var n := |jobs| - 1;
    NextJob(jobs);
    ConcatAppend(BlocksInOrder(jobs[..n]), JobBlocks(jobs[n]));
    FlatMapAppend(Anonymous(), Concat(BlocksInOrder(jobs[..n])), Concat(JobBlocks(jobs[n])));
  }

  lemma {:induction false} BlocksAreReference(cloud: Cloud, jobs: seq<JobWork>)
    requires PatternsValid(jobs) && AllIndependent(jobs)
    requires forall j :: 0 <= j < |jobs| ==> JobDone(cloud, jobs[j])
    ensures Permutation(BareBlocks(jobs), Concat(Reference(cloud, jobs)))
  {
    if jobs != [] {
      var n := |jobs| - 1;
      BlocksAreReference(cloud, jobs[..n]);
      JobIsReference(cloud, jobs[n]);
      NextBareBlocks(jobs);
      ConcatAppend(Reference(cloud, jobs[..n]), JobReference(cloud, jobs[n]));
    }
  }

  /**
   What collectData returns is the sequential reference up to order and ids, whatever the schedules: of the page,
   filter and batch workers of every metric, each given with its job or metric, and of the job and metric workers.
   `Interleaving` shows that every interleaving of all of them together is made of such schedules.
   */
  lemma CollectIsScheduleIndependent(cloud: Cloud, jobs: seq<JobWork>, schedule: seq<ForkJoin.Action>)
    requires PatternsValid(jobs) && AllDone(jobs) && Honest(cloud, jobs) && AllIndependent(jobs)
    requires ForkJoin.Complete(CollectRoutines(jobs), schedule)
    ensures Permutation(FlatMap(Anonymous(), ForkJoin.Output(CollectRoutines(jobs), schedule)),
                        Concat(Reference(cloud, jobs)))
  {
    CollectConserves(jobs, schedule);
    FlatMapPermuted(Anonymous(), ForkJoin.Output(CollectRoutines(jobs), schedule), Concat(BlocksInOrder(jobs)));
    forall j | 0 <= j < |jobs| ensures JobDone(cloud, jobs[j]) {
      forall k | 0 <= k < |jobs[j].metrics|
        ensures MetricDone(jobs[j], jobs[j].metrics[k]) && HonestMetric(cloud, jobs[j], jobs[j].metrics[k])
      {
      }
    }
    BlocksAreReference(cloud, jobs);
  }
}
