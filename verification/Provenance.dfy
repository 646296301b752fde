/** From one end to the other: which records collectData returns, in terms of its inputs alone. */
module Provenance {
  import opened Collections
  import opened Resources
  import opened Index
  import opened Filter
  import opened Records
  import opened Discovery
  import opened Queries
  import opened Matching
  import opened CollectData
  import ForkJoin
  import Interleaving

  /** A listed metric and a statistic of a configured metric, and a resource of its job, by position. */
  datatype Place = Place(job: nat, metric: nat, listed: nat, statistic: nat, page: nat, mapping: nat)

  ghost predicate InRange(jobs: seq<JobWork>, at: Place) {
    at.job < |jobs| && at.metric < |jobs[at.job].metrics|
    && IsPlaceIn(jobs[at.job], jobs[at.job].metrics[at.metric], at)
  }

  ghost predicate IsPlaceIn(job: JobWork, m: MetricWork, at: Place) {
    && at.listed < |m.list| && at.statistic < |m.target.metric.statistics|
    && at.page < |job.pages| && at.mapping < |job.pages[at.page]|
  }

  /** The group has the dimension's name and captures the dimension's value in the ARN. */
  ghost predicate CapturesAt(p: Pattern, g: nat, arn: string, d: Dimension) {
    && g < |p.names| && p.names[g] == d.name
    && p.capture(arn).Some? && g < |p.capture(arn).value| && p.capture(arn).value[g] == d.value
  }

  /** Some group of some expression captures one of the dimensions in the ARN. */
  ghost predicate NamesOneOf(patterns: seq<Pattern>, arn: string, dims: seq<Dimension>) {
    exists p, g: nat, d :: 0 <= p < |patterns| && 0 <= d < |dims| && CapturesAt(patterns[p], g, arn, dims[d])
  }

  /** The resource passes the job's tag filters, and its ARN names one of the metric's dimensions. */
  ghost predicate Belongs(job: JobWork, m: MetricWork, at: Place)
    requires IsPlaceIn(job, m, at)
  {
    var mapping := job.pages[at.page][at.mapping];
    Passes(mapping, job.search) && NamesOneOf(job.patterns, mapping.arn, m.list[at.listed].dims)
  }

  /** The record is about the listed metric, the statistic and the resource at the place. */
  ghost predicate IsAbout(rec: Record, job: JobWork, m: MetricWork, at: Place)
    requires IsPlaceIn(job, m, at)
  {
    var target, mapping := m.target, job.pages[at.page][at.mapping];
    && rec.metric == target.metric.name && rec.statistics == [target.metric.statistics[at.statistic]]
    && rec.dimensions == m.list[at.listed].dims && rec.id == mapping.arn
    && rec.namespace == target.namespace && rec.region == target.region && rec.accountId == target.accountId
    && rec.period == target.metric.period && rec.customTags == target.customTags
    && rec.nilToZero == target.metric.nilToZero && rec.addTimestamp == target.metric.addTimestamp
    && AreMetricTags(rec.tags, mapping.tags,
                     if job.search.namespace in target.exported then target.exported[job.search.namespace] else [])
  }

  /** The first value and the first timestamp, or neither. */
  ghost predicate ShowsFirst(rec: Record, values: seq<int>, timestamps: seq<int>) {
    if values != [] && timestamps != [] then rec.point == Some(values[0]) && rec.timestamp == Some(timestamps[0])
    else rec.point == None && rec.timestamp == None
  }

  /** A result for one of the batches has the record's id, and the record shows it. */
  ghost predicate ShowsResponse(rec: Record, m: MetricWork) {
    exists i, x :: 0 <= i < |m.responses| && 0 <= x < |m.responses[i]| && m.responses[i][x].id == rec.metricId
      && ShowsFirst(rec, m.responses[i][x].values, m.responses[i][x].timestamps)
  }

  // ---- what the index leads to ----

  lemma {:induction false} FirstMatchIsEntry(index: DimensionIndex, dims: seq<Dimension>) returns (d: nat)
    requires FirstMatch(index, dims).Some?
    ensures d < |dims| && Entry(dims[d].value, FirstMatch(index, dims).value) in Lookup(index, dims[d].name)
  {
    FirstEntryFinds(Lookup(index, dims[0].name), dims[0].value);
    if FirstEntry(Lookup(index, dims[0].name), dims[0].value).Some? {
      d := 0;
    } else {
      d := FirstMatchIsEntry(index, dims[1..]);
      d := d + 1;
    }
  }

  lemma EntryIsCapture(patterns: seq<Pattern>, rs: seq<Resource>, name: string, e: Entry) returns (s: Site)
    requires AllValid(patterns) && e in Lookup(IndexOf(patterns, rs), name)
    ensures CapturedAt(patterns, rs, name, s, e)
  {
    IndexHoldsCaptures(patterns, rs, name);
    var entries := Lookup(IndexOf(patterns, rs), name);
    var sites :| ListsBefore(patterns, rs, name, entries, sites, Site(|patterns|, 0, 0));
    var k :| 0 <= k < |entries| && entries[k] == e;
    s := sites[k];
  }

  lemma CaptureIsEntry(patterns: seq<Pattern>, rs: seq<Resource>, name: string, s: Site, e: Entry)
    requires AllValid(patterns) && CapturedAt(patterns, rs, name, s, e)
    ensures e in Lookup(IndexOf(patterns, rs), name)
  {
    IndexHoldsCaptures(patterns, rs, name);
    var entries := Lookup(IndexOf(patterns, rs), name);
    var sites :| ListsBefore(patterns, rs, name, entries, sites, Site(|patterns|, 0, 0));
    var k :| 0 <= k < |sites| && sites[k] == s;
    assert entries[k] == e;
  }

  /** A metric's resource names one of the metric's dimensions. */
  lemma OwnerNamesDimension(patterns: seq<Pattern>, rs: seq<Resource>, dims: seq<Dimension>)
    requires AllValid(patterns) && FirstMatch(IndexOf(patterns, rs), dims).Some?
    ensures var r := FirstMatch(IndexOf(patterns, rs), dims).value;
      r in rs && NamesOneOf(patterns, r.arn, dims)
  {
    var r := FirstMatch(IndexOf(patterns, rs), dims).value;
    var d := FirstMatchIsEntry(IndexOf(patterns, rs), dims);
    var s := EntryIsCapture(patterns, rs, dims[d].name, Entry(dims[d].value, r));
    assert CapturesAt(patterns[s.p], s.g, r.arn, dims[d]);
  }

  /** And a metric has a resource if one of the resources names one of its dimensions. */
  lemma NamedHasOwner(patterns: seq<Pattern>, rs: seq<Resource>, r: Resource, dims: seq<Dimension>)
    requires AllValid(patterns) && r in rs && NamesOneOf(patterns, r.arn, dims)
    ensures FirstMatch(IndexOf(patterns, rs), dims).Some?
  {
    var p, g: nat, d :| 0 <= p < |patterns| && 0 <= d < |dims| && CapturesAt(patterns[p], g, r.arn, dims[d]);
    var k: nat :| k < |rs| && rs[k] == r;
    CaptureIsEntry(patterns, rs, dims[d].name, Site(p, k, g), Entry(dims[d].value, r));
    assert Matches(IndexOf(patterns, rs), dims[d]);
    FirstMatchFinds(IndexOf(patterns, rs), dims);
  }

  // ---- the tagged resources ----

  lemma FoundIsMapping(q: Question, run: Run, r: Resource) returns (page: nat, i: nat)
    requires PagesDone(q, run) && r in Found(q, run)
    ensures page < |q.pages| && i < |q.pages[page]|
    ensures IsResourceOf(r, q.pages[page][i], q.search) && Passes(q.pages[page][i], q.search)
  {
    TaggedUnderAnySchedule(q.search, q.pages, run.pageSchedule);
    PermutationMember(Found(q, run), TaggedInOrder(q.search, q.pages), r);
    var m := InFlatMap(KeepTagged(q.search), Concat(q.pages), r);
    HitsArePairs(q.search.matches, m.tags, q.search.tags);
    page := InConcat(q.pages, m);
    i :| 0 <= i < |q.pages[page]| && q.pages[page][i] == m;
  }

  lemma MappingIsFound(q: Question, run: Run, page: nat, i: nat) returns (r: Resource)
    requires PagesDone(q, run) && page < |q.pages| && i < |q.pages[page]| && Passes(q.pages[page][i], q.search)
    ensures r in Found(q, run) && IsResourceOf(r, q.pages[page][i], q.search)
  {
    var m := q.pages[page][i];
    r := ResourceOf(q.search, m);
    PartInConcat(q.pages, page, i);
    HitsArePairs(q.search.matches, m.tags, q.search.tags);
    ToFlatMap(KeepTagged(q.search), Concat(q.pages), m, r);
    TaggedUnderAnySchedule(q.search, q.pages, run.pageSchedule);
    PermutationMember(Found(q, run), TaggedInOrder(q.search, q.pages), r);
  }

  // ---- the discovered records ----

  /** About the place, which belongs to the metric, and without datapoint. */
  ghost predicate IsUnanswered(rec: Record, job: JobWork, m: MetricWork, at: Place) {
    && IsPlaceIn(job, m, at) && Belongs(job, m, at) && IsAbout(rec, job, m, at)
    && rec.point == None && rec.timestamp == None
  }

  /** A resource of a metric is one of the mappings, and belongs to the metric. */
  lemma OwnerBelongs(job: JobWork, m: MetricWork, a: nat, b: nat, r: Resource) returns (at: Place)
    requires PagesDone(QuestionOf(job, m), RunOf(job, m)) && a < |m.list| && b < |m.target.metric.statistics|
    requires FirstMatch(RunIndex(QuestionOf(job, m), RunOf(job, m)), m.list[a].dims) == Some(r)
    ensures IsPlaceIn(job, m, at) && Belongs(job, m, at) && at.listed == a && at.statistic == b
    ensures IsResourceOf(r, job.pages[at.page][at.mapping], job.search)
  {
    var q, run := QuestionOf(job, m), RunOf(job, m);
    OwnerNamesDimension(q.patterns, Found(q, run), m.list[a].dims);
    var page, n := FoundIsMapping(q, run, r);
    at := Place(0, 0, a, b, page, n);
  }

  lemma RecordOfOwner(rec: Record, job: JobWork, m: MetricWork, at: Place, r: Resource, id: string)
    requires IsPlaceIn(job, m, at) && Belongs(job, m, at)
    requires IsResourceOf(r, job.pages[at.page][at.mapping], job.search)
    requires IsRecordOf(rec, m.target, r, m.list[at.listed], m.target.metric.statistics[at.statistic], id)
    ensures IsUnanswered(rec, job, m, at)
  {
  }

  /** Every discovered record is about a listed metric and a resource that belongs to it. */
  lemma DiscoveredAt(job: JobWork, m: MetricWork, i: nat, b: nat) returns (t: nat, at: Place)
    requires Finished(QuestionOf(job, m), RunOf(job, m))
    requires i < |Filtered(QuestionOf(job, m), RunOf(job, m))| && b < |m.target.metric.statistics|
    ensures t == i * |m.target.metric.statistics| + b < |Discovered(QuestionOf(job, m), RunOf(job, m))|
    ensures IsUnanswered(Discovered(QuestionOf(job, m), RunOf(job, m))[t], job, m, at)
    ensures at.statistic == b && m.list[at.listed] == Filtered(QuestionOf(job, m), RunOf(job, m))[i]
  {
    var q, run := QuestionOf(job, m), RunOf(job, m);
    var r := DiscoveredRecords(q, run, i, b);
    FilteredAreListed(q, run, Filtered(q, run)[i]);
    var a: nat :| a < |m.list| && m.list[a] == Filtered(q, run)[i];
    at := OwnerBelongs(job, m, a, b, r);
    t := i * |m.target.metric.statistics| + b;
    RecordOfOwner(Discovered(q, run)[t], job, m, at, r, run.ids(t));
  }

  lemma DiscoveredIsAsked(job: JobWork, m: MetricWork, t: nat) returns (at: Place)
    requires Finished(QuestionOf(job, m), RunOf(job, m)) && t < |Discovered(QuestionOf(job, m), RunOf(job, m))|
    ensures IsUnanswered(Discovered(QuestionOf(job, m), RunOf(job, m))[t], job, m, at)
  {
    RunUsesOwnResources(QuestionOf(job, m), RunOf(job, m));
    var i, b := PlaceOf(t, |Filtered(QuestionOf(job, m), RunOf(job, m))|, |m.target.metric.statistics|);
    var same;
    same, at := DiscoveredAt(job, m, i, b);
    assert same == t;
  }

  /** The filter keeps a metric if some resource belongs to it. */
  lemma BelongingIsFiltered(job: JobWork, m: MetricWork, at: Place) returns (i: nat)
    requires Finished(QuestionOf(job, m), RunOf(job, m)) && IsPlaceIn(job, m, at) && Belongs(job, m, at)
    ensures var filtered := Filtered(QuestionOf(job, m), RunOf(job, m));
      i < |filtered| && filtered[i] == m.list[at.listed]
  {
    var q, run := QuestionOf(job, m), RunOf(job, m);
    var r := MappingIsFound(q, run, at.page, at.mapping);
    NamedHasOwner(q.patterns, Found(q, run), r, m.list[at.listed].dims);
    FilteredAreListed(q, run, m.list[at.listed]);
    i :| 0 <= i < |Filtered(q, run)| && Filtered(q, run)[i] == m.list[at.listed];
  }

  lemma AskedIsDiscovered(job: JobWork, m: MetricWork, at: Place) returns (t: nat, found: Place)
    requires Finished(QuestionOf(job, m), RunOf(job, m)) && IsPlaceIn(job, m, at) && Belongs(job, m, at)
    ensures t < |Discovered(QuestionOf(job, m), RunOf(job, m))|
    ensures IsUnanswered(Discovered(QuestionOf(job, m), RunOf(job, m))[t], job, m, found)
    ensures found.statistic == at.statistic && m.list[found.listed] == m.list[at.listed]
  {
    var i := BelongingIsFiltered(job, m, at);
    t, found := DiscoveredAt(job, m, i, at.statistic);
  }

  // ---- the collected records ----

  lemma FilledIsAsked(job: JobWork, m: MetricWork, out: Record) returns (at: Place)
    requires MetricDone(job, m) && ComesFrom(job, m, out)
    ensures IsPlaceIn(job, m, at) && Belongs(job, m, at) && IsAbout(out, job, m, at) && ShowsResponse(out, m)
  {
    var data := Discovered(QuestionOf(job, m), RunOf(job, m));
    var t: nat, i: nat, x: nat :|
      t < |data| && i < |m.responses| && x < |m.responses[i]|
      && data[t].metricId == m.responses[i][x].id && FilledCopy(data[t], m.responses[i][x], out);
    at := DiscoveredIsAsked(job, m, t);
    SameButFilled(data[t], out);
  }

  lemma SameButFilled(rec: Record, out: Record)
    requires out.(point := None, timestamp := None) == rec.(point := None, timestamp := None)
    ensures out == rec.(point := out.point, timestamp := out.timestamp)
  {
  }

  /**
   Whatever the schedule and the answers, every collected record is about a listed metric, a configured statistic and
   a resource of the job that passes its tag filters and whose ARN names one of the metric's dimensions; and it shows
   the first datapoint of a result with its own id.
   */
  lemma CollectedIsAsked(jobs: seq<JobWork>, schedule: seq<ForkJoin.Action>, out: Record) returns (at: Place)
    requires AllDone(jobs) && ForkJoin.Complete(CollectRoutines(jobs), schedule)
    requires out in ForkJoin.Output(CollectRoutines(jobs), schedule)
    ensures InRange(jobs, at)
    ensures var job := jobs[at.job]; var m := job.metrics[at.metric];
      Belongs(job, m, at) && IsAbout(out, job, m, at) && ShowsResponse(out, m)
  {
    var j, k := CollectedComeFrom(jobs, schedule, out);
    at := FilledIsAsked(jobs[j], jobs[j].metrics[k], out);
    at := at.(job := j, metric := k);
  }

  lemma InBlock(jobs: seq<JobWork>, schedule: seq<ForkJoin.Action>, j: nat, k: nat, out: Record)
    requires AllDone(jobs) && ForkJoin.Complete(CollectRoutines(jobs), schedule)
    requires j < |jobs| && k < |jobs[j].metrics| && out in MetricBlock(jobs[j], jobs[j].metrics[k])
    ensures out in ForkJoin.Output(CollectRoutines(jobs), schedule)
  {
    var blocks := BlocksInOrder(jobs);
    assert MetricDone(jobs[j], jobs[j].metrics[k]);
    PartInConcat(JobLists(jobs), j, k);
    assert JobLists(jobs)[j][k] in blocks;
    var n: nat :| n < |blocks| && blocks[n] == JobLists(jobs)[j][k];
    var x: nat :| x < |blocks[n]| && blocks[n][x] == out;
    PartInConcat(blocks, n, x);
    CollectConserves(jobs, schedule);
    PermutationMember(ForkJoin.Output(CollectRoutines(jobs), schedule), Concat(blocks), out);
  }


  lemma QuoteIsFilled(cloud: Cloud, job: JobWork, m: MetricWork, t: nat, n: nat) returns (out: Record)
    requires MetricDone(job, m) && HonestMetric(cloud, job, m)
    requires t < |Discovered(QuestionOf(job, m), RunOf(job, m))|
    requires var rec := Discovered(QuestionOf(job, m), RunOf(job, m))[t];
      rec.point == None && rec.timestamp == None && n < |cloud(rec.(metricId := ""))|
    ensures var rec := Discovered(QuestionOf(job, m), RunOf(job, m))[t];
      var quote := cloud(rec.(metricId := ""))[n];
      && out in MetricBlock(job, m) && out.(metricId := "", point := None, timestamp := None) == rec.(metricId := "")
      && ShowsFirst(out, quote.values, quote.timestamps)
  {
    var data := Discovered(QuestionOf(job, m), RunOf(job, m));
    var service, rec := ServiceOf(cloud), data[t];
    var result := service(rec)[n];
    out := Filled(rec, result);
    FilledElements(rec, service(rec));
    assert FilledBy(service)(rec)[n] == out;
    ToFlatMap(FilledBy(service), data, rec, out);
    BatchingIsTransparent(data, service, m.responses, m.scrapeSchedule);
    PermutationMember(MetricBlock(job, m), FlatMap(FilledBy(service), data), out);
  }

  /** Some collected record is `asked` but for its id, with the first datapoint of the quote. */
  ghost predicate IsCollected(asked: Record, quote: Quote, collected: seq<Record>) {
    exists out :: out in collected && out.(metricId := "", point := None, timestamp := None) == asked
      && ShowsFirst(out, quote.values, quote.timestamps)
  }

  /**
   And nothing is missing: for every listed metric, configured statistic and resource of the job that passes the tag
   filters and names one of the metric's dimensions, a record about the metric, the statistic and such a resource is
   collected with everything that the service has to say about it.
   */
  lemma AskedIsCollected(cloud: Cloud, jobs: seq<JobWork>, schedule: seq<ForkJoin.Action>, at: Place)
    returns (asked: Record, found: Place)
    requires AllDone(jobs) && Honest(cloud, jobs) && ForkJoin.Complete(CollectRoutines(jobs), schedule)
    requires InRange(jobs, at) && Belongs(jobs[at.job], jobs[at.job].metrics[at.metric], at)
    ensures InRange(jobs, found) && (found.job, found.metric, found.statistic) == (at.job, at.metric, at.statistic)
    ensures var job := jobs[at.job]; var m := job.metrics[at.metric];
      m.list[found.listed] == m.list[at.listed] && Belongs(job, m, found) && IsAbout(asked, job, m, found)
    ensures forall n :: 0 <= n < |cloud(asked)| ==>
      IsCollected(asked, cloud(asked)[n], ForkJoin.Output(CollectRoutines(jobs), schedule))
  {
    var job, m := jobs[at.job], jobs[at.job].metrics[at.metric];
    assert MetricDone(job, m) && HonestMetric(cloud, job, m);
    var t;
    t, found := AskedIsDiscovered(job, m, at);
    found := found.(job := at.job, metric := at.metric);
    asked := Discovered(QuestionOf(job, m), RunOf(job, m))[t].(metricId := "");
    forall n | 0 <= n < |cloud(asked)|
      ensures IsCollected(asked, cloud(asked)[n], ForkJoin.Output(CollectRoutines(jobs), schedule))
    {
      var out := QuoteIsFilled(cloud, job, m, t, n);
      InBlock(jobs, schedule, at.job, at.metric, out);
    }
  }

  // ---- for every interleaving of all workers ----

  /** Nothing that places are about changes while the workers run. */
  lemma SameInputs(a: JobWork, b: JobWork, k: nat)
    requires Interleaving.SameJob(a, b) && k < |a.metrics|
    ensures a.search == b.search && a.pages == b.pages && a.patterns == b.patterns && k < |b.metrics|
    ensures a.metrics[k].list == b.metrics[k].list && a.metrics[k].target == b.metrics[k].target
    ensures a.metrics[k].responses == b.metrics[k].responses
  {
    assert Interleaving.SameWork(a.metrics[k], b.metrics[k]);
  }

  /** However the workers interleave, only what was asked is collected, */
  lemma InterleavedIsAsked(start: seq<JobWork>, steps: seq<Interleaving.Step>, out: Record) returns (at: Place)
    requires Interleaving.Unstarted(start) && Interleaving.Legal(start, steps)
    requires Interleaving.Returned(Interleaving.After(start, steps))
    requires out in Interleaving.Collected(Interleaving.After(start, steps))
    ensures InRange(start, at)
    ensures var job := start[at.job]; var m := job.metrics[at.metric];
      Belongs(job, m, at) && IsAbout(out, job, m, at) && ShowsResponse(out, m)
  {
    var s := Interleaving.After(start, steps);
    Interleaving.InvAfter(start, steps);
    Interleaving.ReturnedIsDone(s);
    Interleaving.RunKeepsJobs(start, steps);
    at := CollectedIsAsked(s.jobs, s.outer, out);
    assert Interleaving.SameJob(start[at.job], s.jobs[at.job]);
    SameInputs(start[at.job], s.jobs[at.job], at.metric);
  }

  /** and all of it. */
  lemma AskedIsCollectedInterleaved(
    cloud: Cloud, start: seq<JobWork>, steps: seq<Interleaving.Step>, at: Place)
    returns (asked: Record, found: Place)
    requires Interleaving.Unstarted(start) && Interleaving.Legal(start, steps)
    requires Interleaving.Returned(Interleaving.After(start, steps))
    requires Interleaving.HonestWhereDone(cloud, Interleaving.After(start, steps).jobs)
    requires InRange(start, at) && Belongs(start[at.job], start[at.job].metrics[at.metric], at)
    ensures InRange(start, found)
    ensures (found.job, found.metric, found.statistic) == (at.job, at.metric, at.statistic)
    ensures var job := start[at.job]; var m := job.metrics[at.metric];
      m.list[found.listed] == m.list[at.listed] && Belongs(job, m, found) && IsAbout(asked, job, m, found)
    ensures forall n :: 0 <= n < |cloud(asked)| ==>
      IsCollected(asked, cloud(asked)[n], Interleaving.Collected(Interleaving.After(start, steps)))
  {
    var s := Interleaving.After(start, steps);
    Interleaving.InvAfter(start, steps);
    Interleaving.ReturnedIsDone(s);
    Interleaving.RunKeepsJobs(start, steps);
    assert Interleaving.SameJob(start[at.job], s.jobs[at.job]);
    SameInputs(start[at.job], s.jobs[at.job], at.metric);
    asked, found := AskedIsCollected(cloud, s.jobs, s.outer, at);
  }
}
