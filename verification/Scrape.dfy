/** The collector of AWS monitoring as a whole: from the tagged resources to the metrics it hands to Prometheus. */
module Scrape {
  import opened Collections
  import opened Records
  import opened CollectData
  import opened PromNames
  import opened PromLabels
  import opened Interleaving

  // ---- the order of the records ----

  lemma SeenPermuted(a: seq<Sample>, b: seq<Sample>, name: string)
    requires Permutation(a, b)
    ensures KeysSeen(a, name) <= KeysSeen(b, name)
  {
    forall key | key in KeysSeen(a, name) ensures key in KeysSeen(b, name) {
      var i :| 0 <= i < |a| && a[i].name == name && key in a[i].labels;
      PermutationMember(a, b, a[i]);
      var j :| 0 <= j < |b| && b[j] == a[i];
    }
  }

  ghost function CompletedIn(samples: seq<Sample>): Sample -> seq<Sample> {
    (x: Sample) => [x.(labels := CompleteLabels(x.labels, KeysSeen(samples, x.name)))]
  }

  lemma CompletedIsFlatMap(samples: seq<Sample>)
    ensures Completed(samples) == FlatMap(CompletedIn(samples), samples)
  {
    OneEach(CompletedIn(samples), samples, Completed(samples));
  }

  lemma SameCompletion(a: seq<Sample>, b: seq<Sample>, x: Sample)
    requires Permutation(a, b)
    ensures CompletedIn(a)(x) == CompletedIn(b)(x)
  {
    SeenPermuted(a, b, x.name);
    SeenPermuted(b, a, x.name);
    assert KeysSeen(a, x.name) == KeysSeen(b, x.name);
  }

  /** The order of the samples changes the order of the completed ones, nothing else. */
  lemma CompletionIsOrderIndependent(a: seq<Sample>, b: seq<Sample>)
    requires Permutation(a, b)
    ensures Permutation(Completed(a), Completed(b))
  {
    CompletedIsFlatMap(a);
    CompletedIsFlatMap(b);
    forall x | x in a ensures CompletedIn(a)(x) == CompletedIn(b)(x) {
      SameCompletion(a, b, x);
    }
    FlatMapSame(CompletedIn(a), CompletedIn(b), a);
    FlatMapPermuted(CompletedIn(b), a, b);
  }

  /** A sample does not show the random id of its query. */
  lemma IdsDoNotShow(lower: Lowering, rec: Record)
    ensures RecordSamples(lower)(rec.(metricId := "")) == RecordSamples(lower)(rec)
  {
    var bare := rec.(metricId := "");
    forall statistic ensures StatisticSample(lower, bare)(statistic) == StatisticSample(lower, rec)(statistic) {
      assert LabelsOf(lower, bare) == LabelsOf(lower, rec);
    }
    FlatMapSame(StatisticSample(lower, bare), StatisticSample(lower, rec), rec.statistics);
  }

  lemma AnonymousSamples(lower: Lowering, records: seq<Record>)
    ensures FlatMap(RecordSamples(lower), FlatMap(Anonymous(), records)) == FlatMap(RecordSamples(lower), records)
  {
    forall rec | rec in records ensures FlatMap(RecordSamples(lower), Anonymous()(rec)) == RecordSamples(lower)(rec) {
      FlatMapOne(RecordSamples(lower), rec.(metricId := ""));
      IdsDoNotShow(lower, rec);
    }
    FlatMapTwice(Anonymous(), RecordSamples(lower), RecordSamples(lower), records);
  }

  /** What is exported for these records. */
  ghost function Exported(lower: Lowering, records: seq<Record>): seq<Sample> {
    Completed(FlatMap(RecordSamples(lower), records))
  }

  /** A sample of the record for the statistic, with nothing but empty labels added. */
  ghost predicate Shows(sample: Sample, lower: Lowering, rec: Record, statistic: string) {
    exists own :: IsSampleOf(own, lower, rec, statistic) && sample.(labels := own.labels) == own
      && forall key :: (key in own.labels ==> Has(sample.labels, key, own.labels[key]))
           && (key in sample.labels && key !in own.labels ==> sample.labels[key] == "")
  }

  lemma CompletedShows(samples: seq<Sample>, x: nat, lower: Lowering, rec: Record, statistic: string)
    requires x < |samples| && IsSampleOf(samples[x], lower, rec, statistic)
    ensures Shows(Completed(samples)[x], lower, rec, statistic)
  {
    forall key
      ensures key in samples[x].labels ==> Has(Completed(samples)[x].labels, key, samples[x].labels[key])
      ensures key in Completed(samples)[x].labels && key !in samples[x].labels ==>
        Completed(samples)[x].labels[key] == ""
    {
      CompletedKeeps(samples, x, key);
    }
    assert Completed(samples)[x].(labels := samples[x].labels) == samples[x];
  }

  /** Every statistic of every record is exported, but for those of records that lack a timestamp they ask for. */
  lemma EveryStatisticIsExported(lower: Lowering, records: seq<Record>, i: nat, k: nat) returns (x: nat)
    requires i < |records| && k < |records[i].statistics|
    requires records[i].point.Some? || records[i].addTimestamp != Some(true)
    ensures x < |Exported(lower, records)|
    ensures Shows(Exported(lower, records)[x], lower, records[i], records[i].statistics[k])
  {
    var rec, samples := records[i], FlatMap(RecordSamples(lower), records);
    RecordSamplesAre(lower, rec);
    var own := RecordSamples(lower)(rec)[k];
    ToFlatMap(RecordSamples(lower), records, rec, own);
    x :| 0 <= x < |samples| && samples[x] == own;
    CompletedShows(samples, x, lower, rec, rec.statistics[k]);
  }

  /** And nothing else is. */
  lemma EveryExportIsOfARecord(lower: Lowering, records: seq<Record>, x: nat) returns (i: nat, k: nat)
    requires x < |Exported(lower, records)|
    ensures i < |records| && k < |records[i].statistics|
    ensures Shows(Exported(lower, records)[x], lower, records[i], records[i].statistics[k])
  {
    var samples := FlatMap(RecordSamples(lower), records);
    var rec := InFlatMap(RecordSamples(lower), records, samples[x]);
    RecordSamplesAre(lower, rec);
    i :| i < |records| && records[i] == rec;
    k :| k < |RecordSamples(lower)(rec)| && RecordSamples(lower)(rec)[k] == samples[x];
    CompletedShows(samples, x, lower, rec, rec.statistics[k]);
  }

  /** Records that agree up to order and ids are exported alike. */
  lemma ExportedAlike(lower: Lowering, records: seq<Record>, reference: seq<Record>)
    requires Permutation(FlatMap(Anonymous(), records), reference)
    ensures Permutation(Exported(lower, records), Exported(lower, reference))
  {
    AnonymousSamples(lower, records);
    FlatMapPermuted(RecordSamples(lower), FlatMap(Anonymous(), records), reference);
    CompletionIsOrderIndependent(FlatMap(RecordSamples(lower), records), FlatMap(RecordSamples(lower), reference));
  }

  lemma CollectedAreTimed(start: seq<JobWork>, steps: seq<Step>)
    requires Unstarted(start) && Interleaving.Legal(start, steps) && Returned(Interleaving.After(start, steps))
    ensures Timed(Collected(Interleaving.After(start, steps)))
  {
    var s := Interleaving.After(start, steps);
    InvAfter(start, steps);
    ReturnedIsDone(s);
    CollectedHaveTimestamps(s.jobs, s.outer);
    forall i | 0 <= i < |Collected(s)| && Collected(s)[i].point.Some? ensures Collected(s)[i].timestamp.Some? {
      assert Collected(s)[i] in Collected(s);
    }
  }

  class MetricsCollector {
    var metrics: seq<PrometheusMetric>

    constructor ()
      ensures metrics == []
    {
      metrics := [];
    }

    /**
     The collector's metrics after any interleaving of the workers that collect `records`: fresh objects that show,
     up to order, what is exported for the sequential reference. What they showed before does not matter.
     */
    method Scrape(
      lower: Lowering, records: seq<Record>, ghost cloud: Cloud, ghost start: seq<JobWork>, ghost steps: seq<Step>)
      requires Unstarted(start) && PatternsValid(start) && AllIndependent(start)
      requires Interleaving.Legal(start, steps) && Returned(Interleaving.After(start, steps))
      requires HonestWhereDone(cloud, Interleaving.After(start, steps).jobs)
      requires records == Collected(Interleaving.After(start, steps))
      modifies this
      ensures forall i :: 0 <= i < |metrics| ==> fresh(metrics[i])
      ensures ViewAll(metrics) == Exported(lower, records)
      ensures Permutation(ViewAll(metrics), Exported(lower, Concat(Reference(cloud, start))))
    {
      CollectedAreTimed(start, steps);
      metrics := ScrapeMetrics(lower, records);
      EveryInterleaving(cloud, start, steps);
      ExportedAlike(lower, records, Concat(Reference(cloud, start)));
    }
  }
}
