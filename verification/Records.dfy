/** From the filtered metrics to the records that are queried. */
module Records {
  import opened Collections
  import opened Resources
  import opened Index
  import opened Filter
  import ForkJoin

  /** A configured metric of a job. */
  datatype MetricConfig = MetricConfig(
    name: string, statistics: seq<string>, period: int, length: int,
    nilToZero: Option<bool>, addTimestamp: Option<bool>)

  /** What all records built by one call have in common. */
  datatype Target = Target(
    metric: MetricConfig, namespace: string, region: string, accountId: string,
    exported: map<string, seq<string>>, customTags: seq<Tag>)

  /** One record of the pipeline (`cloudwatchData`); `point` and `timestamp` are filled in by result matching. */
  datatype Record = Record(
    id: string, metricId: string, metric: string, namespace: string, statistics: seq<string>,
    point: Option<int>, timestamp: Option<int>, nilToZero: Option<bool>, addTimestamp: Option<bool>,
    customTags: seq<Tag>, tags: seq<Tag>, dimensions: seq<Dimension>,
    region: string, accountId: string, period: int)

  function ExportedNames(target: Target, r: Resource): seq<string> {
    if r.namespace in target.exported then target.exported[r.namespace] else []
  }

  function RecordOf(target: Target, r: Resource, m: Metric, stat: string, id: string): Record {
    Record(r.arn, id, target.metric.name, target.namespace, [stat], None, None,
           target.metric.nilToZero, target.metric.addTimestamp,
           target.customTags, MetricTagsOf(r.tags, ExportedNames(target, r)), m.dims,
           target.region, target.accountId, target.metric.period)
  }

  /** The variable `r` after the loop has seen all of `list`: it keeps its value where nothing matches. */
  function Owner(index: DimensionIndex, list: seq<Metric>): Option<Resource> {
    if list == [] then None
    else
      var n := |list| - 1;
      var here := FirstMatch(index, list[n].dims);
      if here.Some? then here else Owner(index, list[..n])
  }

  /** One record a statistic, with the ids that come next. */
  function MetricRecords(
    target: Target, owner: Option<Resource>, m: Metric, ids: nat -> string, base: nat): seq<Record>
  {
    match owner
    case None => []
    case Some(r) =>
      seq(|target.metric.statistics|, k requires 0 <= k < |target.metric.statistics| =>
        RecordOf(target, r, m, target.metric.statistics[k], ids(base + k)))
  }

  function BuiltRecords(index: DimensionIndex, list: seq<Metric>, target: Target, ids: nat -> string): seq<Record> {
    if list == [] then []
    else
      var n := |list| - 1;
      var before := BuiltRecords(index, list[..n], target, ids);
      before + MetricRecords(target, Owner(index, list), list[n], ids, |before|)
  }

  /** The nil pointer is read exactly when the very first metric matches nothing. */
  predicate Panics(index: DimensionIndex, list: seq<Metric>, target: Target) {
    list != [] && target.metric.statistics != [] && FirstMatch(index, list[0].dims).None?
  }

  lemma {:induction false} OwnerKnown(index: DimensionIndex, list: seq<Metric>)
    requires list != [] && FirstMatch(index, list[0].dims).Some?
    ensures Owner(index, list).Some?
  {
    if |list| > 1 {
      OwnerKnown(index, list[..|list| - 1]);
    }
  }

  // ---- what is built ----

  /** The fields of a record, one by one. */
  ghost predicate IsRecordOf(rec: Record, target: Target, r: Resource, m: Metric, stat: string, id: string) {
    && rec.id == r.arn && rec.metricId == id
    && rec.metric == target.metric.name && rec.statistics == [stat] && rec.period == target.metric.period
    && rec.nilToZero == target.metric.nilToZero && rec.addTimestamp == target.metric.addTimestamp
    && rec.namespace == target.namespace && rec.region == target.region && rec.accountId == target.accountId
    && rec.point == None && rec.timestamp == None
    && rec.dimensions == m.dims && rec.customTags == target.customTags
    && AreMetricTags(rec.tags, r.tags, if r.namespace in target.exported then target.exported[r.namespace] else [])
  }

  lemma RecordOfIs(target: Target, r: Resource, m: Metric, stat: string, id: string)
    ensures IsRecordOf(RecordOf(target, r, m, stat, id), target, r, m, stat, id)
  {
    MetricTagsAre(r.tags, ExportedNames(target, r));
  }

  /** The resource was found for metric `k`, and none for the metrics after it up to `i`. */
  ghost predicate IsLastFound(index: DimensionIndex, list: seq<Metric>, k: nat, i: nat, r: Resource) {
    && k <= i < |list| && FirstMatch(index, list[k].dims) == Some(r)
    && forall j :: k < j <= i ==> FirstMatch(index, list[j].dims).None?
  }

  lemma {:induction false} OwnerIsLast(index: DimensionIndex, list: seq<Metric>, i: nat, r: Resource) returns (k: nat)
    requires i < |list| && Owner(index, list[..i + 1]) == Some(r)
    ensures IsLastFound(index, list, k, i, r)
  {
    assert list[..i + 1][..i] == list[..i];
    if FirstMatch(index, list[i].dims).Some? {
      k := i;
    } else {
      k := OwnerIsLast(index, list, i - 1, r);
    }
  }

  /** A record of metric `i`, with the resource found last. */
  ghost predicate IsRecordAt(
    rec: Record, index: DimensionIndex, list: seq<Metric>, target: Target, i: nat, stat: string, id: string)
  {
    i < |list| && exists k, r :: IsLastFound(index, list, k, i, r) && IsRecordOf(rec, target, r, list[i], stat, id)
  }

  /** Metric by metric and statistic by statistic, one record each, with the ids in the order drawn. */
  ghost predicate AreRecords(
    records: seq<Record>, index: DimensionIndex, list: seq<Metric>, target: Target, ids: nat -> string)
  {
    var stats := target.metric.statistics;
    && |records| == |list| * |stats|
    && forall i, k :: 0 <= i < |list| && 0 <= k < |stats| ==> RecordInPlace(records, index, list, target, ids, i, k)
  }

  ghost predicate RecordInPlace(
    records: seq<Record>, index: DimensionIndex, list: seq<Metric>, target: Target, ids: nat -> string, i: nat, k: nat)
  {
    var stats := target.metric.statistics;
    var j := i * |stats| + k;
    j < |records| && k < |stats| && IsRecordAt(records[j], index, list, target, i, stats[k], ids(j))
  }

  lemma {:induction false} BuiltCount(index: DimensionIndex, list: seq<Metric>, target: Target, ids: nat -> string)
    requires !Panics(index, list, target)
    ensures |BuiltRecords(index, list, target, ids)| == |list| * |target.metric.statistics|
  {
    if list != [] {
      var n := |list| - 1;
      BuiltCount(index, list[..n], target, ids);
      if target.metric.statistics != [] {
        OwnerKnown(index, list);
      }
      OneMore(n, |target.metric.statistics|);
    }
  }

  /** The records of the first metrics come first. */
  lemma {:induction false} BuiltPrefix(
    index: DimensionIndex, list: seq<Metric>, target: Target, ids: nat -> string, i: nat)
    requires i <= |list|
    ensures BuiltRecords(index, list[..i], target, ids) <= BuiltRecords(index, list, target, ids)
  {
    if i < |list| {
      var n := |list| - 1;
      BuiltPrefix(index, list[..n], target, ids, i);
      assert list[..n][..i] == list[..i];
      assert BuiltRecords(index, list[..n], target, ids) <= BuiltRecords(index, list, target, ids);
    } else {
      assert list[..i] == list;
    }
  }

  lemma MetricRecordIs(target: Target, r: Resource, m: Metric, ids: nat -> string, base: nat, k: nat)
    returns (rec: Record)
    requires k < |target.metric.statistics|
    ensures |MetricRecords(target, Some(r), m, ids, base)| == |target.metric.statistics|
    ensures rec == MetricRecords(target, Some(r), m, ids, base)[k]
    ensures IsRecordOf(rec, target, r, m, target.metric.statistics[k], ids(base + k))
  {
    rec := RecordOf(target, r, m, target.metric.statistics[k], ids(base + k));
    RecordOfIs(target, r, m, target.metric.statistics[k], ids(base + k));
  }

  lemma LastRecords(index: DimensionIndex, list: seq<Metric>, target: Target, ids: nat -> string, r: Resource)
    returns (before: seq<Record>, more: seq<Record>)
    requires list != [] && Owner(index, list) == Some(r)
    ensures before == BuiltRecords(index, list[..|list| - 1], target, ids)
    ensures more == MetricRecords(target, Some(r), list[|list| - 1], ids, |before|)
    ensures BuiltRecords(index, list, target, ids) == before + more
  {
    before := BuiltRecords(index, list[..|list| - 1], target, ids);
    more := MetricRecords(target, Some(r), list[|list| - 1], ids, |before|);
  }

  lemma BuiltRecordAt(index: DimensionIndex, list: seq<Metric>, target: Target, ids: nat -> string, i: nat, k: nat)
    returns (r: Resource, base: nat)
    requires !Panics(index, list, target) && i < |list| && k < |target.metric.statistics|
    ensures Owner(index, list[..i + 1]) == Some(r) && base == |BuiltRecords(index, list[..i], target, ids)|
    ensures var records := BuiltRecords(index, list, target, ids);
      var more := MetricRecords(target, Some(r), list[i], ids, base);
      k < |more| && base + k < |records| && records[base + k] == more[k]
  {
    var first := list[..i + 1];
    OwnerKnown(index, first);
    r := Owner(index, first).value;
    var before, more := LastRecords(index, first, target, ids, r);
    assert first[..i] == list[..i];
    base := |before|;
    BuiltPrefix(index, list, target, ids, i + 1);
    PrefixElement(before, more, BuiltRecords(index, list, target, ids), k);
  }

  lemma PrefixElement<T>(before: seq<T>, more: seq<T>, whole: seq<T>, k: nat)
    requires before + more <= whole && k < |more|
    ensures |before| + k < |whole| && whole[|before| + k] == more[k]
  {
    assert (before + more)[|before| + k] == more[k];
  }

  lemma InPlaceOf(
    records: seq<Record>, index: DimensionIndex, list: seq<Metric>, target: Target, ids: nat -> string, i: nat, k: nat,
    j: nat)
    requires i < |list| && k < |target.metric.statistics| && j == i * |target.metric.statistics| + k < |records|
    requires IsRecordAt(records[j], index, list, target, i, target.metric.statistics[k], ids(j))
    ensures RecordInPlace(records, index, list, target, ids, i, k)
  {
  }

  lemma RecordAtOf(
    rec: Record, index: DimensionIndex, list: seq<Metric>, target: Target, i: nat, stat: string, id: string,
    r: Resource)
    requires i < |list| && Owner(index, list[..i + 1]) == Some(r) && IsRecordOf(rec, target, r, list[i], stat, id)
    ensures IsRecordAt(rec, index, list, target, i, stat, id)
  {
    var last := OwnerIsLast(index, list, i, r);
  }

  lemma BuiltIsRecordAt(index: DimensionIndex, list: seq<Metric>, target: Target, ids: nat -> string, i: nat, k: nat)
    returns (j: nat)
    requires !Panics(index, list, target) && i < |list| && k < |target.metric.statistics|
    ensures j == |BuiltRecords(index, list[..i], target, ids)| + k < |BuiltRecords(index, list, target, ids)|
    ensures var rec := BuiltRecords(index, list, target, ids)[j];
      IsRecordAt(rec, index, list, target, i, target.metric.statistics[k], ids(j))
  {
    var r, base := BuiltRecordAt(index, list, target, ids, i, k);
    j := base + k;
    var rec := MetricRecordIs(target, r, list[i], ids, base, k);
    RecordAtOf(rec, index, list, target, i, target.metric.statistics[k], ids(j), r);
  }

  lemma BuiltInPlace(index: DimensionIndex, list: seq<Metric>, target: Target, ids: nat -> string, i: nat, k: nat)
    requires !Panics(index, list, target) && i < |list| && k < |target.metric.statistics|
    ensures RecordInPlace(BuiltRecords(index, list, target, ids), index, list, target, ids, i, k)
  {
    var j := BuiltIsRecordAt(index, list, target, ids, i, k);
    BuiltCount(index, list[..i], target, ids);
    InPlaceOf(BuiltRecords(index, list, target, ids), index, list, target, ids, i, k, j);
  }

  lemma BuiltAreRecords(index: DimensionIndex, list: seq<Metric>, target: Target, ids: nat -> string)
    requires !Panics(index, list, target)
    ensures AreRecords(BuiltRecords(index, list, target, ids), index, list, target, ids)
  {
    BuiltCount(index, list, target, ids);
    forall i, k | 0 <= i < |list| && 0 <= k < |target.metric.statistics|
      ensures RecordInPlace(BuiltRecords(index, list, target, ids), index, list, target, ids, i, k)
    {
      BuiltInPlace(index, list, target, ids, i, k);
    }
  }

  /** `None` is the nil dereference; `ids(k)` is the k-th random id drawn. */
  method GetCloudwatchDataFromMetric(
    index: DimensionIndex, list: seq<Metric>, target: Target, ids: nat -> string)
    returns (result: Option<seq<Record>>)
    ensures result.None? <==> Panics(index, list, target)
    ensures result.Some? ==> result.value == BuiltRecords(index, list, target, ids)
    ensures result.Some? ==> AreRecords(result.value, index, list, target, ids)
  {
    var built: seq<Record> := [];
    var r: Option<Resource> := None;
    for i := 0 to |list|
      invariant r == Owner(index, list[..i])
      invariant built == BuiltRecords(index, list[..i], target, ids)
      invariant i > 0 ==> !Panics(index, list, target)
    {
      var own := FindOwner(index, list[i].dims);
      if own.Some? {
        r := own;
      }
      assert list[..i + 1][..i] == list[..i];
      assert r == Owner(index, list[..i + 1]);
      if FirstMatch(index, list[0].dims).Some? {
        OwnerKnown(index, list[..i + 1]);
      }
      var more := AppendRecords(target, r, list[i], ids, built);
      if more.None? {
        NoOwnerYet(index, list, i + 1);
        return None;
      }
      built := more.value;
    }
    assert list[..|list|] == list;
    BuiltAreRecords(index, list, target, ids);
    result := Some(built);
  }

  lemma {:induction false} NoOwnerYet(index: DimensionIndex, list: seq<Metric>, n: nat)
    requires 0 < n <= |list| && Owner(index, list[..n]).None?
    ensures FirstMatch(index, list[0].dims).None?
  {
    if n > 1 {
      assert list[..n][..n - 1] == list[..n - 1];
      NoOwnerYet(index, list, n - 1);
    }
  }

  method BuildRecord(target: Target, r: Resource, m: Metric, stat: string, id: string) returns (d: Record)
    ensures d == RecordOf(target, r, m, stat, id)
  {
    var metricTags := MetricTags(r.tags, ExportedNames(target, r));
    d := Record(r.arn, id, target.metric.name, target.namespace, [stat], None, None,
                target.metric.nilToZero, target.metric.addTimestamp,
                target.customTags, metricTags, m.dims,
                target.region, target.accountId, target.metric.period);
  }

  /** The loop over the statistics of one metric; `r` is read once an iteration. */
  method AppendRecords(target: Target, r: Option<Resource>, m: Metric, ids: nat -> string, before: seq<Record>)
    returns (result: Option<seq<Record>>)
    ensures result.None? <==> r.None? && target.metric.statistics != []
    ensures result.Some? ==> result.value == before + MetricRecords(target, r, m, ids, |before|)
  {
    var built := before;
    ghost var all := MetricRecords(target, r, m, ids, |before|);
    for k := 0 to |target.metric.statistics|
      invariant k > 0 ==> r.Some?
      invariant k <= |all| || r.None?
      invariant built == if r.Some? then before + all[..k] else before
    {
      if r.None? {
        return None;
      }
      var d := BuildRecord(target, r.value, m, target.metric.statistics[k], ids(|built|));
      assert d == all[k];
      built := built + [d];
    }
    assert r.Some? ==> all[..|target.metric.statistics|] == all;
    result := Some(built);
  }

  /** The two inner loops with their breaks: dimension by dimension, entry by entry, until one matches. */
  method FindOwner(index: DimensionIndex, dims: seq<Dimension>) returns (r: Option<Resource>)
    ensures r == FirstMatch(index, dims)
  {
    r := None;
    var found := false;
    for d := 0 to |dims|
      invariant !found ==> FirstMatch(index, dims) == FirstMatch(index, dims[d..])
      invariant found ==> r == FirstMatch(index, dims)
      invariant found <==> r.Some?
    {
      if found {
        break;
      }
      var entries := Lookup(index, dims[d].name);
      var e := 0;
      while e < |entries|
        invariant 0 <= e <= |entries| && !found && r == None
        invariant FirstEntry(entries, dims[d].value) == FirstEntry(entries[e..], dims[d].value)
      {
        if entries[e].dimVal == dims[d].value {
          r := Some(entries[e].res);
          found := true;
          break;
        }
        e := e + 1;
      }
    }
  }

  // ---- no stale resource ----

  /** Records up to their random ids. */
  ghost function Anonymous(): Record -> seq<Record> {
    (rec: Record) => [rec.(metricId := "")]
  }

  /** The records of one metric, by its own first match and by nothing that came before it. */
  ghost function OwnRecords(index: DimensionIndex, target: Target): Metric -> seq<Record> {
    (m: Metric) =>
      MetricRecords(target, FirstMatch(index, m.dims), m, NoIds(), 0)
  }

  ghost function NoIds(): nat -> string {
    k => ""
  }

  lemma AnonymousCopies(s: seq<Record>, t: seq<Record>)
    requires |s| == |t| && forall k :: 0 <= k < |s| ==> t[k] == s[k].(metricId := "")
    ensures FlatMap(Anonymous(), s) == t
  {
    OneEach(Anonymous(), s, t);
  }

  /** The last metric adds its own records to those of the others. */
  lemma BuiltNext(index: DimensionIndex, list: seq<Metric>, target: Target, ids: nat -> string)
    returns (before: seq<Record>, more: seq<Record>)
    requires list != [] && FirstMatch(index, list[|list| - 1].dims).Some?
    ensures before == BuiltRecords(index, list[..|list| - 1], target, ids)
    ensures BuiltRecords(index, list, target, ids) == before + more
    ensures |more| == |target.metric.statistics|
    ensures FlatMap(Anonymous(), more) == OwnRecords(index, target)(list[|list| - 1])
  {
    var n := |list| - 1;
    var owner := FirstMatch(index, list[n].dims);
    before := BuiltRecords(index, list[..n], target, ids);
    more := MetricRecords(target, owner, list[n], ids, |before|);
    assert Owner(index, list) == owner;
    AnonymousMetricRecords(target, owner, list[n], ids, |before|);
  }

  /** Where every metric matches, each of them gets its own resource, in order. */
  lemma {:induction false} NoStaleOwner(index: DimensionIndex, list: seq<Metric>, target: Target, ids: nat -> string)
    requires forall m :: m in list ==> FirstMatch(index, m.dims).Some?
    ensures FlatMap(Anonymous(), BuiltRecords(index, list, target, ids)) == FlatMap(OwnRecords(index, target), list)
  {
    if list == [] {
      assert BuiltRecords(index, list, target, ids) == [];
    } else {
      assert list[|list| - 1] in list;
      var before, more := BuiltNext(index, list, target, ids);
      NoStaleOwner(index, list[..|list| - 1], target, ids);
      FlatMapAppend(Anonymous(), before, more);
    }
  }

  /** One record a metric and statistic. */
  lemma {:induction false} BuiltLength(index: DimensionIndex, list: seq<Metric>, target: Target, ids: nat -> string)
    requires forall m :: m in list ==> FirstMatch(index, m.dims).Some?
    ensures |BuiltRecords(index, list, target, ids)| == |list| * |target.metric.statistics|
  {
    if list != [] {
      var n := |list| - 1;
      assert list[n] in list;
      var before, more := BuiltNext(index, list, target, ids);
      BuiltLength(index, list[..n], target, ids);
      OneMore(n, |target.metric.statistics|);
    }
  }

  lemma AnonymousMetricRecords(
    target: Target, owner: Option<Resource>, m: Metric, ids: nat -> string, base: nat)
    ensures FlatMap(Anonymous(), MetricRecords(target, owner, m, ids, base))
         == MetricRecords(target, owner, m, NoIds(), 0)
  {
    AnonymousCopies(MetricRecords(target, owner, m, ids, base), MetricRecords(target, owner, m, NoIds(), 0));
  }

  /** Every metric that the filter lets through, against the same index, has an owner of its own. */
  lemma FilteredHaveOwners(index: DimensionIndex, list: seq<Metric>, schedule: seq<ForkJoin.Action>)
    requires ForkJoin.Complete(FilterRoutines(index, list), schedule)
    ensures forall m :: m in ForkJoin.Output(FilterRoutines(index, list), schedule) ==>
      FirstMatch(index, m.dims).Some?
  {
    FilterUnderAnySchedule(index, list, schedule);
    forall m | m in ForkJoin.Output(FilterRoutines(index, list), schedule) ensures FirstMatch(index, m.dims).Some? {
      FirstMatchFinds(index, m.dims);
    }
  }

  /** The k-th record carries the k-th id drawn, one statistic, the configured period and no datapoint yet. */
  ghost predicate Fresh(rec: Record, target: Target, id: string) {
    && rec.metricId == id && rec.period == target.metric.period && |rec.statistics| == 1
    && rec.point.None? && rec.timestamp.None?
  }

  lemma {:induction false} BuiltRecordsAreFresh(
    index: DimensionIndex, list: seq<Metric>, target: Target, ids: nat -> string, k: nat)
    requires k < |BuiltRecords(index, list, target, ids)|
    ensures Fresh(BuiltRecords(index, list, target, ids)[k], target, ids(k))
  {
    var n := |list| - 1;
    var before := BuiltRecords(index, list[..n], target, ids);
    if k < |before| {
      BuiltRecordsAreFresh(index, list[..n], target, ids, k);
    }
  }
}
