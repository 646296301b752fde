/** Samples for Prometheus: their labels, and the pass that gives all samples of one name the same label keys. */
module PromLabels {
  import opened Collections
  import opened Resources
  import opened Index
  import opened Records
  import opened PromNames

  type Labels = map<string, string>

  /** A source entry of a label family: its normalised key and its value. */
  datatype Pair = Pair(key: string, value: string)

  function DimensionPairs(lower: Lowering, dims: seq<Dimension>): (r: seq<Pair>)
    ensures |r| == |dims|
  {
    seq(|dims|, i requires 0 <= i < |dims| => Pair(PromString(lower, dims[i].name), dims[i].value))
  }

  function TagPairs(lower: Lowering, tags: seq<Tag>): (r: seq<Pair>)
    ensures |r| == |tags|
  {
    seq(|tags|, i requires 0 <= i < |tags| => Pair(PromString(lower, tags[i].key), tags[i].value))
  }

  /** The labels of one family; a later entry overwrites an earlier one with the same key. */
  function Family(prefix: string, pairs: seq<Pair>): Labels {
    if pairs == [] then map[]
    else
      var n := |pairs| - 1;
      Family(prefix, pairs[..n])[prefix + pairs[n].key := pairs[n].value]
  }

  const DIMENSION := "dimension_"
  const CUSTOM := "custom_tag_"
  const TAG := "tag_"

  function FixedLabels(rec: Record): Labels {
    map["name" := rec.id, "region" := rec.region, "account_id" := rec.accountId]
  }

  function LabelsOf(lower: Lowering, rec: Record): Labels {
    FixedLabels(rec)
    + Family(DIMENSION, DimensionPairs(lower, rec.dimensions))
    + Family(CUSTOM, TagPairs(lower, rec.customTags))
    + Family(TAG, TagPairs(lower, rec.tags))
  }

  method CreatePrometheusLabels(lower: Lowering, rec: Record) returns (labels: Labels)
    ensures labels == LabelsOf(lower, rec)
    ensures AreLabelsOf(labels, lower, rec)
  {
    LabelsAre(lower, rec);
    labels := map[];
    labels := labels["name" := rec.id];
    labels := labels["region" := rec.region];
    labels := labels["account_id" := rec.accountId];
    labels := AddFamily(labels, DIMENSION, DimensionPairs(lower, rec.dimensions));
    labels := AddFamily(labels, CUSTOM, TagPairs(lower, rec.customTags));
    labels := AddFamily(labels, TAG, TagPairs(lower, rec.tags));
  }

  method AddFamily(base: Labels, prefix: string, pairs: seq<Pair>) returns (labels: Labels)
    ensures labels == base + Family(prefix, pairs)
  {
    labels := base;
    for i := 0 to |pairs|
      invariant labels == base + Family(prefix, pairs[..i])
    {
      labels := labels[prefix + pairs[i].key := pairs[i].value];
      assert pairs[..i + 1][..i] == pairs[..i];
    }
    assert pairs[..|pairs|] == pairs;
  }

  // ---- the families do not disturb each other ----

  ghost function KeysOf(pairs: seq<Pair>): set<string> {
    set i | 0 <= i < |pairs| :: pairs[i].key
  }

  ghost predicate IsLastWith(pairs: seq<Pair>, key: string, i: nat) {
    i < |pairs| && pairs[i].key == key && forall j :: i < j < |pairs| ==> pairs[j].key != key
  }

  /** A label of a family holds the last source value with its normalised key. */
  ghost predicate HoldsLast(labels: Labels, prefix: string, pairs: seq<Pair>) {
    && (forall key :: prefix + key in labels <==> key in KeysOf(pairs))
    && (forall key, i: nat :: IsLastWith(pairs, key, i) ==>
          prefix + key in labels && labels[prefix + key] == pairs[i].value)
  }

  lemma SameKey(prefix: string, a: string, b: string)
    requires prefix + a == prefix + b
    ensures a == b
  {
    assert (prefix + a)[|prefix|..] == a && (prefix + b)[|prefix|..] == b;
  }

  lemma KeysOfNext(pairs: seq<Pair>)
    requires pairs != []
    ensures KeysOf(pairs) == KeysOf(pairs[..|pairs| - 1]) + {pairs[|pairs| - 1].key}
  {
    var n := |pairs| - 1;
    assert forall i :: 0 <= i < n ==> pairs[..n][i] == pairs[i];
    forall key | key in KeysOf(pairs[..n]) ensures key in KeysOf(pairs) {
      var i :| 0 <= i < n && pairs[..n][i].key == key;
      assert pairs[i].key == key;
    }
  }

  ghost function Prefixed(prefix: string, keys: set<string>): set<string> {
    set key | key in keys :: prefix + key
  }

  lemma PrefixedHas(prefix: string, keys: set<string>, key: string)
    ensures prefix + key in Prefixed(prefix, keys) <==> key in keys
  {
    if prefix + key in Prefixed(prefix, keys) {
      var other :| other in keys && prefix + other == prefix + key;
      SameKey(prefix, other, key);
    }
  }

  lemma {:induction false} PrefixedCount(prefix: string, keys: set<string>)
    ensures |Prefixed(prefix, keys)| == |keys|
  {
    if keys != {} {
      var key :| key in keys;
      var rest := keys - {key};
      PrefixedCount(prefix, rest);
      PrefixedHas(prefix, rest, key);
      assert Prefixed(prefix, keys) == Prefixed(prefix, rest) + {prefix + key};
    }
  }

  /** Which labels a family has. */
  lemma {:induction false} FamilyKeys(prefix: string, pairs: seq<Pair>)
    ensures Family(prefix, pairs).Keys == Prefixed(prefix, KeysOf(pairs))
  {
    if pairs == [] {
      assert KeysOf(pairs) == {};
    } else {
      var n := |pairs| - 1;
      var keys, key := KeysOf(pairs[..n]), pairs[n].key;
      FamilyKeys(prefix, pairs[..n]);
      KeysOfNext(pairs);
      assert Prefixed(prefix, keys + {key}) == Prefixed(prefix, keys) + {prefix + key};
    }
  }

  lemma FamilyCount(prefix: string, pairs: seq<Pair>)
    ensures |Family(prefix, pairs)| == |KeysOf(pairs)|
  {
    FamilyKeys(prefix, pairs);
    PrefixedCount(prefix, KeysOf(pairs));
    assert |Family(prefix, pairs)| == |Family(prefix, pairs).Keys|;
  }

  lemma FamilyHas(prefix: string, pairs: seq<Pair>, key: string)
    ensures prefix + key in Family(prefix, pairs) <==> key in KeysOf(pairs)
  {
    FamilyKeys(prefix, pairs);
    PrefixedHas(prefix, KeysOf(pairs), key);
  }

  lemma {:induction false} FamilyLastValue(prefix: string, pairs: seq<Pair>, key: string, i: nat)
    requires IsLastWith(pairs, key, i)
    ensures prefix + key in Family(prefix, pairs) && Family(prefix, pairs)[prefix + key] == pairs[i].value
  {
    var n := |pairs| - 1;
    if i < n {
      FamilyLastValue(prefix, pairs[..n], key, i);
      if prefix + key == prefix + pairs[n].key {
        SameKey(prefix, key, pairs[n].key);
      }
    }
  }

  lemma FamilyHoldsLast(prefix: string, pairs: seq<Pair>)
    ensures HoldsLast(Family(prefix, pairs), prefix, pairs)
  {
    forall key ensures prefix + key in Family(prefix, pairs) <==> key in KeysOf(pairs) {
      FamilyHas(prefix, pairs, key);
    }
    forall key, i: nat | IsLastWith(pairs, key, i)
      ensures prefix + key in Family(prefix, pairs) && Family(prefix, pairs)[prefix + key] == pairs[i].value
    {
      FamilyLastValue(prefix, pairs, key, i);
    }
  }

  /** Labels that begin with `c`. */
  ghost predicate AllBegin(labels: Labels, c: char) {
    forall l :: l in labels ==> l != [] && l[0] == c
  }

  lemma FamilyBegins(prefix: string, pairs: seq<Pair>, c: char)
    requires prefix != [] && prefix[0] == c
    ensures AllBegin(Family(prefix, pairs), c)
  {
    FamilyKeys(prefix, pairs);
  }

  ghost predicate NoneBegins(labels: Labels, c: char) {
    forall l :: l in labels && l != [] ==> l[0] != c
  }

  ghost predicate Within(part: Labels, labels: Labels) {
    forall l :: l in part ==> l in labels && labels[l] == part[l]
  }

  /** `part` is what `labels` has under the initial `c`. */
  ghost predicate Part(part: Labels, labels: Labels, c: char) {
    && Within(part, labels)
    && (forall l :: l in labels && l != [] && l[0] == c ==> l in part)
  }

  lemma HoldsInWhole(labels: Labels, prefix: string, pairs: seq<Pair>)
    requires prefix != [] && Part(Family(prefix, pairs), labels, prefix[0])
    ensures HoldsLast(labels, prefix, pairs)
  {
    FamilyHoldsLast(prefix, pairs);
    forall key ensures prefix + key in labels <==> prefix + key in Family(prefix, pairs) {
      assert (prefix + key)[0] == prefix[0];
    }
  }

  /**
   For all inputs: the three fixed labels keep their values, each family holds exactly its own last values,
   and there are as many labels as the three fixed ones and the distinct normalised keys of each family.
   */
  lemma FamiliesAreSeparate(lower: Lowering, rec: Record)
    ensures var labels := LabelsOf(lower, rec);
      var dims, custom, tags :=
        DimensionPairs(lower, rec.dimensions), TagPairs(lower, rec.customTags), TagPairs(lower, rec.tags);
      && Within(FixedLabels(rec), labels)
      && HoldsLast(labels, DIMENSION, dims) && HoldsLast(labels, CUSTOM, custom) && HoldsLast(labels, TAG, tags)
      && |labels| == 3 + |KeysOf(dims)| + |KeysOf(custom)| + |KeysOf(tags)|
  {
    FamiliesHold(FixedLabels(rec), DimensionPairs(lower, rec.dimensions), TagPairs(lower, rec.customTags),
                 TagPairs(lower, rec.tags), rec);
  }

  lemma FamiliesCount(rec: Record, dims: seq<Pair>, custom: seq<Pair>, tags: seq<Pair>)
    ensures |FixedLabels(rec)| + |Family(DIMENSION, dims)| + |Family(CUSTOM, custom)| + |Family(TAG, tags)|
         == 3 + |KeysOf(dims)| + |KeysOf(custom)| + |KeysOf(tags)|
  {
    FixedCount(rec);
    FamilyCount(DIMENSION, dims);
    FamilyCount(CUSTOM, custom);
    FamilyCount(TAG, tags);
  }

  lemma FamiliesBegin(rec: Record, dims: seq<Pair>, custom: seq<Pair>, tags: seq<Pair>)
    ensures var fixed := FixedLabels(rec);
      && NoneBegins(fixed, 'd') && NoneBegins(fixed, 'c') && NoneBegins(fixed, 't')
      && AllBegin(Family(DIMENSION, dims), 'd') && AllBegin(Family(CUSTOM, custom), 'c')
      && AllBegin(Family(TAG, tags), 't')
  {
    FixedBegin(rec);
    FamilyBegins(DIMENSION, dims, 'd');
    FamilyBegins(CUSTOM, custom, 'c');
    FamilyBegins(TAG, tags, 't');
  }

  lemma FamiliesHold(fixed: Labels, dims: seq<Pair>, custom: seq<Pair>, tags: seq<Pair>, rec: Record)
    requires fixed == FixedLabels(rec)
    ensures var labels := fixed + Family(DIMENSION, dims) + Family(CUSTOM, custom) + Family(TAG, tags);
      && Within(fixed, labels)
      && HoldsLast(labels, DIMENSION, dims) && HoldsLast(labels, CUSTOM, custom) && HoldsLast(labels, TAG, tags)
      && |labels| == 3 + |KeysOf(dims)| + |KeysOf(custom)| + |KeysOf(tags)|
  {
    var labels := fixed + Family(DIMENSION, dims) + Family(CUSTOM, custom) + Family(TAG, tags);
    FamiliesBegin(rec, dims, custom, tags);
    FourParts(fixed, Family(DIMENSION, dims), Family(CUSTOM, custom), Family(TAG, tags));
    HoldsInWhole(labels, DIMENSION, dims);
    HoldsInWhole(labels, CUSTOM, custom);
    HoldsInWhole(labels, TAG, tags);
    FamiliesCount(rec, dims, custom, tags);
  }

  lemma OtherInitial(labels: Labels, c: char, d: char)
    requires AllBegin(labels, c) && c != d
    ensures NoneBegins(labels, d)
  {
  }

  lemma NoneInUnion(a: Labels, b: Labels, c: char)
    requires NoneBegins(a, c) && NoneBegins(b, c)
    ensures NoneBegins(a + b, c)
  {
  }

  /** Labels with a new initial are all that the whole has under it. */
  lemma PartAdded(labels: Labels, part: Labels, c: char)
    requires NoneBegins(labels, c) && AllBegin(part, c)
    ensures Part(part, labels + part, c) && |labels + part| == |labels| + |part|
  {
    UnionOfDisjoint(labels, part);
  }

  /** Labels with another initial do not disturb a part. */
  lemma PartStays(part: Labels, labels: Labels, more: Labels, c: char)
    requires Part(part, labels, c) && AllBegin(part, c) && NoneBegins(more, c)
    ensures Part(part, labels + more, c)
  {
  }

  lemma WithinStays(fixed: Labels, labels: Labels, more: Labels, c: char)
    requires Within(fixed, labels) && NoneBegins(fixed, c) && AllBegin(more, c)
    ensures Within(fixed, labels + more)
  {
  }

  /** The three fixed labels and three families, with nothing in common. */
  lemma FourParts(fixed: Labels, d: Labels, c: Labels, t: Labels)
    requires NoneBegins(fixed, 'd') && NoneBegins(fixed, 'c') && NoneBegins(fixed, 't')
    requires AllBegin(d, 'd') && AllBegin(c, 'c') && AllBegin(t, 't')
    ensures var labels := fixed + d + c + t;
      && |labels| == |fixed| + |d| + |c| + |t|
      && Within(fixed, labels) && Part(d, labels, 'd') && Part(c, labels, 'c') && Part(t, labels, 't')
  {
    OtherInitial(d, 'd', 'c');
    OtherInitial(d, 'd', 't');
    OtherInitial(c, 'c', 'd');
    OtherInitial(c, 'c', 't');
    OtherInitial(t, 't', 'd');
    OtherInitial(t, 't', 'c');
    NoneInUnion(fixed, d, 'c');
    NoneInUnion(fixed, d, 't');
    NoneInUnion(fixed + d, c, 't');
    PartAdded(fixed, d, 'd');
    PartAdded(fixed + d, c, 'c');
    PartAdded(fixed + d + c, t, 't');
    PartStays(d, fixed + d, c, 'd');
    PartStays(d, fixed + d + c, t, 'd');
    PartStays(c, fixed + d + c, t, 'c');
    WithinStays(fixed, fixed, d, 'd');
    WithinStays(fixed, fixed + d, c, 'c');
    WithinStays(fixed, fixed + d + c, t, 't');
  }

  lemma FixedBegin(rec: Record)
    ensures forall c :: c !in {'n', 'r', 'a'} ==> NoneBegins(FixedLabels(rec), c)
  {
    assert "name"[0] == 'n' && "region"[0] == 'r' && "account_id"[0] == 'a';
  }

  lemma FixedCount(rec: Record)
    ensures |FixedLabels(rec)| == 3
  {
    assert "name"[0] != "region"[0] && "name"[0] != "account_id"[0] && "region"[0] != "account_id"[0];
    assert FixedLabels(rec).Keys == {"name", "region", "account_id"};
  }

  lemma UnionOfDisjoint(a: Labels, b: Labels)
    requires a.Keys !! b.Keys
    ensures |a + b| == |a| + |b|
  {
    assert (a + b).Keys == a.Keys + b.Keys;
  }

  // ---- the labels, field by field ----

  ghost predicate Has(labels: Labels, key: string, value: string) {
    key in labels && labels[key] == value
  }

  /** The last dimension with its converted name. */
  ghost predicate LastDimension(lower: Lowering, dims: seq<Dimension>, i: nat) {
    i < |dims| && forall j :: i < j < |dims| ==> PromString(lower, dims[j].name) != PromString(lower, dims[i].name)
  }

  /** The last tag with its converted key. */
  ghost predicate LastTag(lower: Lowering, tags: seq<Tag>, i: nat) {
    i < |tags| && forall j :: i < j < |tags| ==> PromString(lower, tags[j].key) != PromString(lower, tags[i].key)
  }

  ghost predicate IsDimensionKey(lower: Lowering, dims: seq<Dimension>, key: string) {
    exists i :: 0 <= i < |dims| && key == "dimension_" + PromString(lower, dims[i].name)
  }

  ghost predicate IsTagKey(lower: Lowering, prefix: string, tags: seq<Tag>, key: string) {
    exists i :: 0 <= i < |tags| && key == prefix + PromString(lower, tags[i].key)
  }

  /** The three fixed labels, one label for each dimension, custom tag and tag, and nothing else. */
  ghost predicate AreLabelsOf(labels: Labels, lower: Lowering, rec: Record) {
    && Has(labels, "name", rec.id) && Has(labels, "region", rec.region) && Has(labels, "account_id", rec.accountId)
    && (forall i: nat :: LastDimension(lower, rec.dimensions, i) ==>
          Has(labels, "dimension_" + PromString(lower, rec.dimensions[i].name), rec.dimensions[i].value))
    && (forall i: nat :: LastTag(lower, rec.customTags, i) ==>
          Has(labels, "custom_tag_" + PromString(lower, rec.customTags[i].key), rec.customTags[i].value))
    && (forall i: nat :: LastTag(lower, rec.tags, i) ==>
          Has(labels, "tag_" + PromString(lower, rec.tags[i].key), rec.tags[i].value))
    && (forall key :: key in labels ==>
          || key in {"name", "region", "account_id"} || IsDimensionKey(lower, rec.dimensions, key)
          || IsTagKey(lower, "custom_tag_", rec.customTags, key) || IsTagKey(lower, "tag_", rec.tags, key))
  }

  lemma FamilyFromPairs(prefix: string, pairs: seq<Pair>, key: string)
    requires key in Family(prefix, pairs)
    ensures exists i :: 0 <= i < |pairs| && key == prefix + pairs[i].key
  {
    FamilyKeys(prefix, pairs);
    var name :| name in KeysOf(pairs) && prefix + name == key;
  }

  lemma DimensionLabels(lower: Lowering, dims: seq<Dimension>, labels: Labels)
    requires HoldsLast(labels, DIMENSION, DimensionPairs(lower, dims))
    ensures forall i: nat :: LastDimension(lower, dims, i) ==>
      Has(labels, "dimension_" + PromString(lower, dims[i].name), dims[i].value)
  {
    var pairs := DimensionPairs(lower, dims);
    forall i: nat | LastDimension(lower, dims, i)
      ensures Has(labels, "dimension_" + PromString(lower, dims[i].name), dims[i].value)
    {
      assert IsLastWith(pairs, pairs[i].key, i);
    }
  }

  lemma TagLabels(lower: Lowering, prefix: string, tags: seq<Tag>, labels: Labels)
    requires HoldsLast(labels, prefix, TagPairs(lower, tags))
    ensures forall i: nat :: LastTag(lower, tags, i) ==>
      Has(labels, prefix + PromString(lower, tags[i].key), tags[i].value)
  {
    var pairs := TagPairs(lower, tags);
    forall i: nat | LastTag(lower, tags, i)
      ensures Has(labels, prefix + PromString(lower, tags[i].key), tags[i].value)
    {
      assert IsLastWith(pairs, pairs[i].key, i);
    }
  }

  lemma KeyComesFrom(lower: Lowering, rec: Record, key: string)
    requires key in LabelsOf(lower, rec)
    ensures key in {"name", "region", "account_id"} || IsDimensionKey(lower, rec.dimensions, key)
         || IsTagKey(lower, "custom_tag_", rec.customTags, key) || IsTagKey(lower, "tag_", rec.tags, key)
  {
    var dims, custom, tags :=
      DimensionPairs(lower, rec.dimensions), TagPairs(lower, rec.customTags), TagPairs(lower, rec.tags);
    if key in Family(DIMENSION, dims) {
      FamilyFromPairs(DIMENSION, dims, key);
    } else if key in Family(CUSTOM, custom) {
      FamilyFromPairs(CUSTOM, custom, key);
    } else if key in Family(TAG, tags) {
      FamilyFromPairs(TAG, tags, key);
    }
  }

  lemma FixedAre(rec: Record, labels: Labels)
    requires Within(FixedLabels(rec), labels)
    ensures Has(labels, "name", rec.id) && Has(labels, "region", rec.region) && Has(labels, "account_id", rec.accountId)
  {
    assert "name"[0] != "region"[0] && "name"[0] != "account_id"[0] && "region"[0] != "account_id"[0];
    assert "name" in FixedLabels(rec) && "region" in FixedLabels(rec) && "account_id" in FixedLabels(rec);
  }

  lemma LabelsAre(lower: Lowering, rec: Record)
    ensures AreLabelsOf(LabelsOf(lower, rec), lower, rec)
  {
    var labels := LabelsOf(lower, rec);
    FamiliesAreSeparate(lower, rec);
    FixedAre(rec, labels);
    DimensionLabels(lower, rec.dimensions, labels);
    TagLabels(lower, CUSTOM, rec.customTags, labels);
    TagLabels(lower, TAG, rec.tags, labels);
    forall key | key in labels
      ensures key in {"name", "region", "account_id"} || IsDimensionKey(lower, rec.dimensions, key)
           || IsTagKey(lower, "custom_tag_", rec.customTags, key) || IsTagKey(lower, "tag_", rec.tags, key)
    {
      KeyComesFrom(lower, rec, key);
    }
  }

  // ---- samples ----

  datatype Value = NaN | Number(v: int)

  /** `timestamp` is `None` for Go's zero time. */
  datatype Sample = Sample(name: string, labels: Labels, value: Value, timestamp: Option<int>, includeTimestamp: bool)

  predicate WantsTimestamp(rec: Record) {
    rec.addTimestamp == Some(true)
  }

  /** A record without a datapoint is exported as NaN, unless it asks for the timestamp it does not have. */
  function SampleOf(lower: Lowering, rec: Record, statistic: string): Option<Sample> {
    var name := MetricName(lower, rec.namespace, rec.metric, statistic);
    match rec.point
    case Some(p) => Some(Sample(name, LabelsOf(lower, rec), Number(p), rec.timestamp, WantsTimestamp(rec)))
    case None => if WantsTimestamp(rec) then None else Some(Sample(name, LabelsOf(lower, rec), NaN, None, false))
  }

  /**
   The fields of a sample, one by one: a datapoint is shown with its timestamp, which is included only if the record
   asks for it; a missing one is shown as NaN without a timestamp.
   */
  ghost predicate IsSampleOf(sample: Sample, lower: Lowering, rec: Record, statistic: string) {
    && sample.name == MetricName(lower, rec.namespace, rec.metric, statistic)
    && AreLabelsOf(sample.labels, lower, rec)
    && (match rec.point
        case Some(p) => sample.value == Number(p) && sample.timestamp == rec.timestamp
        case None => sample.value == NaN && sample.timestamp == None)
    && (sample.includeTimestamp <==> rec.point.Some? && rec.addTimestamp == Some(true))
  }

  /** A datapoint is always exported; without one there is nothing to export if the timestamp is wanted. */
  lemma SampleIs(lower: Lowering, rec: Record, statistic: string)
    ensures SampleOf(lower, rec, statistic).None? <==> rec.point.None? && rec.addTimestamp == Some(true)
    ensures SampleOf(lower, rec, statistic).Some? ==>
      IsSampleOf(SampleOf(lower, rec, statistic).value, lower, rec, statistic)
  {
    LabelsAre(lower, rec);
  }

  ghost function StatisticSample(lower: Lowering, rec: Record): string -> seq<Sample> {
    (statistic: string) =>
      match SampleOf(lower, rec, statistic)
      case None => []
      case Some(sample) => [sample]
  }

  ghost function RecordSamples(lower: Lowering): Record -> seq<Sample> {
    (rec: Record) => FlatMap(StatisticSample(lower, rec), rec.statistics)
  }

  /** One sample for each statistic, in order, or none at all. */
  ghost predicate AreSamplesOf(samples: seq<Sample>, lower: Lowering, rec: Record) {
    if rec.point.None? && rec.addTimestamp == Some(true) then samples == []
    else
      && |samples| == |rec.statistics|
      && forall k :: 0 <= k < |samples| ==> IsSampleOf(samples[k], lower, rec, rec.statistics[k])
  }

  lemma StatisticsShown(lower: Lowering, rec: Record)
    requires rec.point.Some? || rec.addTimestamp != Some(true)
    ensures AreSamplesOf(RecordSamples(lower)(rec), lower, rec)
  {
    var n := |rec.statistics|;
    var samples := seq(n, k requires 0 <= k < n =>
      SampleIs(lower, rec, rec.statistics[k]); SampleOf(lower, rec, rec.statistics[k]).value);
    OneEach(StatisticSample(lower, rec), rec.statistics, samples);
    forall k | 0 <= k < n ensures IsSampleOf(samples[k], lower, rec, rec.statistics[k]) {
      SampleIs(lower, rec, rec.statistics[k]);
    }
  }

  lemma {:induction false} NothingShown(lower: Lowering, rec: Record, n: nat)
    requires n <= |rec.statistics| && rec.point.None? && rec.addTimestamp == Some(true)
    ensures FlatMap(StatisticSample(lower, rec), rec.statistics[..n]) == []
  {
    if n > 0 {
      NothingShown(lower, rec, n - 1);
      FlatMapNext(StatisticSample(lower, rec), rec.statistics, n - 1);
    }
  }

  lemma RecordSamplesAre(lower: Lowering, rec: Record)
    ensures AreSamplesOf(RecordSamples(lower)(rec), lower, rec)
  {
    if rec.point.None? && rec.addTimestamp == Some(true) {
      assert rec.statistics[..|rec.statistics|] == rec.statistics;
      NothingShown(lower, rec, |rec.statistics|);
    } else {
      StatisticsShown(lower, rec);
    }
  }

  /** Datapoint and timestamp are there together, as result matching leaves them. */
  ghost predicate Timed(cwd: seq<Record>) {
    forall i :: 0 <= i < |cwd| && cwd[i].point.Some? ==> cwd[i].timestamp.Some?
  }

  type LabelSets = map<string, set<string>>

  function SetOf(observed: LabelSets, name: string): set<string> {
    if name in observed then observed[name] else {}
  }

  /** All label keys seen with a name. */
  ghost function KeysSeen(samples: seq<Sample>, name: string): set<string> {
    set i, key | 0 <= i < |samples| && samples[i].name == name && key in samples[i].labels :: key
  }

  ghost predicate Observes(observed: LabelSets, samples: seq<Sample>) {
    forall name :: SetOf(observed, name) == KeysSeen(samples, name)
  }

  lemma KeysSeenNext(samples: seq<Sample>, sample: Sample, name: string)
    ensures KeysSeen(samples + [sample], name)
         == KeysSeen(samples, name) + if sample.name == name then sample.labels.Keys else {}
  {
    var more := samples + [sample];
    forall key | key in KeysSeen(samples, name) ensures key in KeysSeen(more, name) {
      var i :| 0 <= i < |samples| && samples[i].name == name && key in samples[i].labels;
      assert more[i] == samples[i];
    }
    if sample.name == name {
      forall key | key in sample.labels ensures key in KeysSeen(more, name) {
        assert more[|samples|] == sample;
      }
    }
  }

  /** A metric on the heap; the completion pass updates its label map in place. */
  class PrometheusMetric {
    const name: string
    var labels: Labels
    const value: Value
    const timestamp: Option<int>
    const includeTimestamp: bool

    constructor (sample: Sample)
      ensures Sample(name, labels, value, timestamp, includeTimestamp) == sample
    {
      name := sample.name;
      labels := sample.labels;
      value := sample.value;
      timestamp := sample.timestamp;
      includeTimestamp := sample.includeTimestamp;
    }

    ghost function View(): Sample
      reads this
    {
      Sample(name, labels, value, timestamp, includeTimestamp)
    }
  }

  ghost function ViewAll(metrics: seq<PrometheusMetric>): (r: seq<Sample>)
    reads metrics
    ensures |r| == |metrics|
  {
    seq(|metrics|, i requires 0 <= i < |metrics| reads metrics => metrics[i].View())
  }

  /** The metrics are distinct objects that show `samples`, and `observed` has all their keys. */
  ghost predicate Built(metrics: seq<PrometheusMetric>, observed: LabelSets, samples: seq<Sample>)
    reads metrics
  {
    Distinct(metrics) && ViewAll(metrics) == samples && Observes(observed, samples)
  }

  /** The loop over the label keys runs in an order that Go does not fix. */
  method RecordLabelsForMetric(name: string, labels: Labels, before: LabelSets) returns (observed: LabelSets)
    ensures observed == before[name := SetOf(before, name) + labels.Keys]
  {
    observed := before;
    if name !in observed {
      observed := observed[name := {}];
    }
    var rest := labels.Keys;
    while rest != {}
      invariant rest <= labels.Keys && name in observed
      invariant observed == before[name := observed[name]]
      invariant observed[name] == SetOf(before, name) + (labels.Keys - rest)
      decreases rest
    {
      var key :| key in rest;
      if key !in observed[name] {
        observed := observed[name := observed[name] + {key}];
      }
      rest := rest - {key};
    }
    assert labels.Keys - {} == labels.Keys;
  }

  method CreatePrometheusMetricsFromCwData(lower: Lowering, cwd: seq<Record>)
    returns (output: seq<PrometheusMetric>, observed: LabelSets)
    requires Timed(cwd)
    ensures forall i :: 0 <= i < |output| ==> fresh(output[i])
    ensures Built(output, observed, FlatMap(RecordSamples(lower), cwd))
  {
    output, observed := [], map[];
    for c := 0 to |cwd|
      invariant forall m :: m in output ==> fresh(m)
      invariant Built(output, observed, FlatMap(RecordSamples(lower), cwd[..c]))
    {
      ghost var before := FlatMap(RecordSamples(lower), cwd[..c]);
      FlatMapNext(RecordSamples(lower), cwd, c);
      output, observed := ExportRecord(lower, cwd[c], output, observed, before);
    }
    assert cwd[..|cwd|] == cwd;
    forall i | 0 <= i < |output| ensures fresh(output[i]) {
      assert output[i] in output;
    }
  }

  /** The loop over the statistics of one record. */
  method ExportRecord(
    lower: Lowering, c: Record, before: seq<PrometheusMetric>, seen: LabelSets, ghost samples: seq<Sample>)
    returns (output: seq<PrometheusMetric>, observed: LabelSets)
    requires c.point.Some? ==> c.timestamp.Some?
    requires Built(before, seen, samples)
    ensures forall m :: m in output ==> m in before || fresh(m)
    ensures Built(output, observed, samples + RecordSamples(lower)(c))
  {
    output, observed := before, seen;
    for s := 0 to |c.statistics|
      invariant forall m :: m in output ==> m in before || fresh(m)
      invariant Built(output, observed, SamplesSoFar(lower, c, samples, s))
    {
      output, observed := ExportNext(lower, c, c.statistics[s], output, observed, SamplesSoFar(lower, c, samples, s));
      NextSamples(lower, c, samples, s);
    }
  }

  /** `samples` and what the first `n` statistics of a record give. */
  ghost function SamplesSoFar(lower: Lowering, c: Record, samples: seq<Sample>, n: nat): (r: seq<Sample>)
    requires n <= |c.statistics|
    ensures n == 0 ==> r == samples
    ensures n == |c.statistics| ==> r == samples + RecordSamples(lower)(c)
  {
    assert c.statistics[..|c.statistics|] == c.statistics;
    samples + FlatMap(StatisticSample(lower, c), c.statistics[..n])
  }

  lemma NextSamples(lower: Lowering, c: Record, samples: seq<Sample>, n: nat)
    requires n < |c.statistics|
    ensures SamplesSoFar(lower, c, samples, n + 1)
         == SamplesSoFar(lower, c, samples, n) + StatisticSample(lower, c)(c.statistics[n])
  {
    FlatMapNext(StatisticSample(lower, c), c.statistics, n);
  }

  /** One statistic gives one metric or none. */
  method ExportNext(
    lower: Lowering, c: Record, statistic: string,
    before: seq<PrometheusMetric>, seen: LabelSets, ghost samples: seq<Sample>)
    returns (output: seq<PrometheusMetric>, observed: LabelSets)
    requires c.point.Some? ==> c.timestamp.Some?
    requires Built(before, seen, samples)
    ensures forall m :: m in output ==> m in before || fresh(m)
    ensures Built(output, observed, samples + StatisticSample(lower, c)(statistic))
  {
    output, observed := before, seen;
    var sample := ExportStatistic(lower, c, statistic);
    if sample.Some? {
      output, observed := AddMetric(sample.value, output, observed, samples);
    } else {
      assert samples + [] == samples;
    }
  }

  /** The body of the inner loop up to the point where a datapoint is or is not there. */
  method ExportStatistic(lower: Lowering, c: Record, statistic: string) returns (sample: Option<Sample>)
    requires c.point.Some? ==> c.timestamp.Some?
    ensures sample == SampleOf(lower, c, statistic)
    ensures sample.None? <==> c.point.None? && c.addTimestamp == Some(true)
    ensures sample.Some? ==> IsSampleOf(sample.value, lower, c, statistic)
  {
    SampleIs(lower, c, statistic);
    var includeTimestamp := false;
    if c.addTimestamp.Some? {
      includeTimestamp := c.addTimestamp.value;
    }
    var exported: Option<Value> := None;
    var timestamp: Option<int> := None;
    if c.point.Some? {
      exported, timestamp := Some(Number(c.point.value)), c.timestamp;
    }
    if exported.None? && (c.addTimestamp.None? || !c.addTimestamp.value) {
      exported := Some(NaN);
      includeTimestamp := false;
    }
    var promNs := ToLower(lower, c.namespace);
    if !HasPrefix(promNs, "aws") {
      promNs := "cpe_aws_" + promNs;
    }
    var name := PromString(lower, promNs) + "_" + ToLower(lower, PromString(lower, c.metric))
      + "_" + ToLower(lower, PromString(lower, statistic));
    if exported.None? {
      return None;
    }
    var labels := CreatePrometheusLabels(lower, c);
    sample := Some(Sample(name, labels, exported.value, timestamp, includeTimestamp));
  }

  method AddMetric(sample: Sample, before: seq<PrometheusMetric>, seen: LabelSets, ghost samples: seq<Sample>)
    returns (output: seq<PrometheusMetric>, observed: LabelSets)
    requires Built(before, seen, samples)
    ensures forall m :: m in output ==> m in before || fresh(m)
    ensures Built(output, observed, samples + [sample])
  {
    observed := RecordLabelsForMetric(sample.name, sample.labels, seen);
    var p := new PrometheusMetric(sample);
    output := before + [p];
    assert ViewAll(output) == samples + [sample];
    forall name ensures SetOf(observed, name) == KeysSeen(samples + [sample], name) {
      KeysSeenNext(samples, sample, name);
    }
  }

  // ---- completion ----

  /** The labels with an empty value for every observed key they lack. */
  function CompleteLabels(labels: Labels, keys: set<string>): (r: Labels)
    ensures r.Keys == labels.Keys + keys
  {
    labels + map key | key in keys && key !in labels :: ""
  }

  ghost function Completed(samples: seq<Sample>): (r: seq<Sample>)
    ensures |r| == |samples|
  {
    seq(|samples|, i requires 0 <= i < |samples| =>
      samples[i].(labels := CompleteLabels(samples[i].labels, KeysSeen(samples, samples[i].name))))
  }

  method EnsureLabelConsistencyForMetrics(metrics: seq<PrometheusMetric>, observed: LabelSets)
    modifies metrics
    ensures forall i :: 0 <= i < |metrics| ==>
      metrics[i].labels == CompleteLabels(old(metrics[i].labels), SetOf(observed, metrics[i].name))
  {
    for i := 0 to |metrics|
      invariant forall m :: m in metrics ==>
        m.labels == if m in metrics[..i] then CompleteLabels(old(m.labels), SetOf(observed, m.name)) else old(m.labels)
    {
      CompleteMetric(metrics[i], SetOf(observed, metrics[i].name));
      assert metrics[..i + 1] == metrics[..i] + [metrics[i]];
    }
    assert metrics[..|metrics|] == metrics;
  }

  method CompleteMetric(m: PrometheusMetric, keys: set<string>)
    modifies m
    ensures m.labels == CompleteLabels(old(m.labels), keys)
  {
    var rest := keys;
    while rest != {}
      invariant rest <= keys
      invariant m.labels == CompleteLabels(old(m.labels), keys - rest)
      decreases rest
    {
      var key :| key in rest;
      if key !in m.labels {
        m.labels := m.labels[key := ""];
      }
      rest := rest - {key};
    }
    assert keys - {} == keys;
  }

  /** Scrape without its data collection: samples are built, then completed in place. */
  method ScrapeMetrics(lower: Lowering, cwd: seq<Record>) returns (metrics: seq<PrometheusMetric>)
    requires Timed(cwd)
    ensures forall i :: 0 <= i < |metrics| ==> fresh(metrics[i])
    ensures ViewAll(metrics) == Completed(FlatMap(RecordSamples(lower), cwd))
  {
    var observed;
    metrics, observed := CreatePrometheusMetricsFromCwData(lower, cwd);
    CompleteAll(metrics, observed, FlatMap(RecordSamples(lower), cwd));
  }

  method CompleteAll(metrics: seq<PrometheusMetric>, observed: LabelSets, ghost samples: seq<Sample>)
    requires Built(metrics, observed, samples)
    modifies metrics
    ensures ViewAll(metrics) == Completed(samples)
  {
    assert forall i :: 0 <= i < |metrics| ==> metrics[i].View() == samples[i];
    EnsureLabelConsistencyForMetrics(metrics, observed);
    forall i | 0 <= i < |metrics| ensures metrics[i].View() == Completed(samples)[i] {
      assert SetOf(observed, metrics[i].name) == KeysSeen(samples, samples[i].name);
    }
  }

  /** After completion two samples of one name have the same keys: all keys any sample of that name had before. */
  lemma CompletedAgree(samples: seq<Sample>, i: nat, j: nat)
    requires i < |samples| && j < |samples| && samples[i].name == samples[j].name
    ensures Completed(samples)[i].labels.Keys == Completed(samples)[j].labels.Keys == KeysSeen(samples, samples[i].name)
  {
    assert samples[i].labels.Keys <= KeysSeen(samples, samples[i].name);
    assert samples[j].labels.Keys <= KeysSeen(samples, samples[j].name);
  }

  /** No value is changed, every added value is empty, and nothing but labels is touched. */
  lemma CompletedKeeps(samples: seq<Sample>, i: nat, key: string)
    requires i < |samples|
    ensures Completed(samples)[i].(labels := samples[i].labels) == samples[i]
    ensures key in samples[i].labels ==>
      key in Completed(samples)[i].labels && Completed(samples)[i].labels[key] == samples[i].labels[key]
    ensures key in Completed(samples)[i].labels && key !in samples[i].labels ==> Completed(samples)[i].labels[key] == ""
  {
  }

  lemma CompletedSeesSame(samples: seq<Sample>, name: string)
    ensures KeysSeen(Completed(samples), name) == KeysSeen(samples, name)
  {
    var done := Completed(samples);
    forall key | key in KeysSeen(done, name) ensures key in KeysSeen(samples, name) {
      var i :| 0 <= i < |done| && done[i].name == name && key in done[i].labels;
      assert samples[i].name == name;
    }
    forall key | key in KeysSeen(samples, name) ensures key in KeysSeen(done, name) {
      var i :| 0 <= i < |samples| && samples[i].name == name && key in samples[i].labels;
      assert done[i].name == name && key in done[i].labels;
    }
  }

  /** A second pass changes nothing. */
  lemma CompletionIsIdempotent(samples: seq<Sample>)
    ensures Completed(Completed(samples)) == Completed(samples)
  {
    var once := Completed(samples);
    forall i | 0 <= i < |once| ensures Completed(once)[i] == once[i] {
      CompletedSeesSame(samples, once[i].name);
      assert CompleteLabels(once[i].labels, KeysSeen(samples, once[i].name)) == once[i].labels;
    }
  }
}
