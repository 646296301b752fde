/** Tagged resources: the tag filter, the tags put on metrics, and their discovery page by page. */
module Resources {
  import opened Collections
  import ForkJoin

  datatype Tag = Tag(key: string, value: string)

  /** `arn`, the job type, the region, and the tags the tagging service reported. */
  datatype Resource = Resource(arn: string, namespace: string, region: string, tags: seq<Tag>)

  /** One entry of a page of the tagging service. */
  datatype Mapping = Mapping(arn: string, tags: seq<Tag>)

  /** Does a compiled filter value match a tag value? The regular expression engine is a parameter. */
  type Matcher = (string, string) -> bool

  predicate Hit(matches: Matcher, tag: Tag, filter: Tag) {
    tag.key == filter.key && matches(filter.value, tag.value)
  }

  predicate DistinctKeys(tags: seq<Tag>) {
    forall i, j :: 0 <= i < j < |tags| ==> tags[i].key != tags[j].key
  }

  /** Some tag has the filter's key and a value that the filter's expression matches. */
  predicate Satisfied(matches: Matcher, tags: seq<Tag>, filter: Tag) {
    exists i :: 0 <= i < |tags| && tags[i].key == filter.key && matches(filter.value, tags[i].value)
  }

  ghost predicate AllSatisfied(matches: Matcher, tags: seq<Tag>, filters: seq<Tag>) {
    forall f :: f in filters ==> Satisfied(matches, tags, f)
  }

  // ---- counting ----

  /** Hits of one tag among the filters. */
  function TagHits(matches: Matcher, tag: Tag, filters: seq<Tag>): nat {
    if filters == [] then 0
    else
      var n := |filters| - 1;
      TagHits(matches, tag, filters[..n]) + if Hit(matches, tag, filters[n]) then 1 else 0
  }

  /** What the nested loops count: tag after tag. */
  function Hits(matches: Matcher, tags: seq<Tag>, filters: seq<Tag>): nat {
    if tags == [] then 0
    else
      var n := |tags| - 1;
      Hits(matches, tags[..n], filters) + TagHits(matches, tags[n], filters)
  }

  /** Hits of one filter among the tags. */
  function FilterHits(matches: Matcher, tags: seq<Tag>, filter: Tag): nat {
    if tags == [] then 0
    else
      var n := |tags| - 1;
      FilterHits(matches, tags[..n], filter) + if Hit(matches, tags[n], filter) then 1 else 0
  }

  /** The double sum the other way round: the last filter contributes its column. */
  lemma {:induction false} HitsByFilter(matches: Matcher, tags: seq<Tag>, filters: seq<Tag>)
    requires filters != []
    ensures var n := |filters| - 1;
      Hits(matches, tags, filters) == Hits(matches, tags, filters[..n]) + FilterHits(matches, tags, filters[n])
  {
    if tags != [] {
      HitsByFilter(matches, tags[..|tags| - 1], filters);
    }
  }

  lemma {:induction false} NoFilterNoHit(matches: Matcher, tags: seq<Tag>)
    ensures Hits(matches, tags, []) == 0
  {
    if tags != [] {
      NoFilterNoHit(matches, tags[..|tags| - 1]);
    }
  }

  /** With distinct keys a filter is hit once or not at all. */
  lemma {:induction false} FilterHitOnce(matches: Matcher, tags: seq<Tag>, filter: Tag)
    requires DistinctKeys(tags)
    ensures FilterHits(matches, tags, filter) == if Satisfied(matches, tags, filter) then 1 else 0
  {
    if tags != [] {
      var n := |tags| - 1;
      FilterHitOnce(matches, tags[..n], filter);
      if Hit(matches, tags[n], filter) {
        assert forall i :: 0 <= i < n ==> tags[i].key != filter.key;
      } else if Satisfied(matches, tags, filter) {
        var i :| 0 <= i < |tags| && Hit(matches, tags[i], filter);
        assert Hit(matches, tags[..n][i], filter);
      }
    }
  }

  /** The count reaches the number of filters exactly when every filter is satisfied. */
  lemma {:induction false} CountIsUniversal(matches: Matcher, tags: seq<Tag>, filters: seq<Tag>)
    requires DistinctKeys(tags)
    ensures Hits(matches, tags, filters) <= |filters|
    ensures Hits(matches, tags, filters) == |filters|
       <==> AllSatisfied(matches, tags, filters)
  {
    if filters == [] {
      NoFilterNoHit(matches, tags);
    } else {
      var n := |filters| - 1;
      HitsByFilter(matches, tags, filters);
      FilterHitOnce(matches, tags, filters[n]);
      CountIsUniversal(matches, tags, filters[..n]);
      assert filters == filters[..n] + [filters[n]];
    }
  }

  lemma {:induction false} HitsAreSatisfaction(matches: Matcher, tags: seq<Tag>, filter: Tag)
    ensures FilterHits(matches, tags, filter) > 0 <==> Satisfied(matches, tags, filter)
  {
    if tags != [] {
      var n := |tags| - 1;
      HitsAreSatisfaction(matches, tags[..n], filter);
      if Satisfied(matches, tags, filter) && !Hit(matches, tags[n], filter) {
        var i :| 0 <= i < |tags| && Hit(matches, tags[i], filter);
        assert Hit(matches, tags[..n][i], filter);
      }
    }
  }

  lemma {:induction false} TwoHits(matches: Matcher, tags: seq<Tag>, filter: Tag, i: nat, j: nat)
    requires i < j < |tags| && Hit(matches, tags[i], filter) && Hit(matches, tags[j], filter)
    ensures FilterHits(matches, tags, filter) >= 2
  {
    var n := |tags| - 1;
    if j < n {
      TwoHits(matches, tags[..n], filter, i, j);
    } else {
      assert Hit(matches, tags[..n][i], filter);
      HitsAreSatisfaction(matches, tags[..n], filter);
    }
  }

  /** A key that no tag has. */
  function UnusedKey(tags: seq<Tag>): (key: string)
    ensures forall i :: 0 <= i < |tags| ==> |tags[i].key| < |key|
  {
    if tags == [] then "x" else UnusedKey(tags[..|tags| - 1]) + tags[|tags| - 1].key + "x"
  }

  /** A filter and `n` copies of one that nothing satisfies. */
  function Padded(filter: Tag, other: Tag, n: nat): (filters: seq<Tag>)
    ensures |filters| == n + 1 && filters[0] == filter && (n > 0 ==> other in filters)
  {
    if n == 0 then [filter] else Padded(filter, other, n - 1) + [other]
  }

  lemma {:induction false} PaddedHits(matches: Matcher, tags: seq<Tag>, filter: Tag, other: Tag, n: nat)
    requires FilterHits(matches, tags, other) == 0
    ensures Hits(matches, tags, Padded(filter, other, n)) == FilterHits(matches, tags, filter)
  {
    var filters := Padded(filter, other, n);
    HitsByFilter(matches, tags, filters);
    if n == 0 {
      assert filters[..0] == [];
      NoFilterNoHit(matches, tags);
    } else {
      assert filters[..n] == Padded(filter, other, n - 1);
      PaddedHits(matches, tags, filter, other, n - 1);
    }
  }

  lemma UnusedKeyHitsNothing(matches: Matcher, tags: seq<Tag>)
    ensures FilterHits(matches, tags, Tag(UnusedKey(tags), "")) == 0
    ensures !Satisfied(matches, tags, Tag(UnusedKey(tags), ""))
  {
    HitsAreSatisfaction(matches, tags, Tag(UnusedKey(tags), ""));
  }

  /**
   Whenever a key is repeated the count errs in both directions: there are filters that it refuses although all are
   satisfied, and filters that it accepts although one is not. (The empty expression matches every value.)
   */
  lemma RepeatedKeyMiscounts(matches: Matcher, tags: seq<Tag>) returns (refused: seq<Tag>, accepted: seq<Tag>)
    requires (forall v :: matches("", v)) && !DistinctKeys(tags)
    ensures Hits(matches, tags, refused) != |refused| && AllSatisfied(matches, tags, refused)
    ensures Hits(matches, tags, accepted) == |accepted| && !AllSatisfied(matches, tags, accepted)
  {
    var i: nat, j: nat :| i < j < |tags| && tags[i].key == tags[j].key;
    var filter, other := Tag(tags[i].key, ""), Tag(UnusedKey(tags), "");
    var hits := FilterHits(matches, tags, filter);
    TwoHits(matches, tags, filter, i, j);
    HitsAreSatisfaction(matches, tags, filter);
    UnusedKeyHitsNothing(matches, tags);
    refused := Padded(filter, other, 0);
    PaddedHits(matches, tags, filter, other, 0);
    assert refused == [filter];
    accepted := Padded(filter, other, hits - 1);
    PaddedHits(matches, tags, filter, other, hits - 1);
    assert other in accepted;
  }

  /** The count is the universal test, for all lists of filters, if and only if no key is repeated. */
  lemma CountIsUniversalIffKeysDistinct(matches: Matcher, tags: seq<Tag>)
    requires forall v :: matches("", v)
    ensures (forall filters :: Hits(matches, tags, filters) == |filters| <==> AllSatisfied(matches, tags, filters))
       <==> DistinctKeys(tags)
  {
    if DistinctKeys(tags) {
      forall filters ensures Hits(matches, tags, filters) == |filters| <==> AllSatisfied(matches, tags, filters) {
        CountIsUniversal(matches, tags, filters);
      }
    } else {
      var refused, accepted := RepeatedKeyMiscounts(matches, tags);
    }
  }

  /** The tag and the filter have the same key, and the expression matches the value. */
  ghost predicate PairHits(matches: Matcher, tags: seq<Tag>, filters: seq<Tag>, i: nat, j: nat) {
    i < |tags| && j < |filters| && tags[i].key == filters[j].key && matches(filters[j].value, tags[i].value)
  }

  /** The pairs of a tag and a filter that hit, by position. */
  ghost function HitPairs(matches: Matcher, tags: seq<Tag>, filters: seq<Tag>): set<(nat, nat)> {
    set i: nat, j: nat | i < |tags| && j < |filters| && PairHits(matches, tags, filters, i, j) :: (i, j)
  }

  ghost function Row(matches: Matcher, tags: seq<Tag>, filters: seq<Tag>, i: nat, n: nat): set<(nat, nat)> {
    set j: nat | j < n && PairHits(matches, tags, filters, i, j) :: (i, j)
  }

  ghost function Rows(matches: Matcher, tags: seq<Tag>, filters: seq<Tag>, n: nat): set<(nat, nat)> {
    set i: nat, j: nat | i < n && j < |filters| && PairHits(matches, tags, filters, i, j) :: (i, j)
  }

  lemma RowNext(matches: Matcher, tags: seq<Tag>, filters: seq<Tag>, i: nat, n: nat)
    ensures |Row(matches, tags, filters, i, n + 1)|
         == |Row(matches, tags, filters, i, n)| + if PairHits(matches, tags, filters, i, n) then 1 else 0
  {
    var before := Row(matches, tags, filters, i, n);
    if PairHits(matches, tags, filters, i, n) {
      assert Row(matches, tags, filters, i, n + 1) == before + {(i, n)};
    } else {
      assert Row(matches, tags, filters, i, n + 1) == before;
    }
  }

  lemma RowsNext(matches: Matcher, tags: seq<Tag>, filters: seq<Tag>, n: nat)
    ensures |Rows(matches, tags, filters, n + 1)|
         == |Rows(matches, tags, filters, n)| + |Row(matches, tags, filters, n, |filters|)|
  {
    var before, here := Rows(matches, tags, filters, n), Row(matches, tags, filters, n, |filters|);
    assert Rows(matches, tags, filters, n + 1) == before + here;
    assert before !! here;
  }

  lemma {:induction false} TagHitsAreRow(matches: Matcher, tags: seq<Tag>, i: nat, filters: seq<Tag>, n: nat)
    requires i < |tags| && n <= |filters|
    ensures TagHits(matches, tags[i], filters[..n]) == |Row(matches, tags, filters, i, n)|
  {
    if n == 0 {
      assert Row(matches, tags, filters, i, 0) == {};
    } else {
      TagHitsAreRow(matches, tags, i, filters, n - 1);
      assert filters[..n][..n - 1] == filters[..n - 1];
      RowNext(matches, tags, filters, i, n - 1);
    }
  }

  lemma {:induction false} HitsAreRows(matches: Matcher, tags: seq<Tag>, filters: seq<Tag>, n: nat)
    requires n <= |tags|
    ensures Hits(matches, tags[..n], filters) == |Rows(matches, tags, filters, n)|
  {
    if n == 0 {
      assert Rows(matches, tags, filters, 0) == {};
    } else {
      HitsAreRows(matches, tags, filters, n - 1);
      TagHitsAreRow(matches, tags, n - 1, filters, |filters|);
      assert tags[..n][..n - 1] == tags[..n - 1] && filters[..|filters|] == filters;
      RowsNext(matches, tags, filters, n - 1);
    }
  }

  /** The nested loops count the pairs that hit. */
  lemma HitsArePairs(matches: Matcher, tags: seq<Tag>, filters: seq<Tag>)
    ensures Hits(matches, tags, filters) == |HitPairs(matches, tags, filters)|
  {
    HitsAreRows(matches, tags, filters, |tags|);
    assert tags[..|tags|] == tags;
    assert HitPairs(matches, tags, filters) == Rows(matches, tags, filters, |tags|);
  }

  method FilterThroughTags(matches: Matcher, tags: seq<Tag>, filters: seq<Tag>) returns (ok: bool)
    ensures ok <==> Hits(matches, tags, filters) == |filters|
    ensures ok <==> |HitPairs(matches, tags, filters)| == |filters|
    ensures DistinctKeys(tags) ==> (ok <==> AllSatisfied(matches, tags, filters))
  {
    var tagMatches := 0;
    for i := 0 to |tags|
      invariant tagMatches == Hits(matches, tags[..i], filters)
    {
      assert tags[..i + 1][..i] == tags[..i];
      for j := 0 to |filters|
        invariant tagMatches == Hits(matches, tags[..i], filters) + TagHits(matches, tags[i], filters[..j])
      {
        assert filters[..j + 1][..j] == filters[..j];
        if tags[i].key == filters[j].key {
          if matches(filters[j].value, tags[i].value) {
            tagMatches := tagMatches + 1;
          }
        }
      }
      assert filters[..|filters|] == filters;
    }
    assert tags[..|tags|] == tags;
    if DistinctKeys(tags) {
      CountIsUniversal(matches, tags, filters);
    }
    HitsArePairs(matches, tags, filters);
    ok := tagMatches == |filters|;
  }

  // ---- the tags of a metric ----

  /** The value of the first tag with this key; the empty string when there is none. */
  function TagValue(tags: seq<Tag>, key: string): string {
    if tags == [] then "" else if tags[0].key == key then tags[0].value else TagValue(tags[1..], key)
  }

  /** The exported tags, in the configured order. */
  function MetricTagsOf(tags: seq<Tag>, names: seq<string>): (r: seq<Tag>)
    ensures |r| == |names|
  {
    seq(|names|, i requires 0 <= i < |names| => Tag(names[i], TagValue(tags, names[i])))
  }

  lemma {:induction false} TagValueIsFirst(tags: seq<Tag>, key: string, i: nat)
    requires i < |tags| && tags[i].key == key && forall j :: 0 <= j < i ==> tags[j].key != key
    ensures TagValue(tags, key) == tags[i].value
  {
    if i > 0 {
      TagValueIsFirst(tags[1..], key, i - 1);
    }
  }

  lemma {:induction false} TagValueOfNone(tags: seq<Tag>, key: string)
    requires forall j :: 0 <= j < |tags| ==> tags[j].key != key
    ensures TagValue(tags, key) == ""
  {
    if tags != [] {
      TagValueOfNone(tags[1..], key);
    }
  }

  /** The value of the first tag with the key, or the empty string when no tag has it. */
  ghost predicate IsValueOf(tags: seq<Tag>, key: string, value: string) {
    if forall i :: 0 <= i < |tags| ==> tags[i].key != key then value == ""
    else exists i :: 0 <= i < |tags| && tags[i].key == key && tags[i].value == value
           && forall j :: 0 <= j < i ==> tags[j].key != key
  }

  /** One tag a name, in order: the name as the key, and the resource's value for it. */
  ghost predicate AreMetricTags(out: seq<Tag>, tags: seq<Tag>, names: seq<string>) {
    && |out| == |names|
    && (forall k :: 0 <= k < |names| ==> out[k].key == names[k] && IsValueOf(tags, names[k], out[k].value))
  }

  lemma {:induction false} TagValueIsValue(tags: seq<Tag>, key: string)
    ensures IsValueOf(tags, key, TagValue(tags, key))
  {
    if forall i :: 0 <= i < |tags| ==> tags[i].key != key {
      TagValueOfNone(tags, key);
    } else {
      var i := FirstWithKey(tags, key);
      TagValueIsFirst(tags, key, i);
    }
  }

  lemma FirstWithKey(tags: seq<Tag>, key: string) returns (i: nat)
    requires exists j :: 0 <= j < |tags| && tags[j].key == key
    ensures i < |tags| && tags[i].key == key && forall j :: 0 <= j < i ==> tags[j].key != key
  {
    i := 0;
    while tags[i].key != key
      invariant i < |tags| && forall j :: 0 <= j < i ==> tags[j].key != key
      decreases |tags| - i
    {
      i := i + 1;
    }
  }

  lemma MetricTagsAre(tags: seq<Tag>, names: seq<string>)
    ensures AreMetricTags(MetricTagsOf(tags, names), tags, names)
  {
    forall k | 0 <= k < |names| ensures IsValueOf(tags, names[k], MetricTagsOf(tags, names)[k].value) {
      TagValueIsValue(tags, names[k]);
    }
  }

  method MetricTags(tags: seq<Tag>, names: seq<string>) returns (out: seq<Tag>)
    ensures out == MetricTagsOf(tags, names)
    ensures AreMetricTags(out, tags, names)
  {
    MetricTagsAre(tags, names);
    out := [];
    for n := 0 to |names|
      invariant |out| == n
      invariant forall k :: 0 <= k < n ==> out[k] == Tag(names[k], TagValue(tags, names[k]))
    {
      var tag := Tag(names[n], "");
      var i := 0;
      while i < |tags|
        invariant 0 <= i <= |tags|
        invariant tag == Tag(names[n], "")
        invariant forall j :: 0 <= j < i ==> tags[j].key != names[n]
      {
        if tags[i].key == names[n] {
          tag := tag.(value := tags[i].value);
          break;
        }
        i := i + 1;
      }
      if i < |tags| {
        TagValueIsFirst(tags, names[n], i);
      } else {
        TagValueOfNone(tags, names[n]);
      }
      out := out + [tag];
    }
  }

  // ---- discovery, one worker a page ----

  /** What a job asks for: the search tags, its type and the region. */
  datatype Search = Search(matches: Matcher, tags: seq<Tag>, namespace: string, region: string)

  ghost function ResourceOf(search: Search, m: Mapping): Resource {
    Resource(m.arn, search.namespace, search.region, m.tags)
  }

  /** A mapping gives its resource when it passes the filter, and nothing otherwise. */
  ghost function KeepTagged(search: Search): Mapping -> seq<Resource> {
    (m: Mapping) => if Hits(search.matches, m.tags, search.tags) == |search.tags| then [ResourceOf(search, m)] else []
  }

  ghost function PageWork(search: Search, pages: seq<seq<Mapping>>): (lists: seq<seq<Resource>>)
    ensures |lists| == |pages|
  {
    seq(|pages|, i requires 0 <= i < |pages| => FlatMap(KeepTagged(search), pages[i]))
  }

  /** The sequential answer: the kept resources in the order of the pages. */
  ghost function TaggedInOrder(search: Search, pages: seq<seq<Mapping>>): seq<Resource> {
    FlatMap(KeepTagged(search), Concat(pages))
  }

  /** The tags are copied one by one. */
  method CopyMapping(search: Search, m: Mapping) returns (resource: Resource)
    ensures resource == ResourceOf(search, m)
  {
    resource := Resource(m.arn, search.namespace, search.region, []);
    for t := 0 to |m.tags|
      invariant resource == Resource(m.arn, search.namespace, search.region, m.tags[..t])
    {
      resource := resource.(tags := resource.tags + [m.tags[t]]);
    }
    assert m.tags[..|m.tags|] == m.tags;
  }

  /** The resource has the mapping's ARN and tags, and the job's type and region. */
  ghost predicate IsResourceOf(r: Resource, m: Mapping, search: Search) {
    r.arn == m.arn && r.tags == m.tags && r.namespace == search.namespace && r.region == search.region
  }

  /** As many hits as filters; with distinct keys, the filters are all satisfied. */
  ghost predicate Passes(m: Mapping, search: Search) {
    |HitPairs(search.matches, m.tags, search.tags)| == |search.tags|
  }

  /** `found` are the resources of the mappings at the positions `at`: of all that pass, in order. */
  ghost predicate Selects(search: Search, page: seq<Mapping>, found: seq<Resource>, at: seq<nat>) {
    && |at| == |found|
    && (forall k :: 0 <= k < |at| ==> at[k] < |page| && IsResourceOf(found[k], page[at[k]], search))
    && (forall j, k :: 0 <= j < k < |at| ==> at[j] < at[k])
    && (forall i: nat :: i < |page| ==> (i in at <==> Passes(page[i], search)))
  }

  lemma SelectsNext(search: Search, page: seq<Mapping>, m: Mapping, found: seq<Resource>, at: seq<nat>)
    requires Selects(search, page, found, at)
    ensures Passes(m, search) ==> Selects(search, page + [m], found + [ResourceOf(search, m)], at + [|page|])
    ensures !Passes(m, search) ==> Selects(search, page + [m], found, at)
  {
    var more := page + [m];
    assert forall i :: 0 <= i < |page| ==> more[i] == page[i];
    assert forall k :: 0 <= k < |at| ==> at[k] < |page|;
    forall i: nat | i < |more|
      ensures Passes(m, search) ==> (i in at + [|page|] <==> Passes(more[i], search))
      ensures !Passes(m, search) ==> (i in at <==> Passes(more[i], search))
    {
      if i < |page| {
        assert i in at + [|page|] <==> i in at;
      } else {
        assert i !in at && (at + [|page|])[|at|] == i;
      }
    }
  }

  lemma {:induction false} KeptAreSelected(search: Search, page: seq<Mapping>) returns (at: seq<nat>)
    ensures Selects(search, page, FlatMap(KeepTagged(search), page), at)
  {
    at := [];
    if page != [] {
      var n := |page| - 1;
      at := KeptAreSelected(search, page[..n]);
      HitsArePairs(search.matches, page[n].tags, search.tags);
      SelectsNext(search, page[..n], page[n], FlatMap(KeepTagged(search), page[..n]), at);
      assert page == page[..n] + [page[n]];
      at := if Passes(page[n], search) then at + [n] else at;
    }
  }

  /** What the worker of one page appends. */
  method PageWorker(search: Search, page: seq<Mapping>) returns (appended: seq<Resource>)
    ensures appended == FlatMap(KeepTagged(search), page)
    ensures exists at :: Selects(search, page, appended, at)
  {
    ghost var at := KeptAreSelected(search, page);
    appended := [];
    for i := 0 to |page|
      invariant appended == FlatMap(KeepTagged(search), page[..i])
    {
      var resource := CopyMapping(search, page[i]);
      var kept := FilterThroughTags(search.matches, resource.tags, search.tags);
      if kept {
        appended := appended + [resource];
      }
      assert page[..i + 1][..i] == page[..i];
    }
    assert page[..|page|] == page;
  }

  /** Whatever the interleaving of the page workers, the same resources are found. */
  lemma TaggedUnderAnySchedule(search: Search, pages: seq<seq<Mapping>>, schedule: seq<ForkJoin.Action>)
    requires ForkJoin.Complete(ForkJoin.Flat(ForkJoin.OneByOne(PageWork(search, pages))), schedule)
    ensures Permutation(ForkJoin.Output(ForkJoin.Flat(ForkJoin.OneByOne(PageWork(search, pages))), schedule),
                        TaggedInOrder(search, pages))
  {
    ForkJoin.OneByOneConservation(PageWork(search, pages), schedule);
    FlatMapConcat(KeepTagged(search), pages);
  }
}
