/** The concurrent join of the full metric list with the dimension index. */
module Filter {
  import opened Collections
  import opened Batching
  import opened Index
  import ForkJoin

  datatype Metric = Metric(name: string, namespace: string, dims: seq<Dimension>)

  const CHUNK := 50

  ghost function CopyOnHit(m: Metric, value: string): Entry -> seq<Metric> {
    (e: Entry) => if e.dimVal == value then [m] else []
  }

  ghost function CopiesFor(index: DimensionIndex, m: Metric): Dimension -> seq<Metric> {
    (d: Dimension) => FlatMap(CopyOnHit(m, d.value), Lookup(index, d.name))
  }

  /** One copy of a metric for every dimension and every index entry that match. */
  ghost function Kept(index: DimensionIndex): Metric -> seq<Metric> {
    (m: Metric) => FlatMap(CopiesFor(index, m), m.dims)
  }

  /** What the worker of one chunk appends. */
  method FilterWorker(index: DimensionIndex, chunk: seq<Metric>) returns (appended: seq<Metric>)
    ensures appended == FlatMap(Kept(index), chunk)
  {
    appended := [];
    for i := 0 to |chunk|
      invariant appended == FlatMap(Kept(index), chunk[..i])
    {
      var copies := FilterMetric(index, chunk[i]);
      appended := appended + copies;
      FlatMapNext(Kept(index), chunk, i);
    }
    assert chunk[..|chunk|] == chunk;
  }

  method FilterMetric(index: DimensionIndex, m: Metric) returns (copies: seq<Metric>)
    ensures copies == Kept(index)(m)
  {
    copies := [];
    for d := 0 to |m.dims|
      invariant copies == FlatMap(CopiesFor(index, m), m.dims[..d])
    {
      var more := FilterDimension(index, m, m.dims[d]);
      copies := copies + more;
      FlatMapNext(CopiesFor(index, m), m.dims, d);
    }
    assert m.dims[..|m.dims|] == m.dims;
  }

  method FilterDimension(index: DimensionIndex, m: Metric, d: Dimension) returns (copies: seq<Metric>)
    ensures copies == CopiesFor(index, m)(d)
  {
    copies := [];
    if d.name in index {
      var entries := index[d.name];
      for e := 0 to |entries|
        invariant copies == FlatMap(CopyOnHit(m, d.value), entries[..e])
      {
        if entries[e].dimVal == d.value {
          copies := copies + [m];
        }
        FlatMapNext(CopyOnHit(m, d.value), entries, e);
      }
      assert entries[..|entries|] == entries;
    }
  }

  // ---- how often a metric is kept ----

  /** The matching pairs of one dimension and one index entry, by position. */
  ghost function Pairs(index: DimensionIndex, m: Metric): set<(nat, nat)> {
    set d: nat, e: nat |
      d < |m.dims| && e < |Lookup(index, m.dims[d].name)| && Lookup(index, m.dims[d].name)[e].dimVal == m.dims[d].value
      :: (d, e)
  }

  ghost function HitsAt(entries: seq<Entry>, value: string, d: nat, n: nat): set<(nat, nat)>
    requires n <= |entries|
  {
    set e: nat | e < n && entries[e].dimVal == value :: (d, e)
  }

  lemma NextHit(entries: seq<Entry>, value: string, d: nat, n: nat)
    requires 0 < n <= |entries|
    ensures |HitsAt(entries, value, d, n)|
         == |HitsAt(entries, value, d, n - 1)| + if entries[n - 1].dimVal == value then 1 else 0
  {
    var before := HitsAt(entries, value, d, n - 1);
    if entries[n - 1].dimVal == value {
      assert HitsAt(entries, value, d, n) == before + {(d, n - 1)};
    } else {
      assert HitsAt(entries, value, d, n) == before;
    }
  }

  lemma {:induction false} CopiesCounted(m: Metric, entries: seq<Entry>, value: string, d: nat, n: nat, x: Metric)
    requires n <= |entries|
    ensures Times(x, FlatMap(CopyOnHit(m, value), entries[..n])) == if x == m then |HitsAt(entries, value, d, n)| else 0
  {
    if n > 0 {
      CopiesCounted(m, entries, value, d, n - 1, x);
      var f := CopyOnHit(m, value);
      FlatMapNext(f, entries, n - 1);
      TimesAppend(x, FlatMap(f, entries[..n - 1]), f(entries[n - 1]));
      NextHit(entries, value, d, n);
    } else {
      assert HitsAt(entries, value, d, 0) == {};
    }
  }

  ghost function PairsUpTo(index: DimensionIndex, m: Metric, n: nat): set<(nat, nat)>
    requires n <= |m.dims|
  {
    set p | p in Pairs(index, m) && p.0 < n
  }

  lemma {:induction false} KeptCountedUpTo(index: DimensionIndex, m: Metric, n: nat, x: Metric)
    requires n <= |m.dims|
    ensures Times(x, FlatMap(CopiesFor(index, m), m.dims[..n])) == if x == m then |PairsUpTo(index, m, n)| else 0
  {
    if n > 0 {
      KeptCountedUpTo(index, m, n - 1, x);
      var f, d := CopiesFor(index, m), m.dims[n - 1];
      var entries := Lookup(index, d.name);
      FlatMapNext(f, m.dims, n - 1);
      TimesAppend(x, FlatMap(f, m.dims[..n - 1]), f(d));
      CopiesCounted(m, entries, d.value, n - 1, |entries|, x);
      assert entries[..|entries|] == entries;
      NextPairs(index, m, n);
    } else {
      assert PairsUpTo(index, m, 0) == {};
    }
  }

  lemma NextPairs(index: DimensionIndex, m: Metric, n: nat)
    requires 0 < n <= |m.dims|
    ensures var entries := Lookup(index, m.dims[n - 1].name);
      |PairsUpTo(index, m, n)|
      == |PairsUpTo(index, m, n - 1)| + |HitsAt(entries, m.dims[n - 1].value, n - 1, |entries|)|
  {
    var entries := Lookup(index, m.dims[n - 1].name);
    var before, here := PairsUpTo(index, m, n - 1), HitsAt(entries, m.dims[n - 1].value, n - 1, |entries|);
    assert PairsUpTo(index, m, n) == before + here;
    assert before !! here;
  }

  lemma KeptCounted(index: DimensionIndex, m: Metric, x: Metric)
    ensures Times(x, Kept(index)(m)) == if x == m then |Pairs(index, m)| else 0
  {
    KeptCountedUpTo(index, m, |m.dims|, x);
    assert m.dims[..|m.dims|] == m.dims;
    assert PairsUpTo(index, m, |m.dims|) == Pairs(index, m);
  }

  /** The join holds each metric as often as it is listed times the number of its matching pairs. */
  lemma JoinCounted(index: DimensionIndex, list: seq<Metric>, x: Metric)
    ensures Times(x, FlatMap(Kept(index), list)) == Times(x, list) * |Pairs(index, x)|
  {
    forall m | m in list ensures Times(x, Kept(index)(m)) == if x == m then |Pairs(index, x)| else 0 {
      KeptCounted(index, m, x);
    }
    FlatMapTimes(Kept(index), list, x, |Pairs(index, x)|);
  }

  lemma PairsAreMatches(index: DimensionIndex, m: Metric)
    ensures Pairs(index, m) != {} <==> exists d :: d in m.dims && Matches(index, d)
  {
    if p :| p in Pairs(index, m) {
      assert m.dims[p.0] in m.dims && Matches(index, m.dims[p.0]);
    }
    if d :| d in m.dims && Matches(index, d) {
      var e :| e in Lookup(index, d.name) && e.dimVal == d.value;
      var i: nat :| i < |m.dims| && m.dims[i] == d;
      var j: nat :| j < |Lookup(index, d.name)| && Lookup(index, d.name)[j] == e;
      assert (i, j) in Pairs(index, m);
    }
  }

  /** A metric is kept if and only if it is listed and one of its dimensions matches a discovered resource. */
  lemma KeptIfMatched(index: DimensionIndex, list: seq<Metric>, x: Metric)
    ensures x in FlatMap(Kept(index), list) <==> x in list && exists d :: d in x.dims && Matches(index, d)
  {
    var pairs := Pairs(index, x);
    assert |pairs| > 0 <==> exists d :: d in x.dims && Matches(index, d) by {
      PairsAreMatches(index, x);
    }
    JoinCounted(index, list, x);
    TimesIn(x, list);
    TimesIn(x, FlatMap(Kept(index), list));
    PositiveProduct(Times(x, list), |pairs|);
  }

  lemma PositiveProduct(a: nat, b: nat)
    ensures a * b > 0 <==> a > 0 && b > 0
  {
  }

  // ---- every schedule ----

  ghost function FilterWork(index: DimensionIndex, list: seq<Metric>): (lists: seq<seq<Metric>>) {
    var chunks := Batches(list, CHUNK);
    seq(|chunks|, i requires 0 <= i < |chunks| => FlatMap(Kept(index), chunks[i]))
  }

  ghost function FilterRoutines(index: DimensionIndex, list: seq<Metric>): (routines: seq<ForkJoin.Routine<Metric>>)
    ensures ForkJoin.Forest(routines)
  {
    ForkJoin.Flat(ForkJoin.OneByOne(FilterWork(index, list)))
  }

  /** The concurrent filter refines the sequential join, and holds each metric once per matching pair. */
  lemma FilterUnderAnySchedule(index: DimensionIndex, list: seq<Metric>, schedule: seq<ForkJoin.Action>)
    requires ForkJoin.Complete(FilterRoutines(index, list), schedule)
    ensures var result := ForkJoin.Output(FilterRoutines(index, list), schedule);
      && Permutation(result, FlatMap(Kept(index), list))
      && (forall x :: Times(x, result) == Times(x, list) * |Pairs(index, x)|)
      && (forall x :: x in result <==> x in list && exists d :: d in x.dims && Matches(index, d))
  {
    var result := ForkJoin.Output(FilterRoutines(index, list), schedule);
    ForkJoin.OneByOneConservation(FilterWork(index, list), schedule);
    FlatMapConcat(Kept(index), Batches(list, CHUNK));
    BatchesCut(list, CHUNK);
    forall x ensures Times(x, result) == Times(x, list) * |Pairs(index, x)| {
      JoinCounted(index, list, x);
    }
    forall x ensures x in result <==> x in list && exists d :: d in x.dims && Matches(index, d) {
      KeptIfMatched(index, list, x);
      PermutationMember(result, FlatMap(Kept(index), list), x);
    }
  }

  /** Another order of the index gives another order of the join, nothing else. */
  lemma JoinOfAlike(a: DimensionIndex, b: DimensionIndex, list: seq<Metric>)
    requires Alike(a, b)
    ensures Permutation(FlatMap(Kept(a), list), FlatMap(Kept(b), list))
  {
    forall m: Metric ensures Permutation(Kept(a)(m), Kept(b)(m)) {
      forall d ensures Permutation(CopiesFor(a, m)(d), CopiesFor(b, m)(d)) {
        FlatMapPermuted(CopyOnHit(m, d.value), Lookup(a, d.name), Lookup(b, d.name));
      }
      FlatMapAlike(CopiesFor(a, m), CopiesFor(b, m), m.dims);
    }
    FlatMapAlike(Kept(a), Kept(b), list);
  }
}
