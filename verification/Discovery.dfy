/** Discovery as a whole: from the pages of the tagging service to the records that are queried. */
module Discovery {
  import opened Collections
  import opened Resources
  import opened Index
  import opened Owners
  import opened Filter
  import opened Records
  import ForkJoin

  /** The question: what to search for, the pages of the tagging service, the expressions, the full metric list. */
  datatype Question = Question(
    search: Search, pages: seq<seq<Mapping>>, patterns: seq<Pattern>, list: seq<Metric>, target: Target)

  /** What differs from run to run: two schedules and the random ids. */
  datatype Run = Run(pageSchedule: seq<ForkJoin.Action>, filterSchedule: seq<ForkJoin.Action>, ids: nat -> string)

  ghost function PageRoutines(q: Question): (routines: seq<ForkJoin.Routine<Resource>>)
    ensures ForkJoin.Forest(routines)
  {
    ForkJoin.Flat(ForkJoin.OneByOne(PageWork(q.search, q.pages)))
  }

  ghost predicate PagesDone(q: Question, run: Run) {
    AllValid(q.patterns) && ForkJoin.Complete(PageRoutines(q), run.pageSchedule)
  }

  /** The index as this run builds it, from the resources in the order in which its page workers found them. */
  ghost function RunIndex(q: Question, run: Run): DimensionIndex
    requires PagesDone(q, run)
  {
    IndexOf(q.patterns, ForkJoin.Output(PageRoutines(q), run.pageSchedule))
  }

  ghost predicate Finished(q: Question, run: Run) {
    PagesDone(q, run) && ForkJoin.Complete(FilterRoutines(RunIndex(q, run), q.list), run.filterSchedule)
  }

  ghost function Filtered(q: Question, run: Run): seq<Metric>
    requires Finished(q, run)
  {
    ForkJoin.Output(FilterRoutines(RunIndex(q, run), q.list), run.filterSchedule)
  }

  ghost function Discovered(q: Question, run: Run): seq<Record>
    requires Finished(q, run)
  {
    BuiltRecords(RunIndex(q, run), Filtered(q, run), q.target, run.ids)
  }

  /** The sequential pipeline, without schedules or ids. */
  ghost function SequentialIndex(q: Question): DimensionIndex
    requires AllValid(q.patterns)
  {
    IndexOf(q.patterns, TaggedInOrder(q.search, q.pages))
  }

  ghost function SequentialRecords(q: Question): seq<Record>
    requires AllValid(q.patterns)
  {
    var index := SequentialIndex(q);
    FlatMap(OwnRecords(index, q.target), FlatMap(Kept(index), q.list))
  }

  lemma RunIndexAlike(q: Question, run: Run)
    requires PagesDone(q, run)
    ensures Alike(SequentialIndex(q), RunIndex(q, run))
  {
    TaggedUnderAnySchedule(q.search, q.pages, run.pageSchedule);
    IndexPermuted(q.patterns, TaggedInOrder(q.search, q.pages), ForkJoin.Output(PageRoutines(q), run.pageSchedule));
  }

  /** No run dereferences nil or leaves a resource over from an earlier metric. */
  lemma RunUsesOwnResources(q: Question, run: Run)
    requires Finished(q, run)
    ensures !Panics(RunIndex(q, run), Filtered(q, run), q.target)
    ensures FlatMap(Anonymous(), Discovered(q, run))
         == FlatMap(OwnRecords(RunIndex(q, run), q.target), Filtered(q, run))
    ensures |Discovered(q, run)| == |Filtered(q, run)| * |q.target.metric.statistics|
  {
    FilteredHaveOwners(RunIndex(q, run), q.list, run.filterSchedule);
    NoStaleOwner(RunIndex(q, run), Filtered(q, run), q.target, run.ids);
    BuiltLength(RunIndex(q, run), Filtered(q, run), q.target, run.ids);
  }

  /** Every run's records, metric by metric and statistic by statistic: each of its own metric's resource. */
  lemma DiscoveredRecords(q: Question, run: Run, i: nat, k: nat) returns (r: Resource)
    requires Finished(q, run) && i < |Filtered(q, run)| && k < |q.target.metric.statistics|
    ensures FirstMatch(RunIndex(q, run), Filtered(q, run)[i].dims) == Some(r)
    ensures var j := i * |q.target.metric.statistics| + k;
      && j < |Discovered(q, run)|
      && IsRecordOf(Discovered(q, run)[j], q.target, r, Filtered(q, run)[i], q.target.metric.statistics[k], run.ids(j))
  {
    var index, list := RunIndex(q, run), Filtered(q, run);
    RunUsesOwnResources(q, run);
    BuiltAreRecords(index, list, q.target, run.ids);
    assert RecordInPlace(Discovered(q, run), index, list, q.target, run.ids, i, k);
    FilteredHaveOwners(index, q.list, run.filterSchedule);
    r := OwnRecordAt(Discovered(q, run), index, list, q.target, run.ids, i, k);
  }

  lemma OwnRecordAt(
    records: seq<Record>, index: DimensionIndex, list: seq<Metric>, target: Target, ids: nat -> string, i: nat, k: nat)
    returns (r: Resource)
    requires RecordInPlace(records, index, list, target, ids, i, k)
    requires i < |list| && FirstMatch(index, list[i].dims).Some?
    ensures FirstMatch(index, list[i].dims) == Some(r)
    ensures IsRecordOf(records[i * |target.metric.statistics| + k], target, r, list[i], target.metric.statistics[k],
                       ids(i * |target.metric.statistics| + k))
  {
    var j := i * |target.metric.statistics| + k;
    r := OwnOf(records[j], index, list, target, i, target.metric.statistics[k], ids(j));
  }

  lemma OwnOf(
    rec: Record, index: DimensionIndex, list: seq<Metric>, target: Target, i: nat, stat: string, id: string)
    returns (r: Resource)
    requires IsRecordAt(rec, index, list, target, i, stat, id) && FirstMatch(index, list[i].dims).Some?
    ensures FirstMatch(index, list[i].dims) == Some(r) && IsRecordOf(rec, target, r, list[i], stat, id)
  {
    var k;
    k, r :| IsLastFound(index, list, k, i, r) && IsRecordOf(rec, target, r, list[i], stat, id);
  }

  // ---- whose a metric can be ----

  /** The dimension and expression that decide for a metric: the same ones in every run. */
  ghost function DeciderOf(q: Question, dims: seq<Dimension>): (x: Option<Decider>)
    requires AllValid(q.patterns)
    ensures x.Some? ==> x.value.p in q.patterns && x.value.p.Valid()
  {
    Deciding(q.patterns, dims, TaggedInOrder(q.search, q.pages))
  }

  /** The first resource on page `i` that passed the tag filter and from which the deciding expression captures. */
  ghost function PageOwner(q: Question, dims: seq<Dimension>, i: nat): Option<Resource>
    requires AllValid(q.patterns) && i < |q.pages|
  {
    match DeciderOf(q, dims)
    case None => None
    case Some(x) => FirstCapturing(x.p, x.d, PageWork(q.search, q.pages)[i])
  }

  ghost function Found(q: Question, run: Run): seq<Resource>
    requires PagesDone(q, run)
  {
    ForkJoin.Output(PageRoutines(q), run.pageSchedule)
  }

  lemma RunDecided(q: Question, run: Run, dims: seq<Dimension>)
    requires PagesDone(q, run)
    ensures FirstMatch(RunIndex(q, run), dims)
         == match DeciderOf(q, dims) case None => None case Some(x) => FirstCapturing(x.p, x.d, Found(q, run))
    ensures FirstMatch(RunIndex(q, run), dims).Some? <==> DeciderOf(q, dims).Some?
  {
    TaggedUnderAnySchedule(q.search, q.pages, run.pageSchedule);
    DecidingPermuted(q.patterns, dims, Found(q, run), TaggedInOrder(q.search, q.pages));
    FirstMatchDecided(q.patterns, dims, Found(q, run));
  }

  /** The first one found is the first one of some page, whatever the schedule of the page workers. */
  lemma FirstFound(q: Question, run: Run, p: Pattern, d: Dimension) returns (i: nat)
    requires PagesDone(q, run) && p.Valid() && FirstCapturing(p, d, Found(q, run)).Some?
    ensures i < |q.pages| && FirstCapturing(p, d, PageWork(q.search, q.pages)[i]) == FirstCapturing(p, d, Found(q, run))
  {
    var lists := PageWork(q.search, q.pages);
    var picks := ForkJoin.OutputIsShuffle(PageRoutines(q), run.pageSchedule);
    assert ForkJoin.BlockLists(PageRoutines(q)) == ForkJoin.OneByOne(lists);
    FirstOfShuffle(p, d, lists, picks);
    i :| i < |lists| && FirstCapturing(p, d, Seen(lists, picks, i)) == FirstCapturing(p, d, Found(q, run));
    AllSeen(lists, picks, i);
  }

  lemma AllSeen(lists: seq<seq<Resource>>, picks: seq<nat>, i: nat)
    requires ForkJoin.IsShuffle(ForkJoin.OneByOne(lists), picks) && i < |lists|
    ensures Seen(lists, picks, i) == lists[i]
  {
    assert ForkJoin.Turns(picks, i) == |ForkJoin.OneByOne(lists)[i]| == |lists[i]|;
  }

  /** Whatever the run, a metric belongs to the first resource of some page, or to none if nothing decides. */
  lemma OwnerIsPageOwner(q: Question, run: Run, dims: seq<Dimension>)
    requires PagesDone(q, run)
    ensures var owner := FirstMatch(RunIndex(q, run), dims);
      if DeciderOf(q, dims).None? then owner.None?
      else owner.Some? && exists i: nat :: i < |q.pages| && PageOwner(q, dims, i) == owner
  {
    RunDecided(q, run, dims);
    if x :| DeciderOf(q, dims) == Some(x) {
      var i := FirstFound(q, run, x.p, x.d);
      assert PageOwner(q, dims, i) == FirstMatch(RunIndex(q, run), dims);
    }
  }

  /** The pages in another order. */
  ghost function Reordered(lists: seq<seq<Resource>>, order: seq<nat>): (r: seq<seq<Resource>>)
    requires forall k :: 0 <= k < |order| ==> order[k] < |lists|
    ensures |r| == |order|
  {
    seq(|order|, k requires 0 <= k < |order| => lists[order[k]])
  }

  lemma {:induction false} PagesInOrder(lists: seq<seq<Resource>>, order: seq<nat>)
    requires forall k :: 0 <= k < |order| ==> order[k] < |lists|
    ensures Concat(ForkJoin.BlocksIn(ForkJoin.OneByOne(lists), order)) == Concat(Reordered(lists, order))
  {
    if order != [] {
      var n := |order| - 1;
      var work := ForkJoin.OneByOne(lists);
      PagesInOrder(lists, order[..n]);
      assert Reordered(lists, order)[..n] == Reordered(lists, order[..n]);
      ConcatAppend(ForkJoin.BlocksIn(work, order[..n]), work[order[n]]);
      ConcatSingles(lists[order[n]]);
    }
  }

  /** The page workers may come one after the other, in any order. */
  lemma RunInOrder(q: Question, order: seq<nat>) returns (run: Run)
    requires AllValid(q.patterns)
    requires ForkJoin.IsOrder(ForkJoin.OneByOne(PageWork(q.search, q.pages)), order)
    ensures Finished(q, run)
    ensures ForkJoin.Output(PageRoutines(q), run.pageSchedule)
         == Concat(Reordered(PageWork(q.search, q.pages), order))
  {
    var lists := PageWork(q.search, q.pages);
    var pages := ForkJoin.EveryOrderHappens(ForkJoin.OneByOne(lists), order);
    PagesInOrder(lists, order);
    var routines := FilterRoutines(RunIndex(q, Run(pages, [], NoIds())), q.list);
    var filter := ForkJoin.CanComplete(routines, []);
    run := Run(pages, filter, NoIds());
  }

  /** One of the runs is the sequential one. */
  lemma SequentialRun(q: Question) returns (run: Run)
    requires AllValid(q.patterns)
    ensures Finished(q, run) && RunIndex(q, run) == SequentialIndex(q)
  {
    var lists := PageWork(q.search, q.pages);
    var order := ForkJoin.Except(|lists|, {});
    run := RunInOrder(q, order);
    assert Reordered(lists, order) == lists;
    FlatMapConcat(KeepTagged(q.search), q.pages);
  }

  lemma FirstOrder<T>(work: seq<seq<seq<T>>>, i: nat) returns (order: seq<nat>)
    requires i < |work|
    ensures order == [i] + ForkJoin.Except(|work|, {i}) && ForkJoin.IsOrder(work, order)
  {
    var others := ForkJoin.Except(|work|, {i});
    order := [i] + others;
    forall k | 0 <= k < |others| ensures others[k] < |work| && others[k] != i {
      assert others[k] in others;
    }
    forall k: nat | k < |work| ensures k in order {
      assert k == i || k in others;
    }
  }

  lemma FirstInOrder(lists: seq<seq<Resource>>, i: nat) returns (order: seq<nat>, rest: seq<Resource>)
    requires i < |lists|
    ensures ForkJoin.IsOrder(ForkJoin.OneByOne(lists), order)
    ensures Concat(Reordered(lists, order)) == lists[i] + rest
  {
    order := FirstOrder(ForkJoin.OneByOne(lists), i);
    var others := order[1..];
    rest := Concat(Reordered(lists, others));
    assert Reordered(lists, order) == [lists[i]] + Reordered(lists, others);
    ConcatAppend([lists[i]], Reordered(lists, others));
    ConcatOne(lists[i]);
  }

  /** Every page may be first, and then its resource is the owner. */
  lemma PageFirst(q: Question, dims: seq<Dimension>, i: nat) returns (run: Run)
    requires AllValid(q.patterns) && i < |q.pages| && PageOwner(q, dims, i).Some?
    ensures Finished(q, run) && FirstMatch(RunIndex(q, run), dims) == PageOwner(q, dims, i)
  {
    var order, rest := FirstInOrder(PageWork(q.search, q.pages), i);
    run := RunInOrder(q, order);
    RunDecided(q, run, dims);
    var x := DeciderOf(q, dims).value;
    FirstCapturingAppend(x.p, x.d, PageWork(q.search, q.pages)[i], rest);
  }

  /** The resources a metric can belong to are exactly the first ones of the pages. */
  lemma PossibleOwners(q: Question, dims: seq<Dimension>, r: Resource)
    requires AllValid(q.patterns)
    ensures (exists run :: PagesDone(q, run) && FirstMatch(RunIndex(q, run), dims) == Some(r))
       <==> (exists i: nat :: i < |q.pages| && PageOwner(q, dims, i) == Some(r))
  {
    if run :| PagesDone(q, run) && FirstMatch(RunIndex(q, run), dims) == Some(r) {
      OwnerIsPageOwner(q, run, dims);
    }
    if i: nat :| i < |q.pages| && PageOwner(q, dims, i) == Some(r) {
      var run := PageFirst(q, dims, i);
    }
  }

  ghost predicate OnePageOwner(q: Question, dims: seq<Dimension>)
    requires AllValid(q.patterns)
  {
    forall i: nat, j: nat |
      i < |q.pages| && j < |q.pages| && PageOwner(q, dims, i).Some? && PageOwner(q, dims, j).Some? ::
      PageOwner(q, dims, i) == PageOwner(q, dims, j)
  }

  /**
   A metric's resource is the same in all runs if and only if all pages on which the deciding expression captures
   the metric's value at all have the same resource first.
   */
  lemma OwnerIndependence(q: Question, dims: seq<Dimension>)
    requires AllValid(q.patterns)
    ensures (forall s, t :: PagesDone(q, s) && PagesDone(q, t) ==>
              FirstMatch(RunIndex(q, s), dims) == FirstMatch(RunIndex(q, t), dims))
       <==> OnePageOwner(q, dims)
  {
    if OnePageOwner(q, dims) {
      forall s, t | PagesDone(q, s) && PagesDone(q, t)
        ensures FirstMatch(RunIndex(q, s), dims) == FirstMatch(RunIndex(q, t), dims)
      {
        OwnerIsPageOwner(q, s, dims);
        OwnerIsPageOwner(q, t, dims);
      }
    } else {
      var i: nat, j: nat :|
        i < |q.pages| && j < |q.pages| && PageOwner(q, dims, i).Some? && PageOwner(q, dims, j).Some?
        && PageOwner(q, dims, i) != PageOwner(q, dims, j);
      var s := PageFirst(q, dims, i);
      var t := PageFirst(q, dims, j);
      assert FirstMatch(RunIndex(q, s), dims) != FirstMatch(RunIndex(q, t), dims);
    }
  }

  // ---- what the records show of it ----

  /** What a record shows of its resource. */
  ghost function Shown(target: Target, r: Resource): (string, seq<Tag>) {
    (r.arn, MetricTagsOf(r.tags, ExportedNames(target, r)))
  }

  lemma ShownDecides(target: Target, r: Resource, s: Resource, m: Metric)
    requires Shown(target, r) == Shown(target, s)
    ensures MetricRecords(target, Some(r), m, NoIds(), 0) == MetricRecords(target, Some(s), m, NoIds(), 0)
  {
    var a, b := MetricRecords(target, Some(r), m, NoIds(), 0), MetricRecords(target, Some(s), m, NoIds(), 0);
    assert forall k :: 0 <= k < |a| ==> a[k] == b[k];
  }

  /** The pages that have a candidate agree on what a record shows of it. */
  ghost predicate PagesAgree(q: Question, dims: seq<Dimension>)
    requires AllValid(q.patterns)
  {
    forall i: nat, j: nat |
      i < |q.pages| && j < |q.pages| && PageOwner(q, dims, i).Some? && PageOwner(q, dims, j).Some? ::
      Shown(q.target, PageOwner(q, dims, i).value) == Shown(q.target, PageOwner(q, dims, j).value)
  }

  lemma SameOwnRecords(q: Question, s: Run, t: Run, m: Metric)
    requires PagesDone(q, s) && PagesDone(q, t) && PagesAgree(q, m.dims)
    ensures OwnRecords(RunIndex(q, s), q.target)(m) == OwnRecords(RunIndex(q, t), q.target)(m)
  {
    OwnerIsPageOwner(q, s, m.dims);
    OwnerIsPageOwner(q, t, m.dims);
    var a, b := FirstMatch(RunIndex(q, s), m.dims), FirstMatch(RunIndex(q, t), m.dims);
    if a.Some? {
      ShownDecides(q.target, a.value, b.value, m);
    }
  }

  lemma FilteredAreListed(q: Question, run: Run, m: Metric)
    requires Finished(q, run)
    ensures m in Filtered(q, run) <==> m in q.list && FirstMatch(RunIndex(q, run), m.dims).Some?
  {
    FilterUnderAnySchedule(RunIndex(q, run), q.list, run.filterSchedule);
    FirstMatchFinds(RunIndex(q, run), m.dims);
  }

  ghost predicate Independent(q: Question)
    requires AllValid(q.patterns)
  {
    q.target.metric.statistics == [] || forall m :: m in q.list ==> PagesAgree(q, m.dims)
  }

  lemma RecordsAsSequential(q: Question, run: Run, m: Metric)
    requires Finished(q, run) && Independent(q) && m in q.list
    ensures OwnRecords(RunIndex(q, run), q.target)(m) == OwnRecords(SequentialIndex(q), q.target)(m)
  {
    if q.target.metric.statistics != [] {
      var sequential := SequentialRun(q);
      SameOwnRecords(q, run, sequential, m);
    }
  }

  lemma JoinAsSequential(q: Question, run: Run)
    requires Finished(q, run)
    ensures Permutation(Filtered(q, run), FlatMap(Kept(SequentialIndex(q)), q.list))
  {
    RunIndexAlike(q, run);
    FilterUnderAnySchedule(RunIndex(q, run), q.list, run.filterSchedule);
    JoinOfAlike(SequentialIndex(q), RunIndex(q, run), q.list);
  }

  /**
   Whatever the interleaving of page workers and filter workers, the records are those of the sequential
   pipeline up to order and random ids, provided the pages agree about every listed metric.
   */
  lemma DiscoveryIsScheduleIndependent(q: Question, run: Run)
    requires Finished(q, run) && Independent(q)
    ensures Permutation(FlatMap(Anonymous(), Discovered(q, run)), SequentialRecords(q))
  {
    var own, sequential := OwnRecords(RunIndex(q, run), q.target), OwnRecords(SequentialIndex(q), q.target);
    RunUsesOwnResources(q, run);
    JoinAsSequential(q, run);
    forall m | m in Filtered(q, run) ensures own(m) == sequential(m) {
      FilteredAreListed(q, run, m);
      RecordsAsSequential(q, run, m);
    }
    FlatMapSame(own, sequential, Filtered(q, run));
    FlatMapPermuted(sequential, Filtered(q, run), FlatMap(Kept(SequentialIndex(q)), q.list));
  }

  /** A listed metric with an owner has a record. */
  lemma OwnerHasRecord(q: Question, run: Run, m: Metric) returns (rec: Record)
    requires Finished(q, run) && m in q.list && q.target.metric.statistics != []
    requires FirstMatch(RunIndex(q, run), m.dims).Some?
    ensures rec in FlatMap(Anonymous(), Discovered(q, run)) && rec.dimensions == m.dims
  {
    var own := OwnRecords(RunIndex(q, run), q.target);
    RunUsesOwnResources(q, run);
    FilteredAreListed(q, run, m);
    rec := own(m)[0];
    ToFlatMap(own, Filtered(q, run), m, rec);
  }

  /** Every record shows the owner that its dimensions have in this run. */
  lemma RecordShowsOwner(q: Question, run: Run, rec: Record)
    requires Finished(q, run) && rec in FlatMap(Anonymous(), Discovered(q, run))
    ensures var owner := FirstMatch(RunIndex(q, run), rec.dimensions);
      owner.Some? && (rec.id, rec.tags) == Shown(q.target, owner.value)
  {
    RunUsesOwnResources(q, run);
    var m := InFlatMap(OwnRecords(RunIndex(q, run), q.target), Filtered(q, run), rec);
    FilteredAreListed(q, run, m);
  }

  ghost predicate SameRecords(q: Question, s: Run, t: Run)
    requires Finished(q, s) && Finished(q, t)
  {
    Permutation(FlatMap(Anonymous(), Discovered(q, s)), FlatMap(Anonymous(), Discovered(q, t)))
  }

  lemma DisagreementShows(q: Question, m: Metric) returns (s: Run, t: Run)
    requires AllValid(q.patterns) && m in q.list && q.target.metric.statistics != [] && !PagesAgree(q, m.dims)
    ensures Finished(q, s) && Finished(q, t) && !SameRecords(q, s, t)
  {
    var i: nat, j: nat :|
      i < |q.pages| && j < |q.pages| && PageOwner(q, m.dims, i).Some? && PageOwner(q, m.dims, j).Some?
      && Shown(q.target, PageOwner(q, m.dims, i).value) != Shown(q.target, PageOwner(q, m.dims, j).value);
    s := PageFirst(q, m.dims, i);
    t := PageFirst(q, m.dims, j);
    var rec := OwnerHasRecord(q, s, m);
    RecordShowsOwner(q, s, rec);
    if SameRecords(q, s, t) {
      PermutationMember(FlatMap(Anonymous(), Discovered(q, s)), FlatMap(Anonymous(), Discovered(q, t)), rec);
      RecordShowsOwner(q, t, rec);
    }
  }

  /**
   All runs discover the same records, up to order and ids, if and only if the pages agree about every listed
   metric, or no statistic is configured.
   */
  lemma DiscoveryIndependence(q: Question)
    requires AllValid(q.patterns)
    ensures (forall s, t :: Finished(q, s) && Finished(q, t) ==> SameRecords(q, s, t))
       <==> Independent(q)
  {
    if Independent(q) {
      forall s, t | Finished(q, s) && Finished(q, t) ensures SameRecords(q, s, t) {
        DiscoveryIsScheduleIndependent(q, s);
        DiscoveryIsScheduleIndependent(q, t);
      }
    } else {
      var m :| m in q.list && !PagesAgree(q, m.dims);
      var s, t := DisagreementShows(q, m);
    }
  }

  // ---- resources that share no value ----

  lemma {:induction false} PatternEntries(patterns: seq<Pattern>, p: Pattern, rs: seq<Resource>, name: string, e: Entry)
    requires AllValid(patterns) && p in patterns && p.Valid() && e in FlatMap(CapturedBy(p, name), rs)
    ensures e in EntriesUnder(patterns, rs, name)
  {
    var n := |patterns| - 1;
    var before, last := EntriesUnder(patterns[..n], rs, name), FlatMap(CapturedBy(patterns[n], name), rs);
    InAppend(before, last, e);
    if p != patterns[n] {
      PatternEntries(patterns[..n], p, rs, name, e);
    }
    assert EntriesUnder(patterns, rs, name) == before + last;
  }

  /** A page's owner is in the index under the deciding dimension. */
  lemma PageOwnerIsIndexed(q: Question, dims: seq<Dimension>, i: nat)
    requires AllValid(q.patterns) && i < |q.pages| && PageOwner(q, dims, i).Some?
    ensures var d := DeciderOf(q, dims).value.d;
      Entry(d.value, PageOwner(q, dims, i).value) in Lookup(SequentialIndex(q), d.name)
  {
    var x, r := DeciderOf(q, dims).value, PageOwner(q, dims, i).value;
    var lists, rs := PageWork(q.search, q.pages), TaggedInOrder(q.search, q.pages);
    FirstCapturingFinds(x.p, x.d, lists[i]);
    var k: nat :| k < |lists[i]| && lists[i][k] == r;
    PartInConcat(lists, i, k);
    FlatMapConcat(KeepTagged(q.search), q.pages);
    CaptureIsOwn(x.p, x.d, r);
    ToFlatMap(CapturedBy(x.p, x.d.name), rs, r, Entry(x.d.value, r));
    PatternEntries(q.patterns, x.p, rs, x.d.name, Entry(x.d.value, r));
    LookupIsEntriesUnder(q.patterns, rs, x.d.name);
  }

  /** In particular all runs agree when no two tagged resources share a captured value under one dimension name. */
  lemma DiscoveryOfUnambiguousResources(q: Question, s: Run, t: Run)
    requires Finished(q, s) && Finished(q, t)
    requires Unambiguous(SequentialIndex(q))
    ensures SameRecords(q, s, t)
  {
    forall m | m in q.list ensures PagesAgree(q, m.dims) {
      forall i: nat, j: nat |
        i < |q.pages| && j < |q.pages| && PageOwner(q, m.dims, i).Some? && PageOwner(q, m.dims, j).Some?
        ensures Shown(q.target, PageOwner(q, m.dims, i).value) == Shown(q.target, PageOwner(q, m.dims, j).value)
      {
        PageOwnerIsIndexed(q, m.dims, i);
        PageOwnerIsIndexed(q, m.dims, j);
      }
    }
    DiscoveryIndependence(q);
  }
}
