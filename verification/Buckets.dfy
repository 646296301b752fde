/** The summary of a backup bucket, as three collectors compute it from three kinds of listing. */
module Buckets {
  import opened Collections
  import opened Window

  /** An object of a bucket; times are nanoseconds since Go's zero time. */
  datatype Object = Object(size: int, lastModified: int, created: int)

  /** Size and time of an object, the time being the one its collector looks at. */
  datatype Stamped = Stamped(size: int, time: int)

  const ZERO_TIME := 0

  /** The five running accumulators. */
  datatype Summary = Summary(count: nat, total: int, newest: int, newestSize: int, biggest: int)

  const EMPTY := Summary(0, 0, ZERO_TIME, 0, 0)

  /** What a collector emits: a failure flag alone, or success and the summary. */
  datatype Report = ListFailed | Listed(summary: Summary)

  function ByModified(objects: seq<Object>): (r: seq<Stamped>)
    ensures |r| == |objects|
  {
    seq(|objects|, i requires 0 <= i < |objects| => Stamped(objects[i].size, objects[i].lastModified))
  }

  function ByCreated(objects: seq<Object>): (r: seq<Stamped>)
    ensures |r| == |objects|
  {
    seq(|objects|, i requires 0 <= i < |objects| => Stamped(objects[i].size, objects[i].created))
  }

  // ---- what a summary means ----

  function SumOfSizes(objects: seq<Stamped>): int {
    if objects == [] then 0 else SumOfSizes(objects[..|objects| - 1]) + objects[|objects| - 1].size
  }

  /** The first object with the latest time after the zero time; `None` when no object is after it. */
  ghost predicate IsNewest(objects: seq<Stamped>, newest: int, size: int) {
    if forall i :: 0 <= i < |objects| ==> objects[i].time <= ZERO_TIME then newest == ZERO_TIME && size == 0
    else exists k :: 0 <= k < |objects| && NewestAt(objects, k) && newest == objects[k].time && size == objects[k].size
  }

  ghost predicate NewestAt(objects: seq<Stamped>, k: nat) {
    && k < |objects| && objects[k].time > ZERO_TIME
    && (forall i :: 0 <= i < |objects| ==> objects[i].time <= objects[k].time)
    && (forall i :: 0 <= i < k ==> objects[i].time < objects[k].time)
  }

  ghost predicate IsBiggest(objects: seq<Stamped>, biggest: int) {
    && 0 <= biggest && (forall i :: 0 <= i < |objects| ==> objects[i].size <= biggest)
    && (biggest == 0 || exists i :: 0 <= i < |objects| && objects[i].size == biggest)
  }

  /** Count, int64 sum, first newest and biggest of a flat list. */
  ghost predicate Summarises(s: Summary, objects: seq<Stamped>) {
    && s.count == |objects| && s.total == Wrap64(SumOfSizes(objects))
    && IsNewest(objects, s.newest, s.newestSize) && IsBiggest(objects, s.biggest)
  }

  /** These four demands leave one summary only. */
  lemma SummaryIsUnique(s: Summary, t: Summary, objects: seq<Stamped>)
    requires Summarises(s, objects) && Summarises(t, objects)
    ensures s == t
  {
    if !(forall i :: 0 <= i < |objects| ==> objects[i].time <= ZERO_TIME) {
      var k :| 0 <= k < |objects| && NewestAt(objects, k)
        && s.newest == objects[k].time && s.newestSize == objects[k].size;
      var l :| 0 <= l < |objects| && NewestAt(objects, l)
        && t.newest == objects[l].time && t.newestSize == objects[l].size;
      assert objects[k].time <= objects[l].time && objects[l].time <= objects[k].time;
      assert k == l;
    }
  }

  // ---- one object more ----

  lemma WrapStep(a: int, b: int)
    ensures Wrap64(Wrap64(a) + b) == Wrap64(a + b)
  {
    var m := 0x1_0000_0000_0000_0000;
    var q := (a - MIN64) / m;
    assert Wrap64(a) == a - q * m;
    assert (a + b - MIN64) == (Wrap64(a) + b - MIN64) + q * m;
    ModShift(Wrap64(a) + b - MIN64, q, m);
  }

  lemma ModShift(x: int, q: int, m: int)
    requires m > 0
    ensures (x + q * m) % m == x % m
  {
    Quotient(x + q * m, m, x / m + q, x % m);
  }

  lemma NewestNext(objects: seq<Stamped>, item: Stamped, newest: int, size: int)
    requires IsNewest(objects, newest, size)
    ensures if item.time > newest then IsNewest(objects + [item], item.time, item.size)
            else IsNewest(objects + [item], newest, size)
  {
    var more := objects + [item];
    assert more[|objects|] == item && forall i :: 0 <= i < |objects| ==> more[i] == objects[i];
    if item.time > newest {
      assert NewestAt(more, |objects|);
    } else if k :| 0 <= k < |objects| && NewestAt(objects, k) && newest == objects[k].time && size == objects[k].size {
      assert NewestAt(more, k);
    }
  }

  method AddObject(s: Summary, item: Stamped, ghost objects: seq<Stamped>) returns (r: Summary)
    requires Summarises(s, objects)
    ensures Summarises(r, objects + [item])
  {
    var numberOfObjects, totalSize, lastModified, lastObjectSize, biggestObjectSize :=
      s.count, s.total, s.newest, s.newestSize, s.biggest;
    ghost var more := objects + [item];
    assert more[..|objects|] == objects && more[|objects|] == item;
    assert forall i :: 0 <= i < |objects| ==> more[i] == objects[i];
    WrapStep(SumOfSizes(objects), item.size);
    NewestNext(objects, item, s.newest, s.newestSize);
    numberOfObjects := numberOfObjects + 1;
    totalSize := Wrap64(totalSize + item.size);
    if item.time > lastModified {
      lastModified := item.time;
      lastObjectSize := item.size;
    }
    if item.size > biggestObjectSize {
      biggestObjectSize := item.size;
    }
    r := Summary(numberOfObjects, totalSize, lastModified, lastObjectSize, biggestObjectSize);
  }

  method AddPage(s: Summary, page: seq<Stamped>, ghost objects: seq<Stamped>) returns (r: Summary)
    requires Summarises(s, objects)
    ensures Summarises(r, objects + page)
  {
    r := s;
    assert objects + page[..0] == objects;
    for i := 0 to |page|
      invariant Summarises(r, objects + page[..i])
    {
      r := AddObject(r, page[i], objects + page[..i]);
      assert objects + page[..i] + [page[i]] == objects + page[..i + 1];
    }
    assert page[..|page|] == page;
  }

  // ---- paged listings ----

  /** The answer to one listing request: an error, or a page with the token of the next one. */
  datatype Response<Token> = Failed | Page(contents: seq<Object>, next: Token, truncated: bool)

  /** From `token` on, the service serves exactly these pages, and then fails or ends. */
  ghost predicate Serves<Token>(list: Token -> Response<Token>, token: Token, pages: seq<seq<Object>>, fails: bool)
    decreases |pages|
  {
    match list(token)
    case Failed => pages == [] && fails
    case Page(contents, next, truncated) =>
      && pages != [] && pages[0] == contents
      && (if truncated then Serves(list, next, pages[1..], fails) else |pages| == 1 && !fails)
  }

  /** The report on pages that add up to `objects`. */
  ghost predicate Reports(report: Report, objects: seq<Stamped>, fails: bool) {
    if fails then report == ListFailed else report.Listed? && Summarises(report.summary, objects)
  }

  /** The object with the latest of these times, all after the zero time, and the first of those; and its size. */
  ghost predicate ShowsNewest(s: Summary, objects: seq<Object>, times: seq<int>)
    requires |times| == |objects|
  {
    if forall i :: 0 <= i < |times| ==> times[i] <= 0 then s.newest == 0 && s.newestSize == 0
    else
      exists k ::
        0 <= k < |times| && s.newest == times[k] > 0 && s.newestSize == objects[k].size
        && (forall i :: 0 <= i < |times| ==> times[i] <= times[k])
        && (forall i :: 0 <= i < k ==> times[i] < times[k])
  }

  function TotalSize(objects: seq<Object>): int {
    if objects == [] then 0 else TotalSize(objects[..|objects| - 1]) + objects[|objects| - 1].size
  }

  /** Count, int64 sum and greatest size of the objects. */
  ghost predicate ShowsSizes(s: Summary, objects: seq<Object>) {
    && s.count == |objects| && s.total == Wrap64(TotalSize(objects))
    && s.biggest >= 0 && (forall i :: 0 <= i < |objects| ==> objects[i].size <= s.biggest)
    && (s.biggest == 0 || exists i :: 0 <= i < |objects| && objects[i].size == s.biggest)
  }

  /** The failure flag alone, or the sizes and the object that was modified last. */
  ghost predicate ReportsByModification(report: Report, objects: seq<Object>, fails: bool) {
    if fails then report == ListFailed
    else
      && report.Listed? && ShowsSizes(report.summary, objects)
      && exists times: seq<int> ::
           |times| == |objects| && (forall i :: 0 <= i < |times| ==> times[i] == objects[i].lastModified)
           && ShowsNewest(report.summary, objects, times)
  }

  /** The failure flag alone, or the sizes and the object that was created last. */
  ghost predicate ReportsByCreation(report: Report, objects: seq<Object>, fails: bool) {
    if fails then report == ListFailed
    else
      && report.Listed? && ShowsSizes(report.summary, objects)
      && exists times: seq<int> ::
           |times| == |objects| && (forall i :: 0 <= i < |times| ==> times[i] == objects[i].created)
           && ShowsNewest(report.summary, objects, times)
  }

  /** The same size at every position, and these times. */
  ghost predicate IsStamping(stamped: seq<Stamped>, objects: seq<Object>, times: seq<int>) {
    && |stamped| == |objects| == |times|
    && forall i :: 0 <= i < |objects| ==> stamped[i] == Stamped(objects[i].size, times[i])
  }

  lemma {:induction false} SameTotal(stamped: seq<Stamped>, objects: seq<Object>, times: seq<int>)
    requires IsStamping(stamped, objects, times)
    ensures SumOfSizes(stamped) == TotalSize(objects)
  {
    if objects != [] {
      var n := |objects| - 1;
      SameTotal(stamped[..n], objects[..n], times[..n]);
    }
  }

  /** A summary of the stamped objects shows the objects. */
  lemma SummaryShows(s: Summary, stamped: seq<Stamped>, objects: seq<Object>, times: seq<int>)
    requires Summarises(s, stamped) && IsStamping(stamped, objects, times)
    ensures ShowsSizes(s, objects) && ShowsNewest(s, objects, times)
  {
    SameTotal(stamped, objects, times);
    if exists i :: 0 <= i < |times| && times[i] > 0 {
      var k :| 0 <= k < |stamped| && NewestAt(stamped, k)
        && s.newest == stamped[k].time && s.newestSize == stamped[k].size;
      assert forall i :: 0 <= i < |times| ==> times[i] == stamped[i].time;
    }
  }

  lemma ModifiedReport(report: Report, objects: seq<Object>, fails: bool)
    requires Reports(report, ByModified(objects), fails)
    ensures ReportsByModification(report, objects, fails)
  {
    if !fails {
      var times := seq(|objects|, i requires 0 <= i < |objects| => objects[i].lastModified);
      SummaryShows(report.summary, ByModified(objects), objects, times);
    }
  }

  lemma CreatedReport(report: Report, objects: seq<Object>, fails: bool)
    requires Reports(report, ByCreated(objects), fails)
    ensures ReportsByCreation(report, objects, fails)
  {
    if !fails {
      var times := seq(|objects|, i requires 0 <= i < |objects| => objects[i].created);
      SummaryShows(report.summary, ByCreated(objects), objects, times);
    }
  }

  lemma ModifiedAppend(a: seq<Object>, b: seq<Object>)
    ensures ByModified(a + b) == ByModified(a) + ByModified(b)
  {
  }

  /** S3: a continuation token that is passed on after every page, and a flag that ends the loop. */
  method CollectS3<Token>(
    list: Option<Token> -> Response<Option<Token>>, ghost pages: seq<seq<Object>>, ghost fails: bool)
    returns (report: Report)
    requires Serves(list, None, pages, fails)
    ensures Reports(report, ByModified(Concat(pages)), fails)
    ensures ReportsByModification(report, Concat(pages), fails)
  {
    var summary := EMPTY;
    var continuationToken: Option<Token> := None;
    var truncated := true;
    ghost var done := 0;
    assert pages[0..] == pages && ByModified(Concat(pages[..0])) == [];
    while truncated
      invariant 0 <= done <= |pages|
      invariant Summarises(summary, ByModified(Concat(pages[..done])))
      invariant truncated ==> Serves(list, continuationToken, pages[done..], fails)
      invariant !truncated ==> done == |pages| && !fails
      decreases |pages| - done, truncated
    {
      var resp := list(continuationToken);
      if resp.Failed? {
        return ListFailed;
      }
      assert pages[..done + 1][..done] == pages[..done] && pages[done..][1..] == pages[done + 1..];
      ModifiedAppend(Concat(pages[..done]), resp.contents);
      summary := AddPage(summary, ByModified(resp.contents), ByModified(Concat(pages[..done])));
      continuationToken := resp.next;
      truncated := resp.truncated;
      done := done + 1;
    }
    assert pages[..|pages|] == pages;
    report := Listed(summary);
    ModifiedReport(report, Concat(pages), fails);
  }

  /** OSS: a marker that is moved only when there is a next page; the bucket itself may be missing. */
  method CollectOSS(
    bucketExists: bool, list: string -> Response<string>, ghost pages: seq<seq<Object>>, ghost fails: bool)
    returns (report: Report)
    requires Serves(list, "", pages, fails)
    ensures Reports(report, ByModified(Concat(pages)), fails || !bucketExists)
    ensures ReportsByModification(report, Concat(pages), fails || !bucketExists)
  {
    var summary := EMPTY;
    if !bucketExists {
      return ListFailed;
    }
    var marker := "";
    ghost var done := 0;
    assert pages[0..] == pages && ByModified(Concat(pages[..0])) == [];
    while true
      invariant 0 <= done <= |pages|
      invariant Summarises(summary, ByModified(Concat(pages[..done])))
      invariant Serves(list, marker, pages[done..], fails)
      decreases |pages| - done
    {
      var lsRes := list(marker);
      if lsRes.Failed? {
        return ListFailed;
      }
      assert pages[..done + 1][..done] == pages[..done] && pages[done..][1..] == pages[done + 1..];
      ModifiedAppend(Concat(pages[..done]), lsRes.contents);
      summary := AddPage(summary, ByModified(lsRes.contents), ByModified(Concat(pages[..done])));
      if lsRes.truncated {
        marker := lsRes.next;
      } else {
        assert pages[..done + 1] == pages;
        break;
      }
      done := done + 1;
    }
    report := Listed(summary);
    ModifiedReport(report, Concat(pages), fails);
  }

  // ---- an iterator ----

  datatype Next = Done | Error | Item(attrs: Object)

  /** The iterator of GCS: it hands out the objects one by one, then ends or fails. */
  class Iterator {
    const objects: seq<Object>
    const fails: bool
    var position: nat

    ghost predicate Valid()
      reads this
    {
      position <= |objects|
    }

    constructor (objects: seq<Object>, fails: bool)
      ensures this.objects == objects && this.fails == fails && position == 0
    {
      this.objects := objects;
      this.fails := fails;
      position := 0;
    }

    method Advance() returns (r: Next)
      requires Valid()
      modifies this
      ensures Valid()
      ensures if old(position) < |objects| then r == Item(objects[old(position)]) && position == old(position) + 1
              else r == (if fails then Error else Done) && position == old(position)
    {
      if position < |objects| {
        r := Item(objects[position]);
        position := position + 1;
      } else {
        r := if fails then Error else Done;
      }
    }
  }

  method CollectGCS(it: Iterator) returns (report: Report)
    requires it.position == 0
    modifies it
    ensures Reports(report, ByCreated(it.objects), it.fails)
    ensures ReportsByCreation(report, it.objects, it.fails)
  {
    var summary := EMPTY;
    assert ByCreated(it.objects)[..0] == [];
    while true
      invariant it.Valid()
      invariant Summarises(summary, ByCreated(it.objects)[..it.position])
      decreases |it.objects| - it.position
    {
      ghost var stamped, position := ByCreated(it.objects), it.position;
      var next := it.Advance();
      if next.Done? {
        assert stamped[..position] == stamped;
        break;
      }
      if next.Error? {
        return ListFailed;
      }
      summary := AddObject(summary, Stamped(next.attrs.size, next.attrs.created), stamped[..position]);
      assert stamped[..position] + [stamped[position]] == stamped[..position + 1];
    }
    report := Listed(summary);
    CreatedReport(report, it.objects, it.fails);
  }

  // ---- paging does not matter ----

  /**
   However a list of objects is cut into pages the paging collectors report the same, and so does the iterating one
   when the objects' two times agree.
   */
  lemma PagingIndependence(
    first: Report, second: Report, third: Report, pages: seq<seq<Object>>, other: seq<seq<Object>>, fails: bool)
    requires Concat(pages) == Concat(other)
    requires Reports(first, ByModified(Concat(pages)), fails) && Reports(second, ByModified(Concat(other)), fails)
    requires Reports(third, ByCreated(Concat(pages)), fails)
    ensures first == second
    ensures (forall o :: o in Concat(pages) ==> o.lastModified == o.created) ==> first == third
  {
    var objects := Concat(pages);
    if !fails {
      SummaryIsUnique(first.summary, second.summary, ByModified(objects));
      if forall o :: o in objects ==> o.lastModified == o.created {
        assert forall i :: 0 <= i < |objects| ==> objects[i] in objects;
        assert ByModified(objects) == ByCreated(objects);
        SummaryIsUnique(first.summary, third.summary, ByModified(objects));
      }
    }
  }
}
