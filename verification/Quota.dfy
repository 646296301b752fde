/** AWS quotas: resolving the quota codes, and the concurrent workers that write the shared cache. */
module Quota {
  import opened Collections
  import ForkJoin

  /** A service quota as listed by AWS; absent strings and numbers read as empty and zero. */
  datatype ServiceQuota = ServiceQuota(code: string, name: string, value: int, unit: string)

  datatype QuotaResult = QuotaResult(name: string, code: string, limit: int, current: int, unit: string)

  type QuotaMap = map<string, ServiceQuota>

  type Cache = map<string, QuotaResult>

  const CODES: seq<string> := [
    "L-43DA4232", "L-7295265B", "L-1216C47A", "L-D18FCD1D", "L-589F43AA", "L-F678F1CE",
    "L-0263D0A3", "L-E9E9831D", "L-FE5A380F", "L-A84ABF80", "L-69A177A2"]

  // ---- resolving the codes ----

  /** What the listing makes of the global map: for a code of interest the last listed quota counts. */
  function Resolved(before: QuotaMap, listing: seq<ServiceQuota>): QuotaMap {
    if listing == [] then before
    else
      var n := |listing| - 1;
      var m := Resolved(before, listing[..n]);
      if listing[n].code in CODES then m[listing[n].code := listing[n]] else m
  }

  /** A code is mapped to a quota with that code. */
  ghost predicate Faithful(quotas: QuotaMap) {
    forall c :: c in quotas ==> c in CODES && quotas[c].code == c
  }

  lemma {:induction false} ResolvedIsFaithful(before: QuotaMap, listing: seq<ServiceQuota>)
    requires Faithful(before)
    ensures Faithful(Resolved(before, listing))
    ensures forall c :: c in before ==> c in Resolved(before, listing)
    ensures forall q :: q in listing && q.code in CODES ==> q.code in Resolved(before, listing)
    ensures forall c :: c in Resolved(before, listing) ==>
      (c in before && Resolved(before, listing)[c] == before[c]) || Resolved(before, listing)[c] in listing
  {
    if listing != [] {
      var n := |listing| - 1;
      ResolvedIsFaithful(before, listing[..n]);
      assert listing == listing[..n] + [listing[n]];
    }
  }

  ghost predicate ListedLast(listing: seq<ServiceQuota>, i: nat) {
    i < |listing| && forall j :: i < j < |listing| ==> listing[j].code != listing[i].code
  }

  ghost predicate NotListed(listing: seq<ServiceQuota>, code: string) {
    forall i :: 0 <= i < |listing| ==> listing[i].code != code
  }

  /** For each code of interest the quota listed last counts; a code that is not listed keeps what it had. */
  ghost predicate IsResolution(quotas: QuotaMap, before: QuotaMap, listing: seq<ServiceQuota>) {
    && (forall i: nat :: ListedLast(listing, i) && listing[i].code in CODES ==>
          listing[i].code in quotas && quotas[listing[i].code] == listing[i])
    && (forall c :: NotListed(listing, c) || c !in CODES ==>
          (c in quotas <==> c in before) && (c in before ==> quotas[c] == before[c]))
  }

  lemma {:induction false} ResolvedLast(before: QuotaMap, listing: seq<ServiceQuota>, i: nat)
    requires ListedLast(listing, i) && listing[i].code in CODES
    ensures var quotas := Resolved(before, listing);
      listing[i].code in quotas && quotas[listing[i].code] == listing[i]
  {
    var n := |listing| - 1;
    if i < n {
      assert listing[n].code != listing[i].code;
      ResolvedLast(before, listing[..n], i);
    }
  }

  lemma {:induction false} ResolvedUnlisted(before: QuotaMap, listing: seq<ServiceQuota>, c: string)
    requires NotListed(listing, c) || c !in CODES
    ensures var quotas := Resolved(before, listing);
      (c in quotas <==> c in before) && (c in before ==> quotas[c] == before[c])
  {
    if listing != [] {
      ResolvedUnlisted(before, listing[..|listing| - 1], c);
    }
  }

  lemma ResolvedIsResolution(before: QuotaMap, listing: seq<ServiceQuota>)
    ensures IsResolution(Resolved(before, listing), before, listing)
  {
    forall i: nat | ListedLast(listing, i) && listing[i].code in CODES
      ensures listing[i].code in Resolved(before, listing) && Resolved(before, listing)[listing[i].code] == listing[i]
    {
      ResolvedLast(before, listing, i);
    }
    forall c | NotListed(listing, c) || c !in CODES
      ensures (c in Resolved(before, listing) <==> c in before)
      ensures c in before ==> Resolved(before, listing)[c] == before[c]
    {
      ResolvedUnlisted(before, listing, c);
    }
  }

  lemma ResolvedNext(before: QuotaMap, listed: seq<ServiceQuota>, page: seq<ServiceQuota>, k: nat)
    requires k < |page|
    ensures var m := Resolved(before, listed + page[..k]);
      Resolved(before, listed + page[..k + 1]) == if page[k].code in CODES then m[page[k].code := page[k]] else m
  {
    assert (listed + page[..k + 1])[..|listed| + k] == listed + page[..k];
  }

  /** The loops over services, pages and quotas; `services` holds the pages of each service. */
  method InitialQuotaList(before: QuotaMap, services: seq<seq<seq<ServiceQuota>>>) returns (quotas: QuotaMap)
    ensures quotas == Resolved(before, Concat(Concat(services)))
    ensures IsResolution(quotas, before, Concat(Concat(services)))
    ensures Faithful(before) ==> Faithful(quotas)
  {
    quotas := before;
    for s := 0 to |services|
      invariant quotas == Resolved(before, Concat(Concat(services[..s])))
    {
      quotas := AddService(before, quotas, services[s], Concat(Concat(services[..s])));
      ConcatNext([], services, s);
      ConcatAppend(Concat(services[..s]), services[s]);
      assert [] + services[..s] == services[..s] && [] + services[..s + 1] == services[..s + 1];
    }
    assert services[..|services|] == services;
    ResolvedIsResolution(before, Concat(Concat(services)));
    if Faithful(before) {
      ResolvedIsFaithful(before, Concat(Concat(services)));
    }
  }

  method AddService(
    ghost before: QuotaMap, sofar: QuotaMap, pages: seq<seq<ServiceQuota>>, ghost listed: seq<ServiceQuota>)
    returns (quotas: QuotaMap)
    requires sofar == Resolved(before, listed)
    ensures quotas == Resolved(before, listed + Concat(pages))
  {
    quotas := sofar;
    assert listed + Concat(pages[..0]) == listed;
    for p := 0 to |pages|
      invariant quotas == Resolved(before, listed + Concat(pages[..p]))
    {
      quotas := AddPage(before, quotas, pages[p], listed + Concat(pages[..p]));
      assert pages[..p + 1][..p] == pages[..p];
      assert listed + Concat(pages[..p + 1]) == listed + Concat(pages[..p]) + pages[p];
    }
    assert pages[..|pages|] == pages;
  }

  method AddPage(ghost before: QuotaMap, sofar: QuotaMap, page: seq<ServiceQuota>, ghost listed: seq<ServiceQuota>)
    returns (quotas: QuotaMap)
    requires sofar == Resolved(before, listed)
    ensures quotas == Resolved(before, listed + page)
  {
    quotas := sofar;
    assert listed + page[..0] == listed;
    for k := 0 to |page|
      invariant quotas == Resolved(before, listed + page[..k])
    {
      ResolvedNext(before, listed, page, k);
      if page[k].code in CODES {
        quotas := quotas[page[k].code := page[k]];
      }
    }
    assert page[..|page|] == page;
  }

  // ---- the workers ----

  /** A worker's write to the cache. The cache's own lock makes a write one step. */
  datatype Write = Write(key: string, result: QuotaResult)

  /** Reading a missing code gives the zero value, whose code is the empty string. */
  function QuotaOf(quotas: QuotaMap, code: string): ServiceQuota {
    if code in quotas then quotas[code] else ServiceQuota("", "", 0, "")
  }

  /** What a worker finds in use; `None` when it leaves without writing. */
  type Usage = string -> Option<int>

  function WriteOf(quotas: QuotaMap, code: string, current: int): Write {
    var q := QuotaOf(quotas, code);
    Write(q.code, QuotaResult(q.name, q.code, q.value, current, q.unit))
  }

  ghost function WorkerBlocks(quotas: QuotaMap, usage: Usage, code: string): (blocks: seq<seq<Write>>)
    ensures |blocks| <= 1
  {
    match usage(code)
    case None => []
    case Some(current) => [[WriteOf(quotas, code, current)]]
  }

  ghost function Work(quotas: QuotaMap, usage: Usage): (work: seq<seq<seq<Write>>>)
    ensures |work| == |CODES|
  {
    seq(|CODES|, i requires 0 <= i < |CODES| => WorkerBlocks(quotas, usage, CODES[i]))
  }

  function Stored(cache: Cache, writes: seq<Write>): Cache {
    if writes == [] then cache
    else
      var n := |writes| - 1;
      Stored(cache, writes[..n])[writes[n].key := writes[n].result]
  }

  /** The cache when Scrape returns. */
  ghost function CacheAfter(cache: Cache, work: seq<seq<seq<Write>>>, schedule: seq<ForkJoin.Action>): Cache
    requires ForkJoin.Complete(ForkJoin.Flat(work), schedule)
  {
    Stored(cache, ForkJoin.Output(ForkJoin.Flat(work), schedule))
  }

  /** Writes under one key agree. */
  ghost predicate Consistent(writes: seq<Write>) {
    forall v, w :: v in writes && w in writes && v.key == w.key ==> v.result == w.result
  }

  lemma {:induction false} StoredConsistently(cache: Cache, writes: seq<Write>)
    requires Consistent(writes)
    ensures forall w :: w in writes ==> w.key in Stored(cache, writes) && Stored(cache, writes)[w.key] == w.result
    ensures forall key :: (forall w :: w in writes ==> w.key != key) ==>
      (key in Stored(cache, writes) <==> key in cache) && (key in cache ==> Stored(cache, writes)[key] == cache[key])
  {
    if writes != [] {
      var n := |writes| - 1;
      assert writes == writes[..n] + [writes[n]];
      assert Consistent(writes[..n]) by {
        assert forall w :: w in writes[..n] ==> w in writes;
      }
      StoredConsistently(cache, writes[..n]);
    }
  }

  lemma ConsistentWritesCommute(cache: Cache, a: seq<Write>, b: seq<Write>)
    requires Consistent(a) && Permutation(a, b)
    ensures Stored(cache, a) == Stored(cache, b)
  {
    forall w ensures w in a <==> w in b {
      PermutationMember(a, b, w);
    }
    StoredConsistently(cache, a);
    StoredConsistently(cache, b);
    forall key ensures key in Stored(cache, a) <==> key in Stored(cache, b) {
      if w :| w in a && w.key == key {
        assert w in b;
      }
    }
    forall key | key in Stored(cache, a) ensures Stored(cache, a)[key] == Stored(cache, b)[key] {
      if w :| w in a && w.key == key {
        assert w in b;
      }
    }
  }

  lemma LastTwoInOrder(work: seq<seq<seq<Write>>>, i: nat, j: nat)
    requires i < |work| && j < |work| && i != j
    ensures ForkJoin.IsOrder(work, ForkJoin.Except(|work|, {i, j}) + [i, j])
  {
    var others := ForkJoin.Except(|work|, {i, j});
    var order := others + [i, j];
    forall k | 0 <= k < |others| ensures others[k] < |work| && others[k] != i && others[k] != j {
      assert others[k] in others;
    }
    assert order[|others|] == i && order[|others| + 1] == j;
    forall k: nat | k < |work| ensures k in order {
      assert k == i || k == j || k in others;
    }
  }

  lemma {:induction false} StoredAppend(cache: Cache, writes: seq<Write>, w: Write)
    ensures Stored(cache, writes + [w]) == Stored(cache, writes)[w.key := w.result]
  {
    assert (writes + [w])[..|writes|] == writes;
  }

  /** A schedule in which worker `j` writes last. */
  lemma WritesLast(cache: Cache, work: seq<seq<seq<Write>>>, i: nat, j: nat, w: Write)
    returns (schedule: seq<ForkJoin.Action>)
    requires i < |work| && j < |work| && i != j && work[j] == [[w]]
    ensures ForkJoin.Complete(ForkJoin.Flat(work), schedule)
    ensures w.key in CacheAfter(cache, work, schedule) && CacheAfter(cache, work, schedule)[w.key] == w.result
  {
    var order := ForkJoin.Except(|work|, {i, j}) + [i, j];
    LastTwoInOrder(work, i, j);
    schedule := ForkJoin.EveryOrderHappens(work, order);
    var n := |order| - 1;
    var before := ForkJoin.BlocksIn(work, order[..n]);
    ConcatAppend(before, [[w]]);
    ConcatSingles([w]);
    assert Singles([w]) == [[w]];
    StoredAppend(cache, Concat(before), w);
  }

  ghost function AllWrites(work: seq<seq<seq<Write>>>): seq<Write> {
    Concat(Concat(work))
  }

  /** The worker that makes a write makes no other. */
  lemma WriterOf(work: seq<seq<seq<Write>>>, w: Write) returns (i: nat)
    requires forall k :: 0 <= k < |work| ==> |work[k]| <= 1 && forall b :: b in work[k] ==> |b| == 1
    requires w in AllWrites(work)
    ensures i < |work| && work[i] == [[w]]
  {
    var at := InConcat(Concat(work), w);
    var block := Concat(work)[at];
    i := InConcat(work, block);
    assert work[i] == [block] && block == [w];
  }

  /**
   The cache at the end is independent of the schedule if and only if the workers' writes under one key agree.
   */
  lemma CacheIndependence(cache: Cache, work: seq<seq<seq<Write>>>)
    requires forall k :: 0 <= k < |work| ==> |work[k]| <= 1 && forall b :: b in work[k] ==> |b| == 1
    ensures (forall s, t :: ForkJoin.Complete(ForkJoin.Flat(work), s) && ForkJoin.Complete(ForkJoin.Flat(work), t) ==>
              CacheAfter(cache, work, s) == CacheAfter(cache, work, t))
       <==> Consistent(AllWrites(work))
  {
    if Consistent(AllWrites(work)) {
      forall s, t | ForkJoin.Complete(ForkJoin.Flat(work), s) && ForkJoin.Complete(ForkJoin.Flat(work), t)
        ensures CacheAfter(cache, work, s) == CacheAfter(cache, work, t)
      {
        OutputIsAllWrites(work, s);
        OutputIsAllWrites(work, t);
        ConsistentWritesCommute(cache, AllWrites(work), ForkJoin.Output(ForkJoin.Flat(work), s));
        ConsistentWritesCommute(cache, AllWrites(work), ForkJoin.Output(ForkJoin.Flat(work), t));
      }
    } else {
      var v, w :| v in AllWrites(work) && w in AllWrites(work) && v.key == w.key && v.result != w.result;
      var i := WriterOf(work, v);
      var j := WriterOf(work, w);
      var s := WritesLast(cache, work, j, i, v);
      var t := WritesLast(cache, work, i, j, w);
      assert CacheAfter(cache, work, s) != CacheAfter(cache, work, t);
    }
  }

  lemma OutputIsAllWrites(work: seq<seq<seq<Write>>>, schedule: seq<ForkJoin.Action>)
    requires ForkJoin.Complete(ForkJoin.Flat(work), schedule)
    ensures Permutation(AllWrites(work), ForkJoin.Output(ForkJoin.Flat(work), schedule))
  {
    ForkJoin.Conservation(ForkJoin.Flat(work), schedule);
    ForkJoin.FlatBlocks(work);
  }

  // ---- resolved and unresolved codes ----

  /** Two codes that AWS does not list: both read the zero value, and so write under the empty key. */
  ghost predicate TwoMissing(quotas: QuotaMap) {
    exists i, j :: 0 <= i < j < |CODES| && CODES[i] !in quotas && CODES[j] !in quotas
  }

  lemma WorkShape(quotas: QuotaMap, usage: Usage)
    ensures var work := Work(quotas, usage);
      forall k :: 0 <= k < |work| ==> |work[k]| <= 1 && forall b :: b in work[k] ==> |b| == 1
  {
  }

  lemma WritesOfWork(quotas: QuotaMap, usage: Usage, w: Write)
    ensures w in AllWrites(Work(quotas, usage))
       <==> exists i :: 0 <= i < |CODES| && usage(CODES[i]).Some?
                && w == WriteOf(quotas, CODES[i], usage(CODES[i]).value)
  {
    var work := Work(quotas, usage);
    WorkShape(quotas, usage);
    if w in AllWrites(work) {
      var i := WriterOf(work, w);
      assert work[i] == WorkerBlocks(quotas, usage, CODES[i]);
      assert work[i][0][0] == w;
    }
    if i :| 0 <= i < |CODES| && usage(CODES[i]).Some? && w == WriteOf(quotas, CODES[i], usage(CODES[i]).value) {
      assert work[i] == WorkerBlocks(quotas, usage, CODES[i]) == [[w]];
      InAllWrites(work, i, w);
    }
  }

  lemma {:induction false} InAllWrites(work: seq<seq<seq<Write>>>, i: nat, w: Write)
    requires i < |work| && work[i] == [[w]]
    ensures w in AllWrites(work)
  {
    var n := |work| - 1;
    ConcatAppend(Concat(work[..n]), work[n]);
    if i < n {
      InAllWrites(work[..n], i, w);
    } else {
      assert [[w]][..0] == [];
      assert Concat([[w]]) == [w];
    }
  }

  lemma WriteKey(quotas: QuotaMap, i: nat)
    requires Faithful(quotas) && i < |CODES|
    ensures QuotaOf(quotas, CODES[i]).code == if CODES[i] in quotas then CODES[i] else ""
  {
  }

  lemma CodesDistinct(i: nat, j: nat)
    requires i < j < |CODES|
    ensures CODES[i] != CODES[j] && CODES[i] != "" && CODES[j] != ""
  {
    assert forall k :: 0 <= k < |CODES| ==> |CODES[k]| == 10;
    assert CODES[i][2..] != CODES[j][2..];
  }

  /** With at most one code missing, the workers write under different keys. */
  lemma KeysDistinct(quotas: QuotaMap, i: nat, j: nat)
    requires Faithful(quotas) && !TwoMissing(quotas) && i < j < |CODES|
    ensures QuotaOf(quotas, CODES[i]).code != QuotaOf(quotas, CODES[j]).code
  {
    WriteKey(quotas, i);
    WriteKey(quotas, j);
    CodesDistinct(i, j);
  }

  lemma ResolvedIsConsistent(quotas: QuotaMap, usage: Usage)
    requires Faithful(quotas) && !TwoMissing(quotas)
    ensures Consistent(AllWrites(Work(quotas, usage)))
  {
    var writes := AllWrites(Work(quotas, usage));
    forall v, w | v in writes && w in writes && v.key == w.key ensures v.result == w.result {
      WritesOfWork(quotas, usage, v);
      WritesOfWork(quotas, usage, w);
      var i: nat :| i < |CODES| && usage(CODES[i]).Some? && v == WriteOf(quotas, CODES[i], usage(CODES[i]).value);
      var j: nat :| j < |CODES| && usage(CODES[j]).Some? && w == WriteOf(quotas, CODES[j], usage(CODES[j]).value);
      if i < j {
        KeysDistinct(quotas, i, j);
      } else if j < i {
        KeysDistinct(quotas, j, i);
      }
    }
  }

  /** The entry of a listed code: its limit, name and unit from the quota, and the usage measured. */
  ghost predicate ShowsQuota(e: QuotaResult, q: ServiceQuota, code: string, current: int) {
    e.code == code && e.limit == q.value && e.current == current && e.name == q.name && e.unit == q.unit
  }

  /** The entry of a missing code shows nothing but the usage. */
  ghost predicate ShowsUsageOnly(e: QuotaResult, current: int) {
    e.code == "" && e.limit == 0 && e.current == current && e.name == "" && e.unit == ""
  }

  /** The worker of the code leaves something under the key. */
  ghost predicate Touches(quotas: QuotaMap, usage: Usage, code: string, key: string) {
    usage(code).Some? && key == if code in quotas then code else ""
  }

  /**
   With at most one code missing, every interleaving ends in the same cache: what was measured for a listed code is
   under the code, with its limit; what was measured for a missing one is under the empty key; and every other key is
   as before.
   */
  lemma ResolvedScrape(cache: Cache, quotas: QuotaMap, usage: Usage, schedule: seq<ForkJoin.Action>)
    requires Faithful(quotas) && !TwoMissing(quotas)
    requires ForkJoin.Complete(ForkJoin.Flat(Work(quotas, usage)), schedule)
    ensures var after := CacheAfter(cache, Work(quotas, usage), schedule);
      && (forall c :: c in CODES && c in quotas && usage(c).Some? ==>
            c in after && ShowsQuota(after[c], quotas[c], c, usage(c).value))
      && (forall c :: c in CODES && c !in quotas && usage(c).Some? ==>
            "" in after && ShowsUsageOnly(after[""], usage(c).value))
      && (forall key :: (forall c :: c in CODES ==> !Touches(quotas, usage, c, key)) ==>
            (key in after <==> key in cache) && (key in cache ==> after[key] == cache[key]))
  {
    var work := Work(quotas, usage);
    var writes, output := AllWrites(work), ForkJoin.Output(ForkJoin.Flat(work), schedule);
    OutputIsAllWrites(work, schedule);
    ResolvedIsConsistent(quotas, usage);
    ConsistentWritesCommute(cache, writes, output);
    StoredConsistently(cache, writes);
    forall c | c in CODES && usage(c).Some? ensures WriteOf(quotas, c, usage(c).value) in writes {
      var i :| 0 <= i < |CODES| && CODES[i] == c;
      WritesOfWork(quotas, usage, WriteOf(quotas, c, usage(c).value));
    }
    forall w | w in writes ensures exists c :: c in CODES && Touches(quotas, usage, c, w.key) {
      WritesOfWork(quotas, usage, w);
      var i: nat :| i < |CODES| && usage(CODES[i]).Some? && w == WriteOf(quotas, CODES[i], usage(CODES[i]).value);
      WriteKey(quotas, i);
      assert CODES[i] in CODES && Touches(quotas, usage, CODES[i], w.key);
    }
  }

  /** All runs of all workers with these measurements end in the same cache. */
  ghost predicate OneCache(cache: Cache, quotas: QuotaMap, usage: Usage) {
    var work := Work(quotas, usage);
    forall s, t :: ForkJoin.Complete(ForkJoin.Flat(work), s) && ForkJoin.Complete(ForkJoin.Flat(work), t) ==>
      CacheAfter(cache, work, s) == CacheAfter(cache, work, t)
  }

  /** Two missing codes with different readings: the schedule decides what the empty key holds. */
  lemma UnresolvedCodesCollide(cache: Cache, quotas: QuotaMap, usage: Usage, i: nat, j: nat)
    requires i < j < |CODES| && CODES[i] !in quotas && CODES[j] !in quotas
    requires usage(CODES[i]).Some? && usage(CODES[j]).Some? && usage(CODES[i]) != usage(CODES[j])
    ensures !OneCache(cache, quotas, usage)
  {
    var work := Work(quotas, usage);
    WorkShape(quotas, usage);
    var v, w := WriteOf(quotas, CODES[i], usage(CODES[i]).value), WriteOf(quotas, CODES[j], usage(CODES[j]).value);
    InAllWrites(work, i, v);
    InAllWrites(work, j, w);
    assert v.key == w.key == "" && v.result != w.result;
    CacheIndependence(cache, work);
  }

  /**
   What a caller can check before the workers start: whatever they are going to measure, all schedules end in one
   cache if and only if at most one code is missing. (A worker of the first three codes reads its quota's usage
   metric first, which a missing quota does not have; that ends the process, so these three are taken as listed.)
   */
  lemma ScrapeIndependence(cache: Cache, quotas: QuotaMap)
    requires Faithful(quotas) && CODES[0] in quotas && CODES[1] in quotas && CODES[2] in quotas
    ensures (forall usage :: OneCache(cache, quotas, usage)) <==> !TwoMissing(quotas)
  {
    if TwoMissing(quotas) {
      var i: nat, j: nat :| i < j < |CODES| && CODES[i] !in quotas && CODES[j] !in quotas;
      var usage: Usage := (code: string) => Some(if code == CODES[i] then 0 else 1);
      CodesDistinct(i, j);
      UnresolvedCodesCollide(cache, quotas, usage, i, j);
    } else {
      forall usage ensures OneCache(cache, quotas, usage) {
        ResolvedIsConsistent(quotas, usage);
        WorkShape(quotas, usage);
        CacheIndependence(cache, Work(quotas, usage));
      }
    }
  }
}
