/** The index from dimension values to the resources whose ARN they were captured from. */
module Index {
  import opened Collections
  import opened Resources

  /** A dimension of a CloudWatch metric; an absent name or value reads as the empty string. */
  datatype Dimension = Dimension(name: string, value: string)

  /** A captured value and the resource it comes from. */
  datatype Entry = Entry(dimVal: string, res: Resource)

  type DimensionIndex = map<string, seq<Entry>>

  /** A dimension expression: the names of its groups and what they capture in an ARN, if it matches. */
  datatype Pattern = Pattern(names: seq<string>, capture: string -> Option<seq<string>>) {
    ghost predicate Valid() {
      forall arn :: capture(arn).Some? ==> |capture(arn).value| == |names|
    }
  }

  ghost predicate AllValid(patterns: seq<Pattern>) {
    forall i :: 0 <= i < |patterns| ==> patterns[i].Valid()
  }

  /** Reading a missing key of a Go map of slices gives the empty slice. */
  function Lookup(index: DimensionIndex, name: string): seq<Entry> {
    if name in index then index[name] else []
  }

  ghost function NamesOf(patterns: seq<Pattern>): set<string> {
    if patterns == [] then {}
    else
      var n := |patterns| - 1;
      NamesOf(patterns[..n]) + set x | x in patterns[n].names
  }

  /** The values that the first `k` groups capture under one name. */
  ghost function Picks(names: seq<string>, values: seq<string>, r: Resource, name: string, k: nat): seq<Entry>
    requires k <= |names| == |values|
  {
    if k == 0 then []
    else Picks(names, values, r, name, k - 1) + if names[k - 1] == name then [Entry(values[k - 1], r)] else []
  }

  ghost function CapturedBy(p: Pattern, name: string): Resource -> seq<Entry>
    requires p.Valid()
  {
    (r: Resource) =>
      match p.capture(r.arn)
      case None => []
      case Some(values) => if |values| == |p.names| then Picks(p.names, values, r, name, |values|) else []
  }

  /** All entries under one name: expression by expression, resource by resource, group by group. */
  ghost function EntriesUnder(patterns: seq<Pattern>, resources: seq<Resource>, name: string): seq<Entry>
    requires AllValid(patterns)
  {
    if patterns == [] then []
    else
      var n := |patterns| - 1;
      EntriesUnder(patterns[..n], resources, name) + FlatMap(CapturedBy(patterns[n], name), resources)
  }

  ghost function IndexOf(patterns: seq<Pattern>, resources: seq<Resource>): DimensionIndex
    requires AllValid(patterns)
  {
    map name | name in NamesOf(patterns) :: EntriesUnder(patterns, resources, name)
  }

  lemma {:induction false} PicksNothing(names: seq<string>, values: seq<string>, r: Resource, name: string, k: nat)
    requires k <= |names| == |values| && name !in names
    ensures Picks(names, values, r, name, k) == []
  {
    if k > 0 {
      PicksNothing(names, values, r, name, k - 1);
    }
  }

  lemma {:induction false} CapturesNothing(p: Pattern, rs: seq<Resource>, name: string)
    requires p.Valid() && name !in p.names
    ensures FlatMap(CapturedBy(p, name), rs) == []
  {
    if rs != [] {
      CapturesNothing(p, rs[..|rs| - 1], name);
      var c := p.capture(rs[|rs| - 1].arn);
      if c.Some? {
        PicksNothing(p.names, c.value, rs[|rs| - 1], name, |c.value|);
      }
    }
  }

  lemma {:induction false} NothingUnderOtherNames(patterns: seq<Pattern>, resources: seq<Resource>, name: string)
    requires AllValid(patterns) && name !in NamesOf(patterns)
    ensures EntriesUnder(patterns, resources, name) == []
  {
    if patterns != [] {
      var n := |patterns| - 1;
      NothingUnderOtherNames(patterns[..n], resources, name);
      CapturesNothing(patterns[n], resources, name);
    }
  }

  lemma LookupIsEntriesUnder(patterns: seq<Pattern>, resources: seq<Resource>, name: string)
    requires AllValid(patterns)
    ensures Lookup(IndexOf(patterns, resources), name) == EntriesUnder(patterns, resources, name)
  {
    if name !in NamesOf(patterns) {
      NothingUnderOtherNames(patterns, resources, name);
    }
  }

  // ---- what the index holds, and in which order ----

  /** Where a capture comes from: an expression, a resource and a group, by position. */
  datatype Site = Site(p: nat, r: nat, g: nat)

  /** Expressions first, then resources, then groups. */
  ghost predicate Before(a: Site, b: Site) {
    a.p < b.p || (a.p == b.p && (a.r < b.r || (a.r == b.r && a.g < b.g)))
  }

  /** The group at the site has the name, and captures the entry's value in the ARN of the entry's resource. */
  ghost predicate CapturedAt(patterns: seq<Pattern>, rs: seq<Resource>, name: string, s: Site, e: Entry) {
    && s.p < |patterns| && s.r < |rs| && s.g < |patterns[s.p].names| && patterns[s.p].names[s.g] == name
    && var captured := patterns[s.p].capture(rs[s.r].arn);
       captured.Some? && s.g < |captured.value| && e == Entry(captured.value[s.g], rs[s.r])
  }

  /** The entries are the captures at the sites before `bound`, all of them, each once, in the order of the sites. */
  ghost predicate ListsBefore(
    patterns: seq<Pattern>, rs: seq<Resource>, name: string, entries: seq<Entry>, sites: seq<Site>, bound: Site)
  {
    && |sites| == |entries|
    && (forall k :: 0 <= k < |sites| ==> Before(sites[k], bound))
    && (forall k :: 0 <= k < |sites| ==> CapturedAt(patterns, rs, name, sites[k], entries[k]))
    && (forall j, k :: 0 <= j < k < |sites| ==> Before(sites[j], sites[k]))
    && (forall s, e :: CapturedAt(patterns, rs, name, s, e) && Before(s, bound) ==> s in sites)
  }

  /** The entries are exactly the captures under the name, each once, in the order of their sites. */
  ghost predicate HoldsCaptures(patterns: seq<Pattern>, rs: seq<Resource>, name: string, entries: seq<Entry>) {
    exists sites :: ListsBefore(patterns, rs, name, entries, sites, Site(|patterns|, 0, 0))
  }

  /** The bound may move on over sites where nothing is captured. */
  lemma BoundMoves(
    patterns: seq<Pattern>, rs: seq<Resource>, name: string, entries: seq<Entry>, sites: seq<Site>, a: Site, b: Site)
    requires ListsBefore(patterns, rs, name, entries, sites, a) && (a == b || Before(a, b))
    requires forall s, e :: CapturedAt(patterns, rs, name, s, e) && Before(s, b) ==> Before(s, a)
    ensures ListsBefore(patterns, rs, name, entries, sites, b)
  {
  }

  lemma SiteAdded(
    patterns: seq<Pattern>, rs: seq<Resource>, name: string, entries: seq<Entry>, sites: seq<Site>, s: Site, e: Entry)
    requires ListsBefore(patterns, rs, name, entries, sites, s) && CapturedAt(patterns, rs, name, s, e)
    ensures ListsBefore(patterns, rs, name, entries + [e], sites + [s], s.(g := s.g + 1))
  {
    var more, bound := sites + [s], s.(g := s.g + 1);
    forall x, y | CapturedAt(patterns, rs, name, x, y) && Before(x, bound) ensures x in more {
      assert x == s || Before(x, s);
      assert more[|sites|] == s;
    }
  }

  /** The groups of one expression in one ARN. */
  lemma {:induction false} SitesOfGroups(
    patterns: seq<Pattern>, rs: seq<Resource>, name: string, p: nat, r: nat, g: nat,
    before: seq<Entry>, earlier: seq<Site>) returns (sites: seq<Site>)
    requires AllValid(patterns) && p < |patterns| && r < |rs| && g <= |patterns[p].names|
    requires patterns[p].capture(rs[r].arn).Some? && patterns[p].Valid()
    requires ListsBefore(patterns, rs, name, before, earlier, Site(p, r, 0))
    ensures var values := patterns[p].capture(rs[r].arn).value;
      ListsBefore(patterns, rs, name, before + Picks(patterns[p].names, values, rs[r], name, g), sites, Site(p, r, g))
  {
    var names, values := patterns[p].names, patterns[p].capture(rs[r].arn).value;
    if g == 0 {
      sites := earlier;
      assert before + Picks(names, values, rs[r], name, 0) == before;
    } else {
      var most := SitesOfGroups(patterns, rs, name, p, r, g - 1, before, earlier);
      var entries, s := before + Picks(names, values, rs[r], name, g - 1), Site(p, r, g - 1);
      if names[g - 1] == name {
        SiteAdded(patterns, rs, name, entries, most, s, Entry(values[g - 1], rs[r]));
        sites := most + [s];
        assert before + Picks(names, values, rs[r], name, g) == entries + [Entry(values[g - 1], rs[r])];
      } else {
        sites := most;
        BoundMoves(patterns, rs, name, entries, most, s, Site(p, r, g));
        assert before + Picks(names, values, rs[r], name, g) == entries;
      }
    }
  }

  lemma SitesOfResource(
    patterns: seq<Pattern>, rs: seq<Resource>, name: string, p: nat, r: nat,
    before: seq<Entry>, earlier: seq<Site>) returns (sites: seq<Site>)
    requires AllValid(patterns) && p < |patterns| && r < |rs|
    requires ListsBefore(patterns, rs, name, before, earlier, Site(p, r, 0))
    ensures ListsBefore(patterns, rs, name, before + CapturedBy(patterns[p], name)(rs[r]), sites, Site(p, r + 1, 0))
  {
    var captured := patterns[p].capture(rs[r].arn);
    var entries := before + CapturedBy(patterns[p], name)(rs[r]);
    assert patterns[p].Valid();
    if captured.Some? {
      sites := SitesOfGroups(patterns, rs, name, p, r, |patterns[p].names|, before, earlier);
      BoundMoves(patterns, rs, name, entries, sites, Site(p, r, |patterns[p].names|), Site(p, r + 1, 0));
    } else {
      sites := earlier;
      assert entries == before;
      BoundMoves(patterns, rs, name, entries, sites, Site(p, r, 0), Site(p, r + 1, 0));
    }
  }

  lemma {:induction false} SitesOfResources(
    patterns: seq<Pattern>, rs: seq<Resource>, name: string, p: nat, r: nat,
    before: seq<Entry>, earlier: seq<Site>) returns (sites: seq<Site>)
    requires AllValid(patterns) && p < |patterns| && r <= |rs|
    requires ListsBefore(patterns, rs, name, before, earlier, Site(p, 0, 0))
    ensures ListsBefore(patterns, rs, name, before + FlatMap(CapturedBy(patterns[p], name), rs[..r]), sites,
                        Site(p, r, 0))
  {
    var f := CapturedBy(patterns[p], name);
    if r == 0 {
      sites := earlier;
      assert before + FlatMap(f, rs[..0]) == before;
    } else {
      var most := SitesOfResources(patterns, rs, name, p, r - 1, before, earlier);
      sites := SitesOfResource(patterns, rs, name, p, r - 1, before + FlatMap(f, rs[..r - 1]), most);
      FlatMapAfter(before, f, rs, r - 1);
    }
  }

  lemma {:induction false} SitesOfPatterns(patterns: seq<Pattern>, rs: seq<Resource>, name: string, p: nat)
    returns (sites: seq<Site>)
    requires AllValid(patterns) && p <= |patterns|
    ensures ListsBefore(patterns, rs, name, EntriesUnder(patterns[..p], rs, name), sites, Site(p, 0, 0))
  {
    if p == 0 {
      sites := [];
    } else {
      var most := SitesOfPatterns(patterns, rs, name, p - 1);
      var before := EntriesUnder(patterns[..p - 1], rs, name);
      sites := SitesOfResources(patterns, rs, name, p - 1, |rs|, before, most);
      assert rs[..|rs|] == rs && patterns[..p][..p - 1] == patterns[..p - 1];
      BoundMoves(patterns, rs, name, EntriesUnder(patterns[..p], rs, name), sites, Site(p - 1, |rs|, 0), Site(p, 0, 0));
    }
  }

  /** Under every name: all captures, each once, by expression, resource and group. */
  lemma IndexHoldsCaptures(patterns: seq<Pattern>, rs: seq<Resource>, name: string)
    requires AllValid(patterns)
    ensures HoldsCaptures(patterns, rs, name, Lookup(IndexOf(patterns, rs), name))
  {
    var sites := SitesOfPatterns(patterns, rs, name, |patterns|);
    assert patterns[..|patterns|] == patterns;
    LookupIsEntriesUnder(patterns, rs, name);
  }

  lemma {:induction false} NamesAreGroups(patterns: seq<Pattern>, name: string)
    ensures name in NamesOf(patterns) <==> exists p :: 0 <= p < |patterns| && name in patterns[p].names
  {
    if patterns != [] {
      var n := |patterns| - 1;
      NamesAreGroups(patterns[..n], name);
      assert forall p :: 0 <= p < n ==> patterns[..n][p] == patterns[p];
    }
  }

  method GetDimensionsFilter(patterns: seq<Pattern>, resources: seq<Resource>) returns (index: DimensionIndex)
    requires AllValid(patterns)
    ensures index == IndexOf(patterns, resources)
    ensures forall name :: name in index <==> exists p :: 0 <= p < |patterns| && name in patterns[p].names
    ensures forall name :: HoldsCaptures(patterns, resources, name, Lookup(index, name))
  {
    index := map[];
    for p := 0 to |patterns|
      invariant index == IndexOf(patterns[..p], resources)
    {
      ghost var before := index;
      index := AddNames(patterns[p].names, index);
      assert index.Keys == NamesOf(patterns[..p]) + set x | x in patterns[p].names;
      index := AddPattern(patterns[p], resources, index);
      PatternAdded(patterns, p, resources, before, index);
    }
    assert patterns[..|patterns|] == patterns;
    forall name
      ensures name in index <==> exists p :: 0 <= p < |patterns| && name in patterns[p].names
      ensures HoldsCaptures(patterns, resources, name, Lookup(index, name))
    {
      NamesAreGroups(patterns, name);
      IndexHoldsCaptures(patterns, resources, name);
    }
  }

  lemma PatternAdded(
    patterns: seq<Pattern>, p: nat, rs: seq<Resource>, before: DimensionIndex, after: DimensionIndex)
    requires AllValid(patterns) && p < |patterns| && before == IndexOf(patterns[..p], rs)
    requires after.Keys == before.Keys + set x | x in patterns[p].names
    requires forall n :: n in after ==>
      after[n] == Lookup(before, n) + FlatMap(CapturedBy(patterns[p], n), rs)
    ensures after == IndexOf(patterns[..p + 1], rs)
  {
    assert patterns[..p + 1][..p] == patterns[..p];
    forall n | n in after ensures after[n] == EntriesUnder(patterns[..p + 1], rs, n) {
      LookupIsEntriesUnder(patterns[..p], rs, n);
    }
  }

  /** Every group name gets a list, if it has none yet. */
  method AddNames(names: seq<string>, before: DimensionIndex) returns (index: DimensionIndex)
    ensures index.Keys == before.Keys + set x | x in names
    ensures forall n :: n in index ==> index[n] == Lookup(before, n)
  {
    index := before;
    for k := 0 to |names|
      invariant index.Keys == before.Keys + set x | x in names[..k]
      invariant forall n :: n in index ==> index[n] == Lookup(before, n)
    {
      if names[k] !in index {
        index := index[names[k] := []];
      }
      assert names[..k + 1] == names[..k] + [names[k]];
    }
    assert names[..|names|] == names;
  }

  /** The loop over the resources for one expression: its captures go to the end of their lists. */
  method AddPattern(p: Pattern, resources: seq<Resource>, before: DimensionIndex) returns (index: DimensionIndex)
    requires p.Valid() && forall x :: x in p.names ==> x in before
    ensures index.Keys == before.Keys
    ensures forall n :: n in before ==> index[n] == before[n] + FlatMap(CapturedBy(p, n), resources)
  {
    index := before;
    for q := 0 to |resources|
      invariant Extends(p, before, index, resources[..q])
    {
      ghost var previous := index;
      index := AddResource(p, resources[q], index);
      ExtendsNext(p, before, previous, index, resources, q);
    }
    assert resources[..|resources|] == resources;
    forall n | n in before ensures index[n] == before[n] + FlatMap(CapturedBy(p, n), resources) {
      assert ExtendsAt(p, before, index, resources, n);
    }
  }

  /** `index` is `before` with what `p` captures in `rs` at the end of every list. */
  ghost predicate Extends(p: Pattern, before: DimensionIndex, index: DimensionIndex, rs: seq<Resource>)
    requires p.Valid()
  {
    index.Keys == before.Keys && forall n :: n in before ==> ExtendsAt(p, before, index, rs, n)
  }

  ghost predicate ExtendsAt(p: Pattern, before: DimensionIndex, index: DimensionIndex, rs: seq<Resource>, n: string)
    requires p.Valid() && n in before && n in index
  {
    index[n] == before[n] + FlatMap(CapturedBy(p, n), rs)
  }

  lemma ExtendsNext(
    p: Pattern, before: DimensionIndex, previous: DimensionIndex, index: DimensionIndex, rs: seq<Resource>, q: nat)
    requires p.Valid() && q < |rs| && Extends(p, before, previous, rs[..q])
    requires index.Keys == previous.Keys
    requires forall n :: n in previous ==> index[n] == previous[n] + CapturedBy(p, n)(rs[q])
    ensures Extends(p, before, index, rs[..q + 1])
  {
    forall n | n in before ensures ExtendsAt(p, before, index, rs[..q + 1], n) {
      assert ExtendsAt(p, before, previous, rs[..q], n);
      FlatMapNext(CapturedBy(p, n), rs, q);
    }
  }

  method AddResource(p: Pattern, r: Resource, before: DimensionIndex) returns (index: DimensionIndex)
    requires p.Valid() && forall x :: x in p.names ==> x in before
    ensures index.Keys == before.Keys
    ensures forall n :: n in before ==> index[n] == before[n] + CapturedBy(p, n)(r)
  {
    var captured := p.capture(r.arn);
    if captured.Some? {
      index := AddCaptures(p.names, captured.value, r, before);
    } else {
      index := before;
    }
  }

  method AddCaptures(names: seq<string>, values: seq<string>, r: Resource, before: DimensionIndex)
    returns (index: DimensionIndex)
    requires |names| == |values| && forall x :: x in names ==> x in before
    ensures index.Keys == before.Keys
    ensures forall n :: n in before ==> index[n] == before[n] + Picks(names, values, r, n, |values|)
  {
    index := before;
    for i := 0 to |values|
      invariant index.Keys == before.Keys
      invariant forall n :: n in before ==> index[n] == before[n] + Picks(names, values, r, n, i)
    {
      assert names[i] in before;
      index := index[names[i] := index[names[i]] + [Entry(values[i], r)]];
    }
  }

  // ---- the order of the resources ----

  /** The same entries under every name, in any order. */
  ghost predicate Alike(a: DimensionIndex, b: DimensionIndex) {
    forall name :: Permutation(Lookup(a, name), Lookup(b, name))
  }

  lemma {:induction false} EntriesPermuted(patterns: seq<Pattern>, rs: seq<Resource>, ss: seq<Resource>, name: string)
    requires AllValid(patterns) && Permutation(rs, ss)
    ensures Permutation(EntriesUnder(patterns, rs, name), EntriesUnder(patterns, ss, name))
  {
    if patterns != [] {
      var n := |patterns| - 1;
      EntriesPermuted(patterns[..n], rs, ss, name);
      FlatMapPermuted(CapturedBy(patterns[n], name), rs, ss);
    }
  }

  lemma IndexPermuted(patterns: seq<Pattern>, rs: seq<Resource>, ss: seq<Resource>)
    requires AllValid(patterns) && Permutation(rs, ss)
    ensures Alike(IndexOf(patterns, rs), IndexOf(patterns, ss))
  {
    forall name ensures Permutation(Lookup(IndexOf(patterns, rs), name), Lookup(IndexOf(patterns, ss), name)) {
      EntriesPermuted(patterns, rs, ss, name);
      LookupIsEntriesUnder(patterns, rs, name);
      LookupIsEntriesUnder(patterns, ss, name);
    }
  }

  // ---- which resource a metric belongs to ----

  function FirstEntry(entries: seq<Entry>, value: string): Option<Resource> {
    if entries == [] then None
    else if entries[0].dimVal == value then Some(entries[0].res)
    else FirstEntry(entries[1..], value)
  }

  /** The first match in dimension order, then index order. */
  function FirstMatch(index: DimensionIndex, dims: seq<Dimension>): Option<Resource> {
    if dims == [] then None
    else
      var here := FirstEntry(Lookup(index, dims[0].name), dims[0].value);
      if here.Some? then here else FirstMatch(index, dims[1..])
  }

  ghost predicate Matches(index: DimensionIndex, d: Dimension) {
    exists e :: e in Lookup(index, d.name) && e.dimVal == d.value
  }

  lemma {:induction false} FirstEntryAt(entries: seq<Entry>, value: string, k: nat)
    requires k < |entries| && entries[k].dimVal == value && forall j :: 0 <= j < k ==> entries[j].dimVal != value
    ensures FirstEntry(entries, value) == Some(entries[k].res)
  {
    if k > 0 {
      FirstEntryAt(entries[1..], value, k - 1);
    }
  }

  /** Nothing is found only where there is nothing; what is found is an entry with that value. */
  lemma {:induction false} FirstEntryFinds(entries: seq<Entry>, value: string)
    ensures FirstEntry(entries, value).None? <==> forall e :: e in entries ==> e.dimVal != value
    ensures FirstEntry(entries, value).Some? ==> Entry(value, FirstEntry(entries, value).value) in entries
  {
    if entries != [] {
      FirstEntryFinds(entries[1..], value);
      assert entries == [entries[0]] + entries[1..];
      assert entries[0] in entries;
    }
  }

  lemma FirstEntryIsMatch(index: DimensionIndex, d: Dimension)
    ensures FirstEntry(Lookup(index, d.name), d.value).Some? <==> Matches(index, d)
  {
    FirstEntryFinds(Lookup(index, d.name), d.value);
  }

  lemma {:induction false} FirstMatchFinds(index: DimensionIndex, dims: seq<Dimension>)
    ensures FirstMatch(index, dims).Some? <==> exists d :: d in dims && Matches(index, d)
  {
    if dims != [] {
      FirstMatchFinds(index, dims[1..]);
      FirstEntryIsMatch(index, dims[0]);
      assert dims == [dims[0]] + dims[1..];
      assert dims[0] in dims;
    }
  }

  /** No two resources share a captured value under one dimension name. */
  ghost predicate Unambiguous(index: DimensionIndex) {
    forall name, e, f :: e in Lookup(index, name) && f in Lookup(index, name) && e.dimVal == f.dimVal ==> e.res == f.res
  }
}
