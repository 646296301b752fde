/**
 Which resource a metric belongs to, as a function of the order in which the resources were found: the first
 dimension that matches and the first expression that captures its value decide, and among the resources from
 which that expression captures it the one found first.
 */
module Owners {
  import opened Collections
  import opened Resources
  import opened Index
  import ForkJoin

  /** Some group of `p` has the dimension's name and captures the dimension's value in the resource's ARN. */
  ghost predicate Captures(p: Pattern, d: Dimension, r: Resource)
    requires p.Valid()
  {
    && p.capture(r.arn).Some?
    && exists g :: 0 <= g < |p.names| && p.names[g] == d.name && p.capture(r.arn).value[g] == d.value
  }

  ghost function FirstCapturing(p: Pattern, d: Dimension, rs: seq<Resource>): Option<Resource>
    requires p.Valid()
  {
    if rs == [] then None
    else
      var n := |rs| - 1;
      var before := FirstCapturing(p, d, rs[..n]);
      if before.Some? then before else if Captures(p, d, rs[n]) then Some(rs[n]) else None
  }

  lemma {:induction false} FirstCapturingFinds(p: Pattern, d: Dimension, rs: seq<Resource>)
    requires p.Valid()
    ensures FirstCapturing(p, d, rs).None? <==> forall r :: r in rs ==> !Captures(p, d, r)
    ensures var first := FirstCapturing(p, d, rs);
      first.Some? ==> first.value in rs && Captures(p, d, first.value)
  {
    if rs != [] {
      var n := |rs| - 1;
      FirstCapturingFinds(p, d, rs[..n]);
      assert rs == rs[..n] + [rs[n]];
    }
  }

  lemma {:induction false} FirstCapturingAppend(p: Pattern, d: Dimension, a: seq<Resource>, b: seq<Resource>)
    requires p.Valid()
    ensures FirstCapturing(p, d, a + b)
         == if FirstCapturing(p, d, a).Some? then FirstCapturing(p, d, a) else FirstCapturing(p, d, b)
  {
    if b == [] {
      assert a + b == a;
    } else {
      var n := |b| - 1;
      FirstCapturingAppend(p, d, a, b[..n]);
      assert (a + b)[..|a + b| - 1] == a + b[..n];
    }
  }

  lemma CapturingPermuted(p: Pattern, d: Dimension, rs: seq<Resource>, ss: seq<Resource>)
    requires p.Valid() && Permutation(rs, ss)
    ensures FirstCapturing(p, d, rs).Some? <==> FirstCapturing(p, d, ss).Some?
  {
    FirstCapturingFinds(p, d, rs);
    FirstCapturingFinds(p, d, ss);
    forall r ensures r in rs <==> r in ss {
      PermutationMember(rs, ss, r);
    }
  }

  // ---- the index decides the same way ----

  lemma {:induction false} FirstEntryOfAppend(a: seq<Entry>, b: seq<Entry>, value: string)
    ensures FirstEntry(a + b, value)
         == if FirstEntry(a, value).Some? then FirstEntry(a, value) else FirstEntry(b, value)
  {
    if a == [] {
      assert a + b == b;
    } else {
      assert (a + b)[1..] == a[1..] + b;
      FirstEntryOfAppend(a[1..], b, value);
    }
  }

  lemma {:induction false} PicksHold(
    names: seq<string>, values: seq<string>, r: Resource, name: string, k: nat, e: Entry)
    requires k <= |names| == |values|
    ensures e in Picks(names, values, r, name, k)
       <==> exists g :: 0 <= g < k && names[g] == name && e == Entry(values[g], r)
  {
    if k > 0 {
      PicksHold(names, values, r, name, k - 1, e);
    }
  }

  lemma CapturedHold(p: Pattern, d: Dimension, r: Resource, e: Entry)
    requires p.Valid() && e.dimVal == d.value
    ensures e in CapturedBy(p, d.name)(r) <==> e.res == r && Captures(p, d, r)
  {
    if p.capture(r.arn).Some? {
      PicksHold(p.names, p.capture(r.arn).value, r, d.name, |p.names|, e);
    }
  }

  /** The entries of one resource lead to that resource, if it captures at all. */
  lemma CaptureIsOwn(p: Pattern, d: Dimension, r: Resource)
    requires p.Valid()
    ensures FirstEntry(CapturedBy(p, d.name)(r), d.value) == if Captures(p, d, r) then Some(r) else None
    ensures Captures(p, d, r) ==> Entry(d.value, r) in CapturedBy(p, d.name)(r)
  {
    var entries := CapturedBy(p, d.name)(r);
    FirstEntryFinds(entries, d.value);
    CapturedHold(p, d, r, Entry(d.value, r));
    if FirstEntry(entries, d.value).Some? {
      CapturedHold(p, d, r, Entry(d.value, FirstEntry(entries, d.value).value));
    }
  }

  lemma {:induction false} FirstEntryOfPattern(p: Pattern, d: Dimension, rs: seq<Resource>)
    requires p.Valid()
    ensures FirstEntry(FlatMap(CapturedBy(p, d.name), rs), d.value) == FirstCapturing(p, d, rs)
  {
    if rs != [] {
      var n := |rs| - 1;
      FirstEntryOfPattern(p, d, rs[..n]);
      FirstEntryOfAppend(FlatMap(CapturedBy(p, d.name), rs[..n]), CapturedBy(p, d.name)(rs[n]), d.value);
      CaptureIsOwn(p, d, rs[n]);
    }
  }

  /** The first expression that captures the value from any resource. */
  ghost function FirstPattern(patterns: seq<Pattern>, d: Dimension, rs: seq<Resource>): (p: Option<Pattern>)
    requires AllValid(patterns)
    ensures p.Some? ==> p.value in patterns && p.value.Valid() && FirstCapturing(p.value, d, rs).Some?
  {
    if patterns == [] then None
    else
      var n := |patterns| - 1;
      var before := FirstPattern(patterns[..n], d, rs);
      if before.Some? then before
      else if FirstCapturing(patterns[n], d, rs).Some? then Some(patterns[n]) else None
  }

  lemma {:induction false} FirstEntryOfAll(patterns: seq<Pattern>, d: Dimension, rs: seq<Resource>)
    requires AllValid(patterns)
    ensures FirstEntry(EntriesUnder(patterns, rs, d.name), d.value)
         == match FirstPattern(patterns, d, rs) case None => None case Some(p) => FirstCapturing(p, d, rs)
  {
    if patterns != [] {
      var n := |patterns| - 1;
      FirstEntryOfAll(patterns[..n], d, rs);
      FirstEntryOfPattern(patterns[n], d, rs);
      FirstEntryOfAppend(
        EntriesUnder(patterns[..n], rs, d.name), FlatMap(CapturedBy(patterns[n], d.name), rs), d.value);
    }
  }

  lemma {:induction false} FirstPatternPermuted(
    patterns: seq<Pattern>, d: Dimension, rs: seq<Resource>, ss: seq<Resource>)
    requires AllValid(patterns) && Permutation(rs, ss)
    ensures FirstPattern(patterns, d, rs) == FirstPattern(patterns, d, ss)
  {
    if patterns != [] {
      var n := |patterns| - 1;
      FirstPatternPermuted(patterns[..n], d, rs, ss);
      CapturingPermuted(patterns[n], d, rs, ss);
    }
  }

  /** The dimension and the expression that decide. */
  datatype Decider = Decider(p: Pattern, d: Dimension)

  ghost function Deciding(patterns: seq<Pattern>, dims: seq<Dimension>, rs: seq<Resource>): (x: Option<Decider>)
    requires AllValid(patterns)
    ensures x.Some? ==>
      x.value.p in patterns && x.value.p.Valid() && FirstCapturing(x.value.p, x.value.d, rs).Some?
  {
    if dims == [] then None
    else
      var p := FirstPattern(patterns, dims[0], rs);
      if p.Some? then Some(Decider(p.value, dims[0])) else Deciding(patterns, dims[1..], rs)
  }

  /** What decides does not depend on the order in which the resources were found. */
  lemma {:induction false} DecidingPermuted(
    patterns: seq<Pattern>, dims: seq<Dimension>, rs: seq<Resource>, ss: seq<Resource>)
    requires AllValid(patterns) && Permutation(rs, ss)
    ensures Deciding(patterns, dims, rs) == Deciding(patterns, dims, ss)
  {
    if dims != [] {
      FirstPatternPermuted(patterns, dims[0], rs, ss);
      DecidingPermuted(patterns, dims[1..], rs, ss);
    }
  }

  /** The first match in the index is the first resource from which the deciding expression captures the value. */
  lemma {:induction false} FirstMatchDecided(patterns: seq<Pattern>, dims: seq<Dimension>, rs: seq<Resource>)
    requires AllValid(patterns)
    ensures FirstMatch(IndexOf(patterns, rs), dims)
         == match Deciding(patterns, dims, rs) case None => None case Some(x) => FirstCapturing(x.p, x.d, rs)
  {
    if dims != [] {
      FirstEntryDecided(patterns, rs, dims[0]);
      FirstMatchDecided(patterns, dims[1..], rs);
    }
  }

  // ---- the owner by position ----

  /** No resource before `q` has its value captured by `p`. */
  ghost predicate NoneBefore(p: Pattern, d: Dimension, rs: seq<Resource>, q: nat)
    requires p.Valid() && q <= |rs|
  {
    forall k :: 0 <= k < q ==> !Captures(p, d, rs[k])
  }

  lemma {:induction false} FirstCapturingAt(p: Pattern, d: Dimension, rs: seq<Resource>, q: nat)
    requires p.Valid() && q < |rs| && Captures(p, d, rs[q]) && NoneBefore(p, d, rs, q)
    ensures FirstCapturing(p, d, rs) == Some(rs[q])
  {
    var n := |rs| - 1;
    if q < n {
      FirstCapturingAt(p, d, rs[..n], q);
    } else {
      FirstCapturingFinds(p, d, rs[..n]);
    }
  }

  lemma {:induction false} FirstPatternAt(patterns: seq<Pattern>, d: Dimension, rs: seq<Resource>, p: nat)
    requires AllValid(patterns) && p < |patterns| && !NoneBefore(patterns[p], d, rs, |rs|)
    requires forall i :: 0 <= i < p ==> NoneBefore(patterns[i], d, rs, |rs|)
    ensures FirstPattern(patterns, d, rs) == Some(patterns[p])
  {
    var n := |patterns| - 1;
    FirstCapturingFinds(patterns[n], d, rs);
    if p < n {
      FirstPatternAt(patterns[..n], d, rs, p);
    } else {
      NoPatternCaptures(patterns[..n], d, rs);
    }
  }

  lemma {:induction false} NoPatternCaptures(patterns: seq<Pattern>, d: Dimension, rs: seq<Resource>)
    requires AllValid(patterns) && forall i :: 0 <= i < |patterns| ==> NoneBefore(patterns[i], d, rs, |rs|)
    ensures FirstPattern(patterns, d, rs) == None
  {
    if patterns != [] {
      var n := |patterns| - 1;
      NoPatternCaptures(patterns[..n], d, rs);
      assert NoneBefore(patterns[n], d, rs, |rs|);
      FirstCapturingFinds(patterns[n], d, rs);
    }
  }

  /** No expression captures the dimension's value from any resource. */
  ghost predicate NothingCaptured(patterns: seq<Pattern>, d: Dimension, rs: seq<Resource>)
    requires AllValid(patterns)
  {
    forall i :: 0 <= i < |patterns| ==> NoneBefore(patterns[i], d, rs, |rs|)
  }

  /**
   Whose a metric is: that of the first resource from which the first expression that captures anything captures the
   value of the first dimension for which anything is captured.
   */
  lemma {:induction false} OwnerByPosition(
    patterns: seq<Pattern>, rs: seq<Resource>, dims: seq<Dimension>, d: nat, p: nat, q: nat)
    requires AllValid(patterns) && d < |dims| && p < |patterns| && q < |rs|
    requires Captures(patterns[p], dims[d], rs[q]) && NoneBefore(patterns[p], dims[d], rs, q)
    requires forall i :: 0 <= i < p ==> NoneBefore(patterns[i], dims[d], rs, |rs|)
    requires forall k :: 0 <= k < d ==> NothingCaptured(patterns, dims[k], rs)
    ensures FirstMatch(IndexOf(patterns, rs), dims) == Some(rs[q])
  {
    if d == 0 {
      FirstPatternAt(patterns, dims[0], rs, p);
      FirstCapturingAt(patterns[p], dims[0], rs, q);
      FirstEntryDecided(patterns, rs, dims[0]);
    } else {
      SkipDimension(patterns, rs, dims);
      OwnerByPosition(patterns, rs, dims[1..], d - 1, p, q);
    }
  }

  lemma FirstEntryDecided(patterns: seq<Pattern>, rs: seq<Resource>, d: Dimension)
    requires AllValid(patterns)
    ensures FirstEntry(Lookup(IndexOf(patterns, rs), d.name), d.value)
         == match FirstPattern(patterns, d, rs) case None => None case Some(p) => FirstCapturing(p, d, rs)
  {
    LookupIsEntriesUnder(patterns, rs, d.name);
    FirstEntryOfAll(patterns, d, rs);
  }

  lemma SkipDimension(patterns: seq<Pattern>, rs: seq<Resource>, dims: seq<Dimension>)
    requires AllValid(patterns) && dims != [] && NothingCaptured(patterns, dims[0], rs)
    ensures FirstMatch(IndexOf(patterns, rs), dims) == FirstMatch(IndexOf(patterns, rs), dims[1..])
  {
    FirstEntryDecided(patterns, rs, dims[0]);
    NoPatternCaptures(patterns, dims[0], rs);
  }

  /** And nobody's if nothing is captured for any dimension. */
  lemma {:induction false} NoOwner(patterns: seq<Pattern>, rs: seq<Resource>, dims: seq<Dimension>)
    requires AllValid(patterns) && forall k :: 0 <= k < |dims| ==> NothingCaptured(patterns, dims[k], rs)
    ensures FirstMatch(IndexOf(patterns, rs), dims) == None
  {
    if dims != [] {
      SkipDimension(patterns, rs, dims);
      NoOwner(patterns, rs, dims[1..]);
    }
  }

  // ---- the first one of a shuffle is the first one of a page ----

  /** What the shuffle has of list `i`. */
  ghost function Seen(lists: seq<seq<Resource>>, picks: seq<nat>, i: nat): seq<Resource>
    requires ForkJoin.PartOfShuffle(ForkJoin.OneByOne(lists), picks) && i < |lists|
  {
    assert |ForkJoin.OneByOne(lists)[i]| == |lists[i]|;
    lists[i][..ForkJoin.Turns(picks, i)]
  }

  ghost predicate FirstOfSome(p: Pattern, d: Dimension, lists: seq<seq<Resource>>, picks: seq<nat>, r: Option<Resource>)
    requires p.Valid() && ForkJoin.PartOfShuffle(ForkJoin.OneByOne(lists), picks)
  {
    if r.None? then forall i: nat :: i < |lists| ==> FirstCapturing(p, d, Seen(lists, picks, i)).None?
    else exists i: nat :: i < |lists| && FirstCapturing(p, d, Seen(lists, picks, i)) == r
  }

  lemma SeenNext(lists: seq<seq<Resource>>, picks: seq<nat>, i: nat)
    requires picks != [] && ForkJoin.PartOfShuffle(ForkJoin.OneByOne(lists), picks) && i < |lists|
    requires ForkJoin.PartOfShuffle(ForkJoin.OneByOne(lists), picks[..|picks| - 1])
    ensures var n := |picks| - 1; var k := ForkJoin.Turns(picks[..n], i);
      if picks[n] == i
      then k < |lists[i]| && Seen(lists, picks, i) == Seen(lists, picks[..n], i) + [lists[i][k]]
      else Seen(lists, picks, i) == Seen(lists, picks[..n], i)
  {
    assert |ForkJoin.OneByOne(lists)[i]| == |lists[i]|;
    assert ForkJoin.Turns(picks, i) <= |lists[i]|;
  }

  lemma NextFirst(p: Pattern, d: Dimension, rs: seq<Resource>, x: Resource)
    requires p.Valid()
    ensures FirstCapturing(p, d, rs + [x])
         == if FirstCapturing(p, d, rs).Some? then FirstCapturing(p, d, rs)
            else if Captures(p, d, x) then Some(x) else None
  {
    assert (rs + [x])[..|rs|] == rs;
  }

  /** What has been first of a list stays first when more of the list is seen. */
  lemma StaysFirst(p: Pattern, d: Dimension, lists: seq<seq<Resource>>, picks: seq<nat>, i: nat)
    requires p.Valid() && picks != [] && ForkJoin.PartOfShuffle(ForkJoin.OneByOne(lists), picks) && i < |lists|
    requires ForkJoin.PartOfShuffle(ForkJoin.OneByOne(lists), picks[..|picks| - 1])
    ensures var n := |picks| - 1; var before := FirstCapturing(p, d, Seen(lists, picks[..n], i));
      before.Some? || picks[n] != i ==> FirstCapturing(p, d, Seen(lists, picks, i)) == before
  {
    var n := |picks| - 1;
    SeenNext(lists, picks, i);
    if picks[n] == i {
      NextFirst(p, d, Seen(lists, picks[..n], i), lists[i][ForkJoin.Turns(picks[..n], i)]);
    }
  }

  lemma {:induction false} FirstOfShuffle(p: Pattern, d: Dimension, lists: seq<seq<Resource>>, picks: seq<nat>)
    requires p.Valid() && ForkJoin.PartOfShuffle(ForkJoin.OneByOne(lists), picks)
    ensures var found := Concat(ForkJoin.Merged(ForkJoin.OneByOne(lists), picks));
      FirstOfSome(p, d, lists, picks, FirstCapturing(p, d, found))
  {
    if picks == [] {
      assert forall i: nat :: i < |lists| ==> Seen(lists, picks, i) == [];
    } else {
      ForkJoin.ShorterPart(ForkJoin.OneByOne(lists), picks);
      FirstOfShuffle(p, d, lists, picks[..|picks| - 1]);
      FirstOfNext(p, d, lists, picks);
    }
  }

  lemma FirstOfNext(p: Pattern, d: Dimension, lists: seq<seq<Resource>>, picks: seq<nat>)
    requires p.Valid() && picks != [] && ForkJoin.PartOfShuffle(ForkJoin.OneByOne(lists), picks)
    requires ForkJoin.PartOfShuffle(ForkJoin.OneByOne(lists), picks[..|picks| - 1])
    requires var before := picks[..|picks| - 1];
      FirstOfSome(p, d, lists, before, FirstCapturing(p, d, Concat(ForkJoin.Merged(ForkJoin.OneByOne(lists), before))))
    ensures FirstOfSome(p, d, lists, picks,
                        FirstCapturing(p, d, Concat(ForkJoin.Merged(ForkJoin.OneByOne(lists), picks))))
  {
    var n := |picks| - 1;
    var before := Concat(ForkJoin.Merged(ForkJoin.OneByOne(lists), picks[..n]));
    var j := picks[n];
    NewestSeen(p, d, lists, picks);
    var x := lists[j][ForkJoin.Turns(picks[..n], j)];
    NextFirst(p, d, before, x);
    forall i: nat | i < |lists|
      ensures var first := FirstCapturing(p, d, Seen(lists, picks[..n], i));
        first.Some? || i != j ==> FirstCapturing(p, d, Seen(lists, picks, i)) == first
    {
      StaysFirst(p, d, lists, picks, i);
    }
    if FirstCapturing(p, d, before).None? {
      NextFirst(p, d, Seen(lists, picks[..n], j), x);
      assert FirstCapturing(p, d, Seen(lists, picks, j)) == FirstCapturing(p, d, before + [x]);
    }
  }

  /** The newest element of the shuffle is the newest of its list, too. */
  lemma NewestSeen(p: Pattern, d: Dimension, lists: seq<seq<Resource>>, picks: seq<nat>)
    requires p.Valid() && picks != [] && ForkJoin.PartOfShuffle(ForkJoin.OneByOne(lists), picks)
    requires ForkJoin.PartOfShuffle(ForkJoin.OneByOne(lists), picks[..|picks| - 1])
    ensures var work, n := ForkJoin.OneByOne(lists), |picks| - 1;
      var before := Concat(ForkJoin.Merged(work, picks[..n]));
      var j, k := picks[n], ForkJoin.Turns(picks[..n], picks[n]);
      && k < |lists[j]| && Concat(ForkJoin.Merged(work, picks)) == before + [lists[j][k]]
      && Seen(lists, picks, j) == Seen(lists, picks[..n], j) + [lists[j][k]]
  {
    var work, n := ForkJoin.OneByOne(lists), |picks| - 1;
    SeenNext(lists, picks, picks[n]);
    ForkJoin.ShorterPart(work, picks);
    var before := ForkJoin.Merged(work, picks[..n]);
    assert ForkJoin.Merged(work, picks)[..n] == before;
  }
}
