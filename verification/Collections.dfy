/** Sequences, concatenation and permutations, shared by the other modules. */
module Collections {

  datatype Option<+T> = None | Some(value: T)

  /** All blocks of `ss`, one after the other. */
  function Concat<T>(ss: seq<seq<T>>): seq<T> {
    if ss == [] then [] else Concat(ss[..|ss| - 1]) + ss[|ss| - 1]
  }

  /** `f` applied to every element, the results one after the other. */
  function FlatMap<T, U>(f: T -> seq<U>, s: seq<T>): seq<U> {
    if s == [] then [] else FlatMap(f, s[..|s| - 1]) + f(s[|s| - 1])
  }

  ghost predicate Permutation<T>(a: seq<T>, b: seq<T>) {
    multiset(a) == multiset(b)
  }

  ghost predicate Distinct<T>(s: seq<T>) {
    forall i, j :: 0 <= i < j < |s| ==> s[i] != s[j]
  }

  /** Every element as a block of its own. */
  ghost function Singles<T>(s: seq<T>): (r: seq<seq<T>>)
    ensures |r| == |s|
  {
    seq(|s|, i requires 0 <= i < |s| => [s[i]])
  }

  lemma {:induction false} ConcatSingles<T>(s: seq<T>)
    ensures Concat(Singles(s)) == s
  {
    if s != [] {
      var n := |s| - 1;
      ConcatSingles(s[..n]);
      assert Singles(s)[..n] == Singles(s[..n]);
    }
  }

  lemma ConcatOne<T>(s: seq<T>)
    ensures Concat([s]) == s
  {
    assert [s][..0] == [];
  }

  lemma {:induction false} ConcatAppend<T>(a: seq<seq<T>>, b: seq<seq<T>>)
    ensures Concat(a + b) == Concat(a) + Concat(b)
  {
    if b == [] {
      assert a + b == a;
    } else {
      var n := |b| - 1;
      var whole := a + b;
      ConcatAppend(a, b[..n]);
      assert whole[..|whole| - 1] == a + b[..n] && whole[|whole| - 1] == b[n];
      assert Concat(whole) == Concat(a + b[..n]) + b[n];
    }
  }

  lemma ConcatNext<T>(done: seq<seq<T>>, ss: seq<seq<T>>, n: nat)
    requires n < |ss|
    ensures Concat(done + ss[..n + 1]) == Concat(done + ss[..n]) + ss[n]
  {
    assert (done + ss[..n + 1])[..|done| + n] == done + ss[..n];
  }

  lemma {:induction false} FlatMapAppend<T, U>(f: T -> seq<U>, a: seq<T>, b: seq<T>)
    ensures FlatMap(f, a + b) == FlatMap(f, a) + FlatMap(f, b)
  {
    if b == [] {
      assert a + b == a;
    } else {
      var n := |b| - 1;
      FlatMapAppend(f, a, b[..n]);
      assert (a + b)[..|a + b| - 1] == a + b[..n];
    }
  }

  lemma TakeNext<T>(s: seq<T>, n: nat)
    requires n < |s|
    ensures s[..n + 1] == s[..n] + [s[n]] && s[..n + 1][..n] == s[..n]
  {
  }

  lemma FlatMapNext<T, U>(f: T -> seq<U>, s: seq<T>, n: nat)
    requires n < |s|
    ensures FlatMap(f, s[..n + 1]) == FlatMap(f, s[..n]) + f(s[n])
  {
    assert s[..n + 1][..n] == s[..n];
  }

  lemma {:induction false} InFlatMap<T, U>(f: T -> seq<U>, s: seq<T>, y: U) returns (x: T)
    requires y in FlatMap(f, s)
    ensures x in s && y in f(x)
  {
    var n := |s| - 1;
    if y in f(s[n]) {
      x := s[n];
    } else {
      x := InFlatMap(f, s[..n], y);
    }
  }

  lemma FlatMapAfter<T, U>(before: seq<U>, f: T -> seq<U>, s: seq<T>, n: nat)
    requires n < |s|
    ensures before + FlatMap(f, s[..n + 1]) == before + FlatMap(f, s[..n]) + f(s[n])
  {
    FlatMapNext(f, s, n);
  }

  lemma {:induction false} OneEach<T, U>(f: T -> seq<U>, s: seq<T>, t: seq<U>)
    requires |s| == |t| && forall i :: 0 <= i < |s| ==> f(s[i]) == [t[i]]
    ensures FlatMap(f, s) == t
  {
    if s != [] {
      OneEach(f, s[..|s| - 1], t[..|t| - 1]);
    }
  }

  lemma InAppend<T>(a: seq<T>, b: seq<T>, x: T)
    ensures x in a + b <==> x in a || x in b
  {
  }

  lemma {:induction false} ToFlatMap<T, U>(f: T -> seq<U>, s: seq<T>, x: T, y: U)
    requires x in s && y in f(x)
    ensures y in FlatMap(f, s)
  {
    var n := |s| - 1;
    if s[n] != x {
      assert s == s[..n] + [s[n]];
      ToFlatMap(f, s[..n], x, y);
    }
  }

  lemma {:induction false} InConcat<T>(ss: seq<seq<T>>, y: T) returns (i: nat)
    requires y in Concat(ss)
    ensures i < |ss| && y in ss[i]
  {
    var n := |ss| - 1;
    if y in ss[n] {
      i := n;
    } else {
      i := InConcat(ss[..n], y);
    }
  }

  lemma {:induction false} PartInConcat<T>(ss: seq<seq<T>>, i: nat, k: nat)
    requires i < |ss| && k < |ss[i]|
    ensures ss[i][k] in Concat(ss)
  {
    if i < |ss| - 1 {
      PartInConcat(ss[..|ss| - 1], i, k);
    }
  }

  lemma FlatMapOne<T, U>(f: T -> seq<U>, x: T)
    ensures FlatMap(f, [x]) == f(x)
  {
    assert [x][..0] == [];
  }

  lemma {:induction false} FlatMapConcat<T, U>(f: T -> seq<U>, ss: seq<seq<T>>)
    ensures FlatMap(f, Concat(ss)) == Concat(seq(|ss|, i requires 0 <= i < |ss| => FlatMap(f, ss[i])))
  {
    if ss != [] {
      var n := |ss| - 1;
      FlatMapConcat(f, ss[..n]);
      FlatMapAppend(f, Concat(ss[..n]), ss[n]);
      var parts := seq(|ss|, i requires 0 <= i < |ss| => FlatMap(f, ss[i]));
      assert parts[..n] == seq(n, i requires 0 <= i < n => FlatMap(f, ss[..n][i]));
    }
  }

  lemma {:induction false} FlatMapSame<T, U>(f: T -> seq<U>, g: T -> seq<U>, s: seq<T>)
    requires forall x :: x in s ==> f(x) == g(x)
    ensures FlatMap(f, s) == FlatMap(g, s)
  {
    if s != [] {
      FlatMapSame(f, g, s[..|s| - 1]);
    }
  }

  /** Mapping two functions that agree up to reordering gives results that agree up to reordering. */
  lemma {:induction false} FlatMapAlike<T, U>(f: T -> seq<U>, g: T -> seq<U>, s: seq<T>)
    requires forall x :: x in s ==> Permutation(f(x), g(x))
    ensures Permutation(FlatMap(f, s), FlatMap(g, s))
  {
    if s != [] {
      var n := |s| - 1;
      assert s[n] in s;
      FlatMapAlike(f, g, s[..n]);
    }
  }

  lemma FlatMapTwice<T, U, V>(f: T -> seq<U>, g: U -> seq<V>, h: T -> seq<V>, s: seq<T>)
    requires forall x :: x in s ==> FlatMap(g, f(x)) == h(x)
    ensures FlatMap(g, FlatMap(f, s)) == FlatMap(h, s)
  {
    if s != [] {
      var n := |s| - 1;
      FlatMapTwice(f, g, h, s[..n]);
      FlatMapAppend(g, FlatMap(f, s[..n]), f(s[n]));
      assert s[n] in s;
    }
  }

  /** The order of the argument does not matter up to the order of the result. */
  lemma {:induction false} FlatMapPermuted<T, U>(f: T -> seq<U>, a: seq<T>, b: seq<T>)
    requires Permutation(a, b)
    ensures Permutation(FlatMap(f, a), FlatMap(f, b))
  {
    if a == [] {
      assert |b| == |multiset(b)| == 0;
    } else {
      var n := |a| - 1;
      var front, back := WithoutLast(a, b);
      FlatMapPermuted(f, a[..n], front + back);
      FlatMapInserted(f, front, a[n], back);
    }
  }

  /** The last element of `a` divides a permutation of `a`; the parts together are a permutation of the rest of `a`. */
  lemma WithoutLast<T>(a: seq<T>, b: seq<T>) returns (front: seq<T>, back: seq<T>)
    requires a != [] && Permutation(a, b)
    ensures b == front + [a[|a| - 1]] + back && Permutation(a[..|a| - 1], front + back)
  {
    var n := |a| - 1;
    PermutationMember(a, b, a[n]);
    var j :| 0 <= j < |b| && b[j] == a[n];
    front, back := b[..j], b[j + 1..];
    assert a == a[..n] + [a[n]];
    assert b == front + [a[n]] + back;
    Cancelled(a[..n], a[n], front, back);
  }

  lemma Cancelled<T>(rest: seq<T>, x: T, front: seq<T>, back: seq<T>)
    requires Permutation(rest + [x], front + [x] + back)
    ensures Permutation(rest, front + back)
  {
    var one := multiset{x};
    MultisetInserted(front, x, back);
    assert multiset(rest + [x]) == multiset(rest) + one;
    assert multiset(rest) == (multiset(rest) + one) - one;
    assert multiset(front + back) == (multiset(front + back) + one) - one;
  }

  lemma MultisetInserted<T>(front: seq<T>, x: T, back: seq<T>)
    ensures multiset(front + [x] + back) == multiset(front + back) + multiset{x}
  {
    assert multiset(front + [x] + back) == multiset(front) + multiset{x} + multiset(back);
  }

  lemma FlatMapInserted<T, U>(f: T -> seq<U>, front: seq<T>, x: T, back: seq<T>)
    ensures multiset(FlatMap(f, front + [x] + back)) == multiset(FlatMap(f, front + back)) + multiset(f(x))
  {
    FlatMapAppend(f, front + [x], back);
    FlatMapAppend(f, front, [x]);
    FlatMapOne(f, x);
    FlatMapAppend(f, front, back);
  }

  lemma {:induction false} ConcatPermuted<T>(a: seq<seq<T>>, b: seq<seq<T>>)
    requires Permutation(a, b)
    ensures Permutation(Concat(a), Concat(b))
  {
    var same := (s: seq<T>) => s;
    FlatMapPermuted(same, a, b);
    ConcatIsFlatMap(same, a);
    ConcatIsFlatMap(same, b);
  }

  lemma {:induction false} ConcatIsFlatMap<T>(same: seq<T> -> seq<T>, ss: seq<seq<T>>)
    requires forall s :: same(s) == s
    ensures Concat(ss) == FlatMap(same, ss)
  {
    if ss != [] {
      ConcatIsFlatMap(same, ss[..|ss| - 1]);
    }
  }

  /** Blockwise permutations give a permutation of the whole. */
  lemma {:induction false} ConcatAlike<T>(a: seq<seq<T>>, b: seq<seq<T>>)
    requires |a| == |b|
    requires forall i :: 0 <= i < |a| ==> Permutation(a[i], b[i])
    ensures Permutation(Concat(a), Concat(b))
  {
    if a != [] {
      var n := |a| - 1;
      assert Permutation(a[n], b[n]);
      ConcatAlike(a[..n], b[..n]);
    }
  }

  /** Mapping the whole of some blocks, where each block is mapped to its reference up to order. */
  lemma MappedBlocksAlike<T, U>(f: T -> seq<U>, blocks: seq<seq<T>>, reference: seq<seq<U>>)
    requires |blocks| == |reference|
    requires forall k :: 0 <= k < |blocks| ==> Permutation(FlatMap(f, blocks[k]), reference[k])
    ensures Permutation(FlatMap(f, Concat(blocks)), Concat(reference))
  {
    FlatMapConcat(f, blocks);
    ConcatAlike(seq(|blocks|, k requires 0 <= k < |blocks| => FlatMap(f, blocks[k])), reference);
  }

  /** How often `x` occurs in `s`. */
  ghost function Times<T>(x: T, s: seq<T>): nat {
    multiset(s)[x]
  }

  lemma TimesAppend<T>(x: T, a: seq<T>, b: seq<T>)
    ensures Times(x, a + b) == Times(x, a) + Times(x, b)
  {
    assert multiset(a + b) == multiset(a) + multiset(b);
  }

  /** When `f` keeps `p` copies of `x` and makes none out of anything else. */
  lemma {:induction false} FlatMapTimes<T>(f: T -> seq<T>, s: seq<T>, x: T, p: nat)
    requires forall y :: y in s ==> Times(x, f(y)) == if x == y then p else 0
    ensures Times(x, FlatMap(f, s)) == Times(x, s) * p
  {
    if s != [] {
      var n := |s| - 1;
      TimesLast(x, s);
      assert s[n] in s;
      FlatMapTimes(f, s[..n], x, p);
      TimesAppend(x, FlatMap(f, s[..n]), f(s[n]));
      if x == s[n] {
        OneMore(Times(x, s[..n]), p);
      }
    }
  }

  lemma TimesLast<T>(x: T, s: seq<T>)
    requires s != []
    ensures Times(x, s) == Times(x, s[..|s| - 1]) + if x == s[|s| - 1] then 1 else 0
  {
    assert s == s[..|s| - 1] + [s[|s| - 1]];
  }

  lemma OneMore(times: nat, p: nat)
    ensures (times + 1) * p == times * p + p
  {
  }

  /** The positions that `f` maps to `y` alone. */
  ghost function Mapped<T, U>(f: T -> seq<U>, s: seq<T>, y: U, n: nat): set<nat>
    requires n <= |s|
  {
    set i: nat | i < n && f(s[i]) == [y]
  }

  lemma MappedNext<T, U>(f: T -> seq<U>, s: seq<T>, y: U, n: nat)
    requires n < |s|
    ensures |Mapped(f, s, y, n + 1)| == |Mapped(f, s, y, n)| + if f(s[n]) == [y] then 1 else 0
  {
    var before := Mapped(f, s, y, n);
    if f(s[n]) == [y] {
      assert Mapped(f, s, y, n + 1) == before + {n};
    } else {
      assert Mapped(f, s, y, n + 1) == before;
    }
  }

  /** When `f` makes at most one of each element, what it makes is counted by position. */
  lemma {:induction false} TimesByPosition<T, U>(f: T -> seq<U>, s: seq<T>, y: U, n: nat)
    requires n <= |s| && forall i :: 0 <= i < |s| ==> |f(s[i])| <= 1
    ensures Times(y, FlatMap(f, s[..n])) == |Mapped(f, s, y, n)|
  {
    if n == 0 {
      assert Mapped(f, s, y, 0) == {};
    } else {
      TimesByPosition(f, s, y, n - 1);
      FlatMapNext(f, s, n - 1);
      TimesAppend(y, FlatMap(f, s[..n - 1]), f(s[n - 1]));
      MappedNext(f, s, y, n - 1);
      TimesOfOne(f(s[n - 1]), y);
    }
  }

  lemma TimesOfOne<T>(s: seq<T>, x: T)
    requires |s| <= 1
    ensures Times(x, s) == if s == [x] then 1 else 0
  {
    if s != [] {
      assert s == [s[0]];
    }
  }

  lemma TimesIn<T>(x: T, s: seq<T>)
    ensures x in s <==> Times(x, s) > 0
  {
    assert x in s <==> x in multiset(s);
  }

  ghost function Union<T>(parts: seq<multiset<T>>): multiset<T> {
    if parts == [] then multiset{} else Union(parts[..|parts| - 1]) + parts[|parts| - 1]
  }

  lemma {:induction false} UnionUpdate<T>(parts: seq<multiset<T>>, i: nat, more: multiset<T>)
    requires i < |parts|
    ensures Union(parts[i := parts[i] + more]) == Union(parts) + more
  {
    var n := |parts| - 1;
    var grown := parts[i := parts[i] + more];
    if i == n {
      assert grown[..n] == parts[..n];
    } else {
      assert grown[..n] == parts[..n][i := parts[i] + more];
      UnionUpdate(parts[..n], i, more);
    }
  }

  lemma PermutationLength<T>(a: seq<T>, b: seq<T>)
    requires Permutation(a, b)
    ensures |a| == |b|
  {
    assert |a| == |multiset(a)| == |multiset(b)| == |b|;
  }

  lemma PermutationMember<T>(a: seq<T>, b: seq<T>, x: T)
    requires Permutation(a, b)
    ensures x in a <==> x in b
  {
    assert x in a <==> x in multiset(a);
    assert x in b <==> x in multiset(b);
  }
}
