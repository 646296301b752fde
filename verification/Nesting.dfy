/** Programs of two levels: a routine for each list, which starts a routine for each of the list's blocks. */
module Nesting {
  import opened Collections
  import opened ForkJoin

  /** The routine of one list, which is to be at index `parent`, and after it those of the list's blocks. */
  ghost function Group<T>(blocks: seq<seq<T>>, parent: nat): (routines: seq<Routine<T>>)
    ensures |routines| == 1 + |blocks|
    ensures routines[0] == Routine(MAIN, [])
    ensures forall k :: 1 <= k < |routines| ==> routines[k] == Routine(parent, [blocks[k - 1]])
  {
    seq(1 + |blocks|, k requires 0 <= k < 1 + |blocks| =>
      if k == 0 then Routine(MAIN, []) else Routine(parent, [blocks[k - 1]]))
  }

  /** The routine of list `j`. */
  ghost function ParentIndex<T>(lists: seq<seq<seq<T>>>, j: nat): nat
    requires j <= |lists|
  {
    if j == 0 then 0 else ParentIndex(lists, j - 1) + 1 + |lists[j - 1]|
  }

  ghost function TwoLevels<T>(lists: seq<seq<seq<T>>>): (routines: seq<Routine<T>>)
    ensures Forest(routines) && |routines| == ParentIndex(lists, |lists|)
  {
    if lists == [] then []
    else
      var n := |lists| - 1;
      SameIndex(lists[..n], lists, n);
      TwoLevels(lists[..n]) + Group(lists[n], ParentIndex(lists, n))
  }

  /** Only the lengths of the lists before it matter. */
  lemma {:induction false} SameIndex<T>(a: seq<seq<seq<T>>>, b: seq<seq<seq<T>>>, j: nat)
    requires j <= |a| && j <= |b| && forall i :: 0 <= i < j ==> |a[i]| == |b[i]|
    ensures ParentIndex(a, j) == ParentIndex(b, j)
  {
    if j > 0 {
      SameIndex(a, b, j - 1);
    }
  }

  lemma {:induction false} GroupBlocks<T>(blocks: seq<seq<T>>, parent: nat)
    ensures AllBlocks(Group(blocks, parent)) == blocks
  {
    if blocks == [] {
      assert Group(blocks, parent) == [Routine(MAIN, [])];
      FlatMapOne(BlocksOf<T>(), Routine(MAIN, []));
    } else {
      var n := |blocks| - 1;
      GroupBlocks(blocks[..n], parent);
      assert Group(blocks, parent)[..|blocks|] == Group(blocks[..n], parent);
    }
  }

  lemma {:induction false} TwoLevelBlocks<T>(lists: seq<seq<seq<T>>>)
    ensures AllBlocks(TwoLevels(lists)) == Concat(lists)
  {
    if lists != [] {
      var n := |lists| - 1;
      TwoLevelBlocks(lists[..n]);
      GroupBlocks(lists[n], ParentIndex(lists, n));
      FlatMapAppend(BlocksOf(), TwoLevels(lists[..n]), Group(lists[n], ParentIndex(lists, n)));
    }
  }

  lemma {:induction false} IndexGrows<T>(lists: seq<seq<seq<T>>>, i: nat, j: nat)
    requires i < j <= |lists|
    ensures ParentIndex(lists, i) + 1 + |lists[i]| <= ParentIndex(lists, j)
  {
    if i < j - 1 {
      IndexGrows(lists, i, j - 1);
    }
  }

  /** The k-th routine of group `j`: its own routine for 0, that of block k - 1 otherwise. */
  lemma {:induction false} RoutineAt<T>(lists: seq<seq<seq<T>>>, j: nat, k: nat)
    requires j < |lists| && k <= |lists[j]|
    ensures var p := ParentIndex(lists, j);
      p + k < |TwoLevels(lists)| && TwoLevels(lists)[p + k] == Group(lists[j], p)[k]
  {
    var n := |lists| - 1;
    IndexGrows(lists, j, |lists|);
    if j < n {
      RoutineAt(lists[..n], j, k);
      SameIndex(lists[..n], lists, j);
    } else {
      SameIndex(lists[..n], lists, n);
    }
  }

  lemma ChildAt<T>(lists: seq<seq<seq<T>>>, j: nat, k: nat)
    requires j < |lists| && k < |lists[j]|
    ensures var p := ParentIndex(lists, j);
      p + 1 + k < |TwoLevels(lists)| && TwoLevels(lists)[p + 1 + k] == Routine(p, [lists[j][k]])
  {
    RoutineAt(lists, j, 1 + k);
  }

  lemma UpdateInAppend<X>(a: seq<X>, b: seq<X>, i: nat, x: X)
    requires i < |a| + |b|
    ensures (a + b)[i := x] == if i < |a| then a[i := x] + b else a + b[i - |a| := x]
  {
  }

  lemma GroupChanged<T>(blocks: seq<seq<T>>, p: nat, k: nat, block: seq<T>)
    requires k < |blocks|
    ensures Group(blocks[k := block], p) == Group(blocks, p)[1 + k := Routine(p, [block])]
  {
  }

  lemma LastGroup<T>(lists: seq<seq<seq<T>>>, before: seq<seq<seq<T>>>, last: seq<seq<T>>)
    requires lists == before + [last]
    ensures ParentIndex(lists, |before|) == |TwoLevels(before)|
    ensures TwoLevels(lists) == TwoLevels(before) + Group(last, |TwoLevels(before)|)
  {
    assert lists[..|before|] == before;
    SameIndex(before, lists, |before|);
  }

  lemma ChangedInLast<T>(lists: seq<seq<seq<T>>>, k: nat, block: seq<T>)
    requires lists != [] && k < |lists[|lists| - 1]|
    ensures var n := |lists| - 1; var p := ParentIndex(lists, n);
      && p + 1 + k < |TwoLevels(lists)|
      && TwoLevels(lists[n := lists[n][k := block]]) == TwoLevels(lists)[p + 1 + k := Routine(p, [block])]
  {
    var n := |lists| - 1;
    var p, before, list := ParentIndex(lists, n), lists[..n], lists[n][k := block];
    LastGroup(lists, before, lists[n]);
    LastGroup(lists[n := list], before, list);
    GroupChanged(lists[n], p, k, block);
    UpdateInAppend(TwoLevels(before), Group(lists[n], p), p + 1 + k, Routine(p, [block]));
  }

  lemma ChangedBeforeLast<T>(lists: seq<seq<seq<T>>>, changed: seq<seq<seq<T>>>, i: nat, x: Routine<T>)
    requires |changed| == |lists| > 0
    requires var n := |lists| - 1;
      && lists[n] == changed[n] && (forall j :: 0 <= j < n ==> |lists[j]| == |changed[j]|)
      && i < |TwoLevels(lists[..n])| && TwoLevels(changed[..n]) == TwoLevels(lists[..n])[i := x]
    ensures i < |TwoLevels(lists)| && TwoLevels(changed) == TwoLevels(lists)[i := x]
  {
    var n := |lists| - 1;
    SameIndex(lists, changed, n);
    UpdateInAppend(TwoLevels(lists[..n]), Group(lists[n], ParentIndex(lists, n)), i, x);
  }

  /** Another block in a list is another block for one routine. */
  lemma {:induction false} ChildChanged<T>(lists: seq<seq<seq<T>>>, j: nat, k: nat, block: seq<T>)
    requires j < |lists| && k < |lists[j]|
    ensures var p := ParentIndex(lists, j);
      && p + 1 + k < |TwoLevels(lists)|
      && TwoLevels(lists[j := lists[j][k := block]]) == TwoLevels(lists)[p + 1 + k := Routine(p, [block])]
  {
    var n := |lists| - 1;
    if j == n {
      ChangedInLast(lists, k, block);
    } else {
      ChildChanged(lists[..n], j, k, block);
      ChangedEarlier(lists, j, k, block);
    }
  }

  lemma ChangedEarlier<T>(lists: seq<seq<seq<T>>>, j: nat, k: nat, block: seq<T>)
    requires j < |lists| - 1 && k < |lists[j]|
    requires var before := lists[..|lists| - 1]; var p := ParentIndex(before, j);
      && p + 1 + k < |TwoLevels(before)|
      && TwoLevels(before[j := before[j][k := block]]) == TwoLevels(before)[p + 1 + k := Routine(p, [block])]
    ensures var p := ParentIndex(lists, j);
      && p + 1 + k < |TwoLevels(lists)|
      && TwoLevels(lists[j := lists[j][k := block]]) == TwoLevels(lists)[p + 1 + k := Routine(p, [block])]
  {
    var n := |lists| - 1;
    var p, changed := ParentIndex(lists, j), lists[j := lists[j][k := block]];
    SameIndex(lists[..n], lists, j);
    assert changed[..n] == lists[..n][j := lists[..n][j][k := block]];
    ChangedBeforeLast(lists, changed, p + 1 + k, Routine(p, [block]));
  }
}
