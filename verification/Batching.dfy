/** Cutting a list into batches: 50 metrics a filter worker, 20 records a query, 10 ARNs a request. */
module Batching {
  import opened Collections

  /** The batches of `s`: as many full ones as fit, then what is left. */
  function Batches<T>(s: seq<T>, width: nat): (r: seq<seq<T>>)
    requires width > 0
    decreases |s|
  {
    if s == [] then []
    else if |s| <= width then [s]
    else [s[..width]] + Batches(s[width..], width)
  }

  /** Nothing is lost, doubled or reordered, no batch is empty or too wide, only the last may be short. */
  ghost predicate IsCut<T>(s: seq<T>, width: nat, batches: seq<seq<T>>) {
    && Concat(batches) == s
    && (forall i :: 0 <= i < |batches| ==> 0 < |batches[i]| <= width)
    && (forall i :: 0 <= i < |batches| - 1 ==> |batches[i]| == width)
  }

  lemma {:induction false} BatchesCut<T>(s: seq<T>, width: nat)
    requires width > 0
    ensures IsCut(s, width, Batches(s, width))
    decreases |s|
  {
    if s == [] {
    } else if |s| <= width {
      ConcatAppend([], [s]);
      assert [s] == [] + [s];
      assert [s][..0] == [];
    } else {
      var first, rest := [s[..width]], Batches(s[width..], width);
      BatchesCut(s[width..], width);
      ConcatAppend(first, rest);
      assert first[..0] == [];
      assert s == s[..width] + s[width..];
      assert Batches(s, width) == first + rest;
      assert rest != [] by {
        assert s[width..] != [];
      }
    }
  }

  /** Where the elements are. */
  lemma {:induction false} BatchElement<T>(s: seq<T>, width: nat, i: nat, k: nat)
    requires width > 0 && i < |Batches(s, width)| && k < |Batches(s, width)[i]|
    ensures i * width + k < |s| && Batches(s, width)[i][k] == s[i * width + k]
    decreases i
  {
    if |s| > width && i > 0 {
      BatchElement(s[width..], width, i - 1, k);
      assert i * width == (i - 1) * width + width;
    }
  }

  /** The three demands of a cut leave only one possibility. */
  lemma {:induction false} CutIsUnique<T>(s: seq<T>, width: nat, batches: seq<seq<T>>)
    requires width > 0 && IsCut(s, width, batches)
    ensures batches == Batches(s, width)
    decreases |s|, |batches|
  {
    if batches != [] {
      var first, rest := batches[..1], batches[1..];
      assert batches == first + rest;
      ConcatAppend(first, rest);
      assert first == [batches[0]] && first[..0] == [];
      assert Concat(first) == batches[0];
      assert s == batches[0] + Concat(rest);
      if rest == [] {
        assert s == batches[0];
      } else {
        ConcatNotEmpty(rest);
        assert |batches[0]| == width;
        assert s[..width] == batches[0] && s[width..] == Concat(rest);
        CutIsUnique(s[width..], width, rest);
      }
    }
  }

  lemma ConcatNotEmpty<T>(batches: seq<seq<T>>)
    requires batches != [] && batches[|batches| - 1] != []
    ensures Concat(batches) != []
  {
  }

  /** The loop over `cutPoint` that starts one worker per batch. */
  method CutBatches<T>(list: seq<T>, width: nat) returns (batches: seq<seq<T>>)
    requires width > 0
    ensures batches == Batches(list, width)
  {
    batches := [];
    var cutPoint := 0;
    while cutPoint < |list|
      invariant 0 <= cutPoint <= |list|
      invariant Batches(list, width) == batches + Batches(list[cutPoint..], width)
    {
      var start, end := cutPoint, cutPoint + width;
      if end > |list| {
        end := |list|;
      }
      assert Batches(list[start..], width) == [list[start..end]] + Batches(list[end..], width) by {
        if end == |list| {
          assert list[start..] == list[start..end] && list[end..] == [];
        } else {
          assert list[start..][width..] == list[end..] && list[start..][..width] == list[start..end];
        }
      }
      batches := batches + [list[start..end]];
      cutPoint := end;
    }
  }
}
