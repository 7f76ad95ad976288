/** Facts about integer sequences that the board-shuffling proofs rely on. */
module Seqs {

  /** Every entry of `indices` is a valid position of a sequence of length `n`. */
  predicate IndicesIn(indices: seq<int>, n: int)
  {
    forall k :: 0 <= k < |indices| ==> 0 <= indices[k] < n
  }

  /** Each element is smaller than every element after it. */
  predicate Increasing(xs: seq<int>)
  {
    forall a, b :: 0 <= a < b < |xs| ==> xs[a] < xs[b]
  }

  /** No element occurs twice. */
  predicate Distinct(xs: seq<int>)
  {
    forall a, b :: 0 <= a < b < |xs| ==> xs[a] != xs[b]
  }

  /** Two sequences without repetitions and with no element in common concatenate to one without repetitions. */
  lemma DistinctAppend(xs: seq<int>, ys: seq<int>)
    requires Distinct(xs) && Distinct(ys)
    requires forall k :: 0 <= k < |ys| ==> ys[k] !in xs
    ensures Distinct(xs + ys)
  {
    var zs := xs + ys;
    forall a, b | 0 <= a < b < |zs| ensures zs[a] != zs[b] {
      if b < |xs| {
        assert zs[a] == xs[a] && zs[b] == xs[b];
      } else if a >= |xs| {
        assert zs[a] == ys[a - |xs|] && zs[b] == ys[b - |xs|];
      } else {
        assert zs[a] == xs[a] && zs[b] == ys[b - |xs|];
      }
    }
  }

  /** The first position at which `x` occurs in `xs`. */
  function IndexOf(xs: seq<int>, x: int): (k: int)
    requires x in xs
    ensures 0 <= k < |xs| && xs[k] == x
    ensures forall j :: 0 <= j < k ==> xs[j] != x
  {
    if xs[0] == x then 0 else 1 + IndexOf(xs[1..], x)
  }

  /** In a sequence without repetitions, the position of an element is its only position. */
  lemma IndexOfDistinct(xs: seq<int>, k: int)
    requires Distinct(xs) && 0 <= k < |xs|
    ensures IndexOf(xs, xs[k]) == k
  {
  }

  /** The elements of `values` found at the positions `indices`, in that order. */
  function Gather(values: seq<int>, indices: seq<int>): seq<int>
    requires IndicesIn(indices, |values|)
  {
    if indices == [] then [] else [values[indices[0]]] + Gather(values, indices[1..])
  }

  /** The gathered sequence has one element per index, the one found at that index. */
  lemma {:induction false} GatherAt(values: seq<int>, indices: seq<int>)
    requires IndicesIn(indices, |values|)
    ensures |Gather(values, indices)| == |indices|
    ensures forall k :: 0 <= k < |indices| ==> Gather(values, indices)[k] == values[indices[k]]
    decreases |indices|
  {
    if indices != [] {
      GatherAt(values, indices[1..]);
    }
  }

  /** The positions 0, 1, ..., n - 1 in ascending order. */
  function Range(n: nat): seq<int>
  {
    seq(n, i requires 0 <= i < n => i)
  }

  /** The positions below n + 1 are those below n followed by n. */
  lemma RangeSnoc(n: nat)
    ensures Range(n + 1) == Range(n) + [n]
  {
  }

  /** The sum of the elements of `s`. */
  function Sum(s: seq<int>): int
  {
    if s == [] then 0 else s[0] + Sum(s[1..])
  }

  /** Gathering along all positions in order gives the sequence back. */
  lemma GatherRange(values: seq<int>)
    ensures IndicesIn(Range(|values|), |values|)
    ensures Gather(values, Range(|values|)) == values
  {
    GatherAt(values, Range(|values|));
  }

  /** Gathering along a concatenation is the concatenation of the two gathers. */
  lemma {:induction false} GatherAppend(values: seq<int>, a: seq<int>, b: seq<int>)
    requires IndicesIn(a, |values|) && IndicesIn(b, |values|)
    ensures IndicesIn(a + b, |values|)
    ensures Gather(values, a + b) == Gather(values, a) + Gather(values, b)
    decreases |a|
  {
    if a == [] {
      assert a + b == b;
    } else {
      assert (a + b)[1..] == a[1..] + b;
      GatherAppend(values, a[1..], b);
    }
  }

  /** Removing the element at position j of s changes its multiset by exactly that element. */
  lemma MultisetRemove(s: seq<int>, j: int)
    requires 0 <= j < |s|
    ensures multiset(s) == multiset(s[..j] + s[j + 1..]) + multiset{s[j]}
  {
    assert s == s[..j] + [s[j]] + s[j + 1..];
  }

  /** An element of a multiset of a sequence occurs at some position of that sequence. */
  lemma PositionOf(s: seq<int>, x: int) returns (j: int)
    requires x in multiset(s)
    ensures 0 <= j < |s| && s[j] == x
  {
    assert x in s;
    j :| 0 <= j < |s| && s[j] == x;
  }

  /** A sequence with the same multiset as a sequence of valid positions holds valid positions only. */
  lemma IndicesInPermutation(xs: seq<int>, ys: seq<int>, n: int)
    requires IndicesIn(xs, n)
    requires multiset(xs) == multiset(ys)
    ensures IndicesIn(ys, n)
  {
    forall k | 0 <= k < |ys| ensures 0 <= ys[k] < n {
      assert ys[k] in multiset(xs);
      var j := PositionOf(xs, ys[k]);
    }
  }

  /** A sequence is its prefix before j, its element at j and its suffix after j. */
  lemma SplitAt(s: seq<int>, j: int)
    requires 0 <= j < |s|
    ensures s == s[..j] + ([s[j]] + s[j + 1..])
  {
    assert s[j..] == [s[j]] + s[j + 1..];
    assert s == s[..j] + s[j..];
  }

  /**
    * The head of xs occurs in any permutation ys of xs; removing that
    * occurrence from ys leaves a permutation of the tail of xs.
    */
  lemma RemoveMatch(xs: seq<int>, ys: seq<int>) returns (j: int)
    requires |xs| > 0 && multiset(xs) == multiset(ys)
    ensures 0 <= j < |ys| && ys[j] == xs[0]
    ensures multiset(xs[1..]) == multiset(ys[..j] + ys[j + 1..])
  {
    assert xs == [xs[0]] + xs[1..];
    assert xs[0] in multiset(ys);
    j := PositionOf(ys, xs[0]);
    MultisetRemove(ys, j);
    assert multiset(xs[1..]) == multiset(xs) - multiset{xs[0]};
    assert multiset(ys[..j] + ys[j + 1..]) == multiset(ys) - multiset{xs[0]};
  }

  /** Gathering along ys is the gather before position j, the element at ys[j] and the gather after it. */
  lemma GatherSplit(values: seq<int>, ys: seq<int>, j: int)
    requires IndicesIn(ys, |values|)
    requires 0 <= j < |ys|
    ensures IndicesIn(ys[..j], |values|) && IndicesIn(ys[j + 1..], |values|)
    ensures Gather(values, ys)
         == Gather(values, ys[..j]) + ([values[ys[j]]] + Gather(values, ys[j + 1..]))
  {
    var before, y, after := ys[..j], [ys[j]], ys[j + 1..];
    SplitAt(ys, j);
    assert IndicesIn(y, |values|);
    GatherAppend(values, y, after);
    GatherAppend(values, before, y + after);
  }

  /** Gathering along ys is gathering at ys[j] plus gathering along ys without position j. */
  lemma GatherRemove(values: seq<int>, ys: seq<int>, j: int)
    requires IndicesIn(ys, |values|)
    requires 0 <= j < |ys|
    ensures IndicesIn(ys[..j] + ys[j + 1..], |values|)
    ensures multiset(Gather(values, ys))
         == multiset{values[ys[j]]} + multiset(Gather(values, ys[..j] + ys[j + 1..]))
  {
    GatherSplit(values, ys, j);
    GatherAppend(values, ys[..j], ys[j + 1..]);
  }

  /**
    * Gathering along two index sequences that are permutations of each other
    * gives two sequences that are permutations of each other.
    */
  lemma {:induction false} GatherPermutation(values: seq<int>, xs: seq<int>, ys: seq<int>)
    requires IndicesIn(xs, |values|)
    requires multiset(xs) == multiset(ys)
    ensures IndicesIn(ys, |values|)
    ensures multiset(Gather(values, xs)) == multiset(Gather(values, ys))
    decreases |xs|
  {
    IndicesInPermutation(xs, ys, |values|);
    if xs == [] {
      assert |ys| == |multiset(ys)| == 0;
    } else {
      var j := RemoveMatch(xs, ys);
      var rest := ys[..j] + ys[j + 1..];
      GatherRemove(values, ys, j);
      assert IndicesIn(xs[1..], |values|);
      GatherPermutation(values, xs[1..], rest);
      assert Gather(values, xs) == [values[xs[0]]] + Gather(values, xs[1..]);
    }
  }

  /** The sum of a concatenation is the sum of the parts. */
  lemma {:induction false} SumAppend(a: seq<int>, b: seq<int>)
    ensures Sum(a + b) == Sum(a) + Sum(b)
    decreases |a|
  {
    if a == [] {
      assert a + b == b;
    } else {
      assert (a + b)[0] == a[0];
      assert (a + b)[1..] == a[1..] + b;
      SumAppend(a[1..], b);
    }
  }

  /** The sum of s is its element at j plus the sum of the rest. */
  lemma SumRemove(s: seq<int>, j: int)
    requires 0 <= j < |s|
    ensures Sum(s) == s[j] + Sum(s[..j] + s[j + 1..])
  {
    SplitAt(s, j);
    SumAppend(s[..j], [s[j]] + s[j + 1..]);
    SumAppend([s[j]], s[j + 1..]);
    SumAppend(s[..j], s[j + 1..]);
  }

  /** Two sequences that are permutations of each other have the same sum. */
  lemma {:induction false} SumPermutation(a: seq<int>, b: seq<int>)
    requires multiset(a) == multiset(b)
    ensures Sum(a) == Sum(b)
    decreases |a|
  {
    if a == [] {
      assert |b| == |multiset(b)| == 0;
    } else {
      var j := RemoveMatch(a, b);
      SumPermutation(a[1..], b[..j] + b[j + 1..]);
      SumRemove(b, j);
    }
  }
}
