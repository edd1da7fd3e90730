/** The shuffle of `RandomDataModule.setup`: `torch.randperm(n)` gives an
    ordering of `[0, n)`, and indexing the data tensor with it gathers the
    rows in that order. The generator itself is not modelled; its output is
    an input that is required to be a permutation. */
module Permutation {

  /** The indices `0, 1, ..., n - 1` in order. */
  function Iota(n: nat): (s: seq<nat>)
    ensures |s| == n && forall i :: 0 <= i < n ==> s[i] == i
  {
    seq(n, i requires 0 <= i < n => i)
  }

  /** `p` holds each index of `[0, n)` exactly once: what `torch.randperm(n)`
      returns. */
  ghost predicate IsPermutation(p: seq<nat>, n: nat)
  {
    multiset(p) == multiset(Iota(n))
  }

  /** `data[p]`: the rows of `data` gathered in the order `p` lists them. */
  function Reorder<T>(data: seq<T>, p: seq<nat>): (r: seq<T>)
    requires forall i :: 0 <= i < |p| ==> p[i] < |data|
    ensures |r| == |p| && forall i :: 0 <= i < |p| ==> r[i] == data[p[i]]
  {
    seq(|p|, i requires 0 <= i < |p| => data[p[i]])
  }

  lemma {:induction false} IotaCount(n: nat, v: nat)
    ensures multiset(Iota(n))[v] == if v < n then 1 else 0
  {
    if n > 0 {
      assert Iota(n) == Iota(n - 1) + [n - 1];
      IotaCount(n - 1, v);
    }
  }

  /** A permutation of `[0, n)` has `n` entries, each an index below `n`, no
      two of them equal: an ordering of distinct indices of `[0, n)`. */
  lemma PermutationIndices(p: seq<nat>, n: nat)
    requires IsPermutation(p, n)
    ensures |p| == n
    ensures forall i :: 0 <= i < |p| ==> p[i] < n
    ensures forall i, j :: 0 <= i < j < |p| ==> p[i] != p[j]
  {
    assert |p| == |multiset(p)| == |multiset(Iota(n))| == n;
    forall i | 0 <= i < |p| ensures p[i] < n {
      assert p[i] in multiset(p);
      IotaCount(n, p[i]);
    }
    forall i, j | 0 <= i < j < |p| ensures p[i] != p[j] {
      if p[i] == p[j] {
        var v := p[i];
        assert p == p[..i] + [v] + p[i + 1..j] + [v] + p[j + 1..];
        assert multiset(p)[v] >= 2;
        IotaCount(n, v);
        assert false;
      }
    }
  }

  lemma ReorderConcat<T>(data: seq<T>, a: seq<nat>, b: seq<nat>)
    requires forall i :: 0 <= i < |a| ==> a[i] < |data|
    requires forall i :: 0 <= i < |b| ==> b[i] < |data|
    ensures Reorder(data, a + b) == Reorder(data, a) + Reorder(data, b)
  {
  }

  /** Taking the largest index out of a permutation of `[0, n + 1)` leaves a
      permutation of `[0, n)`. */
  lemma RemoveLargest(p: seq<nat>, n: nat) returns (k: nat)
    requires IsPermutation(p, n + 1)
    ensures k < |p| && p[k] == n
    ensures IsPermutation(p[..k] + p[k + 1..], n)
  {
    assert Iota(n + 1) == Iota(n) + [n];
    assert n in multiset(p);
    k :| 0 <= k < |p| && p[k] == n;
    var rest := p[..k] + p[k + 1..];
    assert p == p[..k] + [n] + p[k + 1..];
    assert multiset(p) == multiset(rest) + multiset{n};
    assert multiset(Iota(n + 1)) == multiset(Iota(n)) + multiset{n};
    calc {
      multiset(rest);
      (multiset(rest) + multiset{n}) - multiset{n};
      (multiset(Iota(n)) + multiset{n}) - multiset{n};
      multiset(Iota(n));
    }
  }

  /** Reordering by a permutation keeps every row, as often as it occurred:
      the shuffled data is the same multiset of rows, of the same length. */
  lemma {:induction false} ReorderPreservesRows<T>(data: seq<T>, p: seq<nat>)
    requires IsPermutation(p, |data|)
    ensures PermutationIndicesBelow(p, |data|)
    ensures |Reorder(data, p)| == |data|
    ensures multiset(Reorder(data, p)) == multiset(data)
  {
    PermutationIndices(p, |data|);
    if |data| > 0 {
      var last: nat := |data| - 1;
      var k := RemoveLargest(p, last);
      var rest := p[..k] + p[k + 1..];
      var front := data[..last];
      PermutationIndices(rest, last);
      ReorderPreservesRows(front, rest);
      assert Reorder(front, rest) == Reorder(data, rest);
      assert p == p[..k] + [last] + p[k + 1..];
      ReorderConcat(data, p[..k] + [last], p[k + 1..]);
      ReorderConcat(data, p[..k], [last]);
      ReorderConcat(data, p[..k], p[k + 1..]);
      assert Reorder(data, [last]) == [data[last]];
      assert data == front + [data[last]];
    }
  }

  /** The bounds `Reorder` needs of its index sequence. */
  predicate PermutationIndicesBelow(p: seq<nat>, n: nat)
  {
    forall i :: 0 <= i < |p| ==> p[i] < n
  }
}
