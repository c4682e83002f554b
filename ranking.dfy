/** `jnp.argsort(probs, descending=True)` on one row, and gathering a row
    through the resulting permutation (`jnp.take_along_axis`). */
module Ranking {
  import opened Numerics

  /** The order of a stable descending sort: a higher value first, and among
      equal values the lower position first. */
  predicate Before(row: seq<real>, a: nat, b: nat)
    requires a < |row| && b < |row|
  {
    row[a] > row[b] || (row[a] == row[b] && a < b)
  }

  /** `s` lists positions of `row` strictly in `Before` order. */
  predicate Ranked(row: seq<real>, s: seq<nat>)
  {
    && (forall k :: 0 <= k < |s| ==> s[k] < |row|)
    && (forall a, b :: 0 <= a < b < |s| ==> Before(row, s[a], s[b]))
  }

  predicate IsPermutation(idx: seq<nat>, n: nat)
  {
    && |idx| == n
    && (forall k :: 0 <= k < n ==> idx[k] < n)
    && (forall j :: 0 <= j < n ==> j in idx)
    && (forall a, b :: 0 <= a < b < n ==> idx[a] != idx[b])
  }

  predicate NonIncreasing(s: seq<real>)
  {
    forall a, b :: 0 <= a < b < |s| ==> s[a] >= s[b]
  }

  /** Insert position `i`, larger than every position already ranked, after
      every ranked position whose value is at least `row[i]`. */
  function Insert(row: seq<real>, s: seq<nat>, i: nat): (r: seq<nat>)
    requires i < |row|
    requires forall k :: 0 <= k < |s| ==> s[k] < i
    requires Ranked(row, s)
    ensures |r| == |s| + 1
    ensures forall x :: x in r <==> x in s || x == i
    ensures Ranked(row, r)
  {
    if s == [] || row[s[0]] < row[i] then
      assert forall b :: 0 < b < |s| ==> Before(row, s[0], s[b]);
      [i] + s
    else
      var tail := Insert(row, s[1..], i);
      assert forall x :: x in s[1..] ==> x in s;
      assert forall b :: 0 <= b < |tail| ==> Before(row, s[0], tail[b]) by {
        forall b | 0 <= b < |tail| ensures Before(row, s[0], tail[b]) {
          if tail[b] != i {
            assert tail[b] in s[1..];
            var m :| 0 <= m < |s[1..]| && s[1..][m] == tail[b];
            assert Before(row, s[0], s[m + 1]);
          }
        }
      }
      [s[0]] + tail
  }

  /** Stable descending argsort of the first `n` positions of `row`. */
  function ArgSortPrefix(row: seq<real>, n: nat): (r: seq<nat>)
    requires n <= |row|
    ensures |r| == n
    ensures forall x: nat :: x in r <==> x < n
    ensures forall k :: 0 <= k < n ==> r[k] < n
    ensures Ranked(row, r)
  {
    if n == 0 then []
    else
      var s := ArgSortPrefix(row, n - 1);
      var r := Insert(row, s, n - 1);
      assert forall k :: 0 <= k < n ==> r[k] in r;
      r
  }

  /** `row[idx[k]]` for every `k`. */
  function Gather(row: seq<real>, idx: seq<nat>): seq<real>
    requires forall k :: 0 <= k < |idx| ==> idx[k] < |row|
  {
    seq(|idx|, k requires 0 <= k < |idx| => row[idx[k]])
  }

  /** `jnp.argsort(row, descending=True)`: a permutation of the positions
      that lists values from largest to smallest, ties in position order. */
  function ArgSort(row: seq<real>): (idx: seq<nat>)
    ensures IsPermutation(idx, |row|)
    ensures NonIncreasing(Gather(row, idx))
    ensures forall a, b :: 0 <= a < b < |idx| && row[idx[a]] == row[idx[b]] ==> idx[a] < idx[b]
  {
    var idx := ArgSortPrefix(row, |row|);
    assert forall k :: 0 <= k < |idx| ==> idx[k] in idx;
    assert forall a, b :: 0 <= a < b < |idx| ==> Before(row, idx[a], idx[b]);
    idx
  }

  /** Every position whose value beats the one ranked `c` is ranked
      before `c`. */
  lemma {:induction false} RankedBeforeIfLarger(row: seq<real>, idx: seq<nat>, c: nat, j: nat)
    requires idx == ArgSort(row)
    requires c < |row| && j < |row| && row[j] > row[idx[c]]
    ensures j in idx[..c]
  {
    assert j in idx;
    var m :| 0 <= m < |idx| && idx[m] == j;
    assert idx[..c][m] == j;
  }

  /** Ranking does not change the total: the sorted row sums to the row. */
  lemma SortedSum(row: seq<real>)
    ensures Sum(Gather(row, ArgSort(row))) == Sum(row)
  {
    ArgSortPrefixSum(row, |row|);
    assert row[..|row|] == row;
  }

  lemma {:induction false} ArgSortPrefixSum(row: seq<real>, n: nat)
    requires n <= |row|
    ensures Sum(Gather(row, ArgSortPrefix(row, n))) == Sum(row[..n])
  {
    if n > 0 {
      ArgSortPrefixSum(row, n - 1);
      InsertSum(row, ArgSortPrefix(row, n - 1), n - 1);
      PrefixSumStep(row, n);
    }
  }

  lemma PrefixSumStep(row: seq<real>, n: nat)
    requires 0 < n <= |row|
    ensures Sum(row[..n]) == Sum(row[..n - 1]) + row[n - 1]
  {
    assert row[..n][..n - 1] == row[..n - 1];
  }

  lemma {:induction false} InsertSum(row: seq<real>, s: seq<nat>, i: nat)
    requires i < |row|
    requires forall k :: 0 <= k < |s| ==> s[k] < i
    requires Ranked(row, s)
    ensures Sum(Gather(row, Insert(row, s, i))) == Sum(Gather(row, s)) + row[i]
  {
    if s == [] || row[s[0]] < row[i] {
      assert Gather(row, [i] + s) == [row[i]] + Gather(row, s);
      SumAppend([row[i]], Gather(row, s));
      assert [row[i]][..0] == [];
    } else {
      var tail := Insert(row, s[1..], i);
      assert Gather(row, [s[0]] + tail) == [row[s[0]]] + Gather(row, tail);
      assert Gather(row, s) == [row[s[0]]] + Gather(row, s[1..]);
      SumAppend([row[s[0]]], Gather(row, tail));
      SumAppend([row[s[0]]], Gather(row, s[1..]));
      assert [row[s[0]]][..0] == [];
      InsertSum(row, s[1..], i);
    }
  }

  /** The entry ranked first is a largest value of the row. */
  lemma {:induction false} TopRankedIsLargest(row: seq<real>)
    requires |row| > 0
    ensures forall j :: 0 <= j < |row| ==> row[j] <= row[ArgSort(row)[0]]
  {
    var idx := ArgSort(row);
    forall j | 0 <= j < |row| ensures row[j] <= row[idx[0]] {
      if row[j] > row[idx[0]] {
        RankedBeforeIfLarger(row, idx, 0, j);
        assert false;
      }
    }
  }
}
