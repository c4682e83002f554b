/** Row primitives the sampler relies on: summation, cumulative sums and the
    two uses of `jnp.argmax` (over real values and over a boolean mask). */
module Numerics {

  /** Sum of a row, adding the last element last. */
  function Sum(s: seq<real>): real
  {
    if s == [] then 0.0 else Sum(s[..|s| - 1]) + s[|s| - 1]
  }

  predicate NonNegative(s: seq<real>)
  {
    forall j :: 0 <= j < |s| ==> 0.0 <= s[j]
  }

  lemma {:induction false} SumAppend(a: seq<real>, b: seq<real>)
    ensures Sum(a + b) == Sum(a) + Sum(b)
  {
    if b == [] {
      assert a + b == a;
    } else {
      assert (a + b)[..|a + b| - 1] == a + b[..|b| - 1];
      SumAppend(a, b[..|b| - 1]);
    }
  }

  lemma {:induction false} SumNonNegative(s: seq<real>)
    requires NonNegative(s)
    ensures Sum(s) >= 0.0
  {
    if s != [] {
      SumNonNegative(s[..|s| - 1]);
    }
  }

  /** A non-negative row whose sum is not positive is all zeros. */
  lemma {:induction false} SumZeroMeansAllZero(s: seq<real>)
    requires NonNegative(s) && Sum(s) <= 0.0
    ensures forall j :: 0 <= j < |s| ==> s[j] == 0.0
  {
    if s != [] {
      var front := s[..|s| - 1];
      SumNonNegative(front);
      SumZeroMeansAllZero(front);
      forall j | 0 <= j < |s| - 1 ensures s[j] == 0.0 {
        assert s[j] == front[j];
      }
    }
  }

  /** A non-negative row with positive mass has a positive entry. */
  lemma PositiveEntry(s: seq<real>) returns (j: nat)
    requires NonNegative(s) && Sum(s) > 0.0
    ensures j < |s| && s[j] > 0.0
  {
    if forall k :: 0 <= k < |s| ==> s[k] <= 0.0 {
      SumZeroOfZeros(s);
      assert false;
    }
    var k :| 0 <= k < |s| && s[k] > 0.0;
    j := k;
  }

  lemma {:induction false} SumZeroOfZeros(s: seq<real>)
    requires NonNegative(s) && forall k :: 0 <= k < |s| ==> s[k] <= 0.0
    ensures Sum(s) == 0.0
  {
    if s != [] {
      SumZeroOfZeros(s[..|s| - 1]);
    }
  }

  /** In a non-negative row every entry is at most the row's sum. */
  lemma {:induction false} SumAtLeastEntry(s: seq<real>, j: nat)
    requires NonNegative(s) && j < |s|
    ensures s[j] <= Sum(s)
  {
    var front := s[..|s| - 1];
    if j == |s| - 1 {
      SumNonNegative(front);
    } else {
      SumAtLeastEntry(front, j);
    }
  }

  /** In a non-negative row every prefix sum is at most the row's sum. */
  lemma PrefixSumAtMost(s: seq<real>, n: nat)
    requires NonNegative(s) && n <= |s|
    ensures Sum(s[..n]) <= Sum(s)
  {
    assert s == s[..n] + s[n..];
    SumAppend(s[..n], s[n..]);
    assert NonNegative(s[n..]);
    SumNonNegative(s[n..]);
  }

  function Zeros(n: nat): (z: seq<real>)
    ensures |z| == n && forall j :: 0 <= j < n ==> z[j] == 0.0
  {
    seq(n, j => 0.0)
  }

  lemma {:induction false} SumZeros(n: nat)
    ensures Sum(Zeros(n)) == 0.0
  {
    if n > 0 {
      assert Zeros(n)[..n - 1] == Zeros(n - 1);
      SumZeros(n - 1);
    }
  }

  /** `cumsum` along a row: entry `j` is the running sum of entries `0..j`. */
  function CumSum(s: seq<real>): (c: seq<real>)
    ensures |c| == |s|
    ensures forall j :: 0 <= j < |s| ==> c[j] == Sum(s[..j + 1])
    ensures |s| > 0 ==> c[0] == s[0] && c[|s| - 1] == Sum(s)
  {
    var c := seq(|s|, j requires 0 <= j < |s| => Sum(s[..j + 1]));
    assert |s| > 0 ==> s[..1][..0] == [] && s[..|s|] == s;
    c
  }

  /** `jnp.argmax` over a non-empty real row: the first position of a
      maximal value. */
  function ArgMax(s: seq<real>): (k: nat)
    requires |s| > 0
    ensures k < |s|
    ensures forall j :: 0 <= j < |s| ==> s[j] <= s[k]
    ensures forall j :: 0 <= j < k ==> s[j] < s[k]
  {
    if |s| == 1 then 0
    else
      var k := ArgMax(s[..|s| - 1]);
      if s[|s| - 1] > s[k] then |s| - 1 else k
  }

  /** `jnp.argmax` over a non-empty boolean mask: the first `true`, or 0 when
      every entry is `false` (the maximum `false` first occurs at 0). */
  function ArgMaxMask(m: seq<bool>): (k: nat)
    requires |m| > 0
    ensures k < |m|
    ensures (exists j :: 0 <= j < |m| && m[j]) ==> m[k] && forall j :: 0 <= j < k ==> !m[j]
    ensures (forall j :: 0 <= j < |m| ==> !m[j]) ==> k == 0
  {
    if m[0] || |m| == 1 then 0
    else
      var k := ArgMaxMask(m[1..]);
      if m[1 + k] then 1 + k else 0
  }
}
