/** Token selection of `llama_jax.model`: `sample_tokens`, `sample_top_k`,
    `sample_top_p` and `select_index`, over rows of real numbers.

    Softmax of the temperature-scaled logits is a parameter (`softmax`), and
    the JAX random generator is a pair of parameters (`Prng`): `split` hands out
    fresh keys and `choice` draws a position of a weighted row. */
module Sampling {
  import opened Wrappers
  import opened Numerics
  import opened Ranking

  const DefaultTemperature: real := 0.6
  const DefaultTopK: int := 50
  const DefaultTopP: real := 0.9

  /** A rank-2 array, batch × width; the width is kept even for an empty batch. */
  datatype Matrix<T> = Matrix(rows: seq<seq<T>>, width: nat) {
    predicate Shaped()
    {
      forall i :: 0 <= i < |rows| ==> |rows[i]| == width
    }
  }

  datatype SampleError =
    | MissingKey          // non-zero temperature without a random key
    | TopKWidthMismatch   // the width of `probs[..., :top_k]` is not `top_k`
    | EmptyArgMax         // `jnp.argmax` along an axis of width 0

  datatype Sampled<K> = Sampled(tokenIds: Matrix<nat>, key: Option<K>)

  /** The random generator as seen by the sampler. */
  datatype Prng<!K> = Prng(split: (K, nat) -> seq<K>, choice: (K, seq<real>) -> nat)

  /** `random.split(key, n)` yields `n` keys; `random.choice` with weights
      proportional to a non-negative row of positive mass yields a position of
      positive weight. */
  ghost predicate ValidPrng<K(!new)>(prng: Prng<K>)
  {
    && (forall key, n :: |prng.split(key, n)| == n)
    && (forall key, w :: NonNegative(w) && Sum(w) > 0.0 ==>
          prng.choice(key, w) < |w| && w[prng.choice(key, w)] > 0.0)
  }

  /** Softmax keeps the width of a row. */
  ghost predicate KeepsWidth(softmax: seq<real> -> seq<real>)
  {
    forall row :: |softmax(row)| == |row|
  }

  /** Softmax keeps the width and yields a probability row. */
  ghost predicate IsSoftmax(softmax: seq<real> -> seq<real>)
  {
    && KeepsWidth(softmax)
    && (forall row :: NonNegative(softmax(row)))
    && (forall row {:trigger Sum(softmax(row))} :: |row| > 0 ==> Sum(softmax(row)) == 1.0)
  }

  // ---------------------------------------------------------------------
  // Greedy selection

  /** Every row of `ids` holds one position: the first maximal logit of the
      corresponding row. */
  predicate IsGreedy(logits: Matrix<real>, ids: Matrix<nat>)
    requires logits.Shaped()
  {
    && ids.Shaped() && ids.width == 1 && |ids.rows| == |logits.rows|
    && forall i :: 0 <= i < |ids.rows| ==>
         var id := ids.rows[i][0];
         && id < logits.width
         && (forall j :: 0 <= j < logits.width ==> logits.rows[i][j] <= logits.rows[i][id])
         && (forall j :: 0 <= j < id ==> logits.rows[i][j] < logits.rows[i][id])
  }

  /** `jnp.argmax(logits, axis=1, keepdims=True)`. */
  function ArgMaxRows(logits: Matrix<real>): (r: Result<Matrix<nat>, SampleError>)
    requires logits.Shaped()
    ensures r.Success? <==> logits.width > 0
    ensures r.Failure? ==> r.error == EmptyArgMax
    ensures r.Success? ==> IsGreedy(logits, r.value)
  {
    if logits.width == 0 then Failure(EmptyArgMax)
    else Success(Matrix(seq(|logits.rows|, i requires 0 <= i < |logits.rows| => [ArgMax(logits.rows[i])]), 1))
  }

  // ---------------------------------------------------------------------
  // Ranking

  function Scale(row: seq<real>, t: real): seq<real>
    requires t != 0.0
  {
    seq(|row|, j requires 0 <= j < |row| => row[j] / t)
  }

  /** Softmax of one temperature-scaled row of logits. */
  function RowProbabilities(row: seq<real>, t: real, softmax: seq<real> -> seq<real>): (probs: seq<real>)
    requires t != 0.0 && KeepsWidth(softmax)
    ensures |probs| == |row|
  {
    softmax(Scale(row, t))
  }

  /** `softmax(logits / temperature, axis=1)`. */
  function Probabilities(logits: Matrix<real>, t: real, softmax: seq<real> -> seq<real>): (probs: Matrix<real>)
    requires logits.Shaped() && t != 0.0 && KeepsWidth(softmax)
    ensures probs.Shaped() && probs.width == logits.width && |probs.rows| == |logits.rows|
    ensures forall i :: 0 <= i < |probs.rows| ==> probs.rows[i] == RowProbabilities(logits.rows[i], t, softmax)
  {
    Matrix(seq(|logits.rows|, i requires 0 <= i < |logits.rows| => RowProbabilities(logits.rows[i], t, softmax)), logits.width)
  }

  /** Each row of `probs` is a probability row. */
  predicate IsDistribution(probs: Matrix<real>)
  {
    && probs.Shaped()
    && forall i :: 0 <= i < |probs.rows| ==>
         NonNegative(probs.rows[i]) && (probs.width > 0 ==> Sum(probs.rows[i]) == 1.0)
  }

  /** `jnp.argsort(probs, axis=1, descending=True)`. */
  function ArgSortRows(probs: Matrix<real>): (indices: Matrix<nat>)
    requires probs.Shaped()
    ensures indices.Shaped() && indices.width == probs.width && |indices.rows| == |probs.rows|
    ensures forall i :: 0 <= i < |probs.rows| ==> indices.rows[i] == ArgSort(probs.rows[i])
  {
    Matrix(seq(|probs.rows|, i requires 0 <= i < |probs.rows| => ArgSort(probs.rows[i])), probs.width)
  }

  /** `jnp.take_along_axis(m, indices, axis=1)`. */
  function TakeAlong<T>(m: Matrix<T>, indices: Matrix<nat>): (r: Matrix<T>)
    requires m.Shaped() && indices.Shaped() && |indices.rows| == |m.rows|
    requires forall i, k :: 0 <= i < |m.rows| && 0 <= k < indices.width ==> indices.rows[i][k] < m.width
    ensures r.Shaped() && r.width == indices.width && |r.rows| == |m.rows|
    ensures forall i, k :: 0 <= i < |m.rows| && 0 <= k < indices.width ==> r.rows[i][k] == m.rows[i][indices.rows[i][k]]
  {
    Matrix(seq(|m.rows|, i requires 0 <= i < |m.rows| =>
             seq(indices.width, k requires 0 <= k < indices.width => m.rows[i][indices.rows[i][k]])),
           indices.width)
  }

  // ---------------------------------------------------------------------
  // Top k

  /** Width of `probs[..., :k]` for a row of width `n`, under Python slicing. */
  function SliceWidth(n: nat, k: int): nat
  {
    if k >= 0 then (if k <= n then k else n)
    else (if n + k >= 0 then n + k else 0)
  }

  /** `sample_top_k`: the first `k` columns (default 50), which must be
      exactly `k` wide. */
  function SampleTopK(probs: Matrix<real>, topK: Option<int>): (r: Result<Matrix<real>, SampleError>)
    requires probs.Shaped()
    ensures var k := topK.GetOr(DefaultTopK);
      && (r.Success? <==> 0 <= k <= probs.width)
      && (r.Failure? ==> r.error == TopKWidthMismatch)
      && (r.Success? ==>
            && r.value.Shaped() && r.value.width == k && |r.value.rows| == |probs.rows|
            && forall i :: 0 <= i < |probs.rows| ==> r.value.rows[i] == probs.rows[i][..k])
  {
    var k := topK.GetOr(DefaultTopK);
    var w := SliceWidth(probs.width, k);
    var kept := Matrix(seq(|probs.rows|, i requires 0 <= i < |probs.rows| => probs.rows[i][..w]), w);
    if w != k then Failure(TopKWidthMismatch) else Success(kept)
  }

  // ---------------------------------------------------------------------
  // Top p

  /** Some running sum of `row` reaches `p`. */
  predicate Reaches(row: seq<real>, p: real)
  {
    exists j :: 0 <= j < |row| && CumSum(row)[j] >= p
  }

  /** `argmax(cumsum(row) >= p)`: the first position whose running sum
      reaches `p`, or 0 when none does. */
  function TopPThreshold(row: seq<real>, p: real): (t: nat)
    requires |row| > 0
    ensures t < |row|
    ensures Reaches(row, p) ==> CumSum(row)[t] >= p && forall j :: 0 <= j < t ==> CumSum(row)[j] < p
    ensures !Reaches(row, p) ==> t == 0
  {
    var c := CumSum(row);
    var mask := seq(|row|, j requires 0 <= j < |row| => c[j] >= p);
    assert Reaches(row, p) ==> exists j :: 0 <= j < |mask| && mask[j] by {
      if Reaches(row, p) {
        var j :| 0 <= j < |row| && c[j] >= p;
        assert mask[j];
      }
    }
    var t := ArgMaxMask(mask);
    assert forall j :: 0 <= j < t ==> c[j] < p by {
      forall j | 0 <= j < t ensures c[j] < p {
        assert !mask[j];
      }
    }
    t
  }

  /** `sample_top_p` on one row: positions up to the threshold keep their
      value, the rest become 0. */
  function TopPRow(row: seq<real>, p: real): (r: seq<real>)
    requires |row| > 0
    ensures |r| == |row| && r[0] == row[0]
    ensures forall j :: 0 < j < |row| ==>
              r[j] == if Reaches(row, p) && forall m :: 0 <= m < j ==> CumSum(row)[m] < p
                      then row[j] else 0.0
  {
    var t := TopPThreshold(row, p);
    seq(|row|, j requires 0 <= j < |row| => row[j] * (if j <= t then 1.0 else 0.0))
  }

  /** `sample_top_p` (default 0.9); `jnp.argmax` fails on a row of width 0. */
  function SampleTopP(probs: Matrix<real>, topP: Option<real>): (r: Result<Matrix<real>, SampleError>)
    requires probs.Shaped()
    ensures r.Success? <==> probs.width > 0
    ensures r.Failure? ==> r.error == EmptyArgMax
    ensures r.Success? ==>
              && r.value.Shaped() && r.value.width == probs.width && |r.value.rows| == |probs.rows|
              && forall i :: 0 <= i < |probs.rows| ==> r.value.rows[i] == TopPRow(probs.rows[i], topP.GetOr(DefaultTopP))
  {
    var p := topP.GetOr(DefaultTopP);
    if probs.width == 0 then Failure(EmptyArgMax)
    else Success(Matrix(seq(|probs.rows|, i requires 0 <= i < |probs.rows| => TopPRow(probs.rows[i], p)), probs.width))
  }

  // ---------------------------------------------------------------------
  // Random selection

  /** `select_index`, mapped over the rows: one draw per row with its own key. */
  function SelectIndex<K(!new)>(probs: Matrix<real>, subkeys: seq<K>, prng: Prng<K>): (selected: seq<nat>)
    requires probs.Shaped() && |subkeys| == |probs.rows| && ValidPrng(prng)
    ensures |selected| == |probs.rows|
    ensures forall i :: 0 <= i < |probs.rows| && NonNegative(probs.rows[i]) && Sum(probs.rows[i]) > 0.0 ==>
              selected[i] < probs.width && probs.rows[i][selected[i]] > 0.0
  {
    var choice := prng.choice;
    seq(|probs.rows|, i requires 0 <= i < |probs.rows| => choice(subkeys[i], probs.rows[i]))
  }

  /** The row that `select_index` draws from, for one row of probabilities. */
  function Nucleus(probs: seq<real>, k: nat, p: real): seq<real>
    requires 0 < k <= |probs|
  {
    var idx := ArgSort(probs);
    TopPRow(Gather(probs, idx)[..k], p)
  }

  // ---------------------------------------------------------------------
  // sample_tokens

  /** `nucleus` holds, row by row, what top k (of width `nucleus.width`) and
      top p leave of the ranked probabilities. */
  ghost predicate IsNucleusOf(probs: Matrix<real>, indices: Matrix<nat>, nucleus: Matrix<real>, p: real)
  {
    && probs.Shaped() && indices == ArgSortRows(probs)
    && nucleus.Shaped() && 0 < nucleus.width <= probs.width && |nucleus.rows| == |probs.rows|
    && forall i :: 0 <= i < |probs.rows| ==> nucleus.rows[i] == Nucleus(probs.rows[i], nucleus.width, p)
  }

  /** The keys handed to the rows: keys `1..n` of `random.split(key, n + 1)`;
      key 0 is the one handed back. */
  function Subkeys<K(!new)>(key: K, n: nat, prng: Prng<K>): (subkeys: seq<K>)
    requires ValidPrng(prng)
    ensures |subkeys| == n
    ensures forall i :: 0 <= i < n ==> subkeys[i] == prng.split(key, n + 1)[i + 1]
  {
    prng.split(key, n + 1)[1..]
  }

  /** The rank each row draws from its nucleus. */
  function DrawnRanks<K(!new)>(nucleus: Matrix<real>, key: K, prng: Prng<K>): seq<nat>
    requires nucleus.Shaped() && ValidPrng(prng)
  {
    SelectIndex(nucleus, Subkeys(key, |nucleus.rows|, prng), prng)
  }

  /** Random selection and the mapping back (`select_index` and
      `take_along_axis(indices, selected)`). */
  function Draw<K(!new)>(probs: Matrix<real>, indices: Matrix<nat>, nucleus: Matrix<real>, p: real,
                         key: K, prng: Prng<K>): (r: Sampled<K>)
    requires IsDistribution(probs) && ValidPrng(prng) && IsNucleusOf(probs, indices, nucleus, p)
    ensures r.key == Some(prng.split(key, |probs.rows| + 1)[0])
    ensures r.tokenIds.Shaped() && r.tokenIds.width == 1 && |r.tokenIds.rows| == |probs.rows|
    ensures var ranks := DrawnRanks(nucleus, key, prng);
            forall i :: 0 <= i < |probs.rows| ==>
              ranks[i] < nucleus.width && nucleus.rows[i][ranks[i]] > 0.0
              && r.tokenIds.rows[i][0] == indices.rows[i][ranks[i]]
  {
    var selected := DrawnRanks(nucleus, key, prng);
    NucleiHaveMass(probs, indices, nucleus, p);
    PermutationsInRange(probs, indices);
    Sampled(TakeAlong(indices, Column(selected)), Some(prng.split(key, |probs.rows| + 1)[0]))
  }

  /** The sampling path of `sample_tokens`, from the probabilities on: rank,
      keep the top k and the top p, draw one rank per row with its own subkey
      and map it back to a vocabulary position. */
  function SampleRanked<K(!new)>(probs: Matrix<real>, key: K, topK: Option<int>, topP: Option<real>,
                                 prng: Prng<K>): (r: Result<Sampled<K>, SampleError>)
    requires IsDistribution(probs) && ValidPrng(prng)
    ensures var k := topK.GetOr(DefaultTopK);
      && (r.Success? <==> 0 < k <= probs.width)
      && (r.Failure? ==> r.error == if k == 0 then EmptyArgMax else TopKWidthMismatch)
    ensures r.Success? ==>
              var ids := r.value.tokenIds;
              && r.value.key == Some(prng.split(key, |probs.rows| + 1)[0])
              && ids.Shaped() && ids.width == 1 && |ids.rows| == |probs.rows|
              && forall i :: 0 <= i < |ids.rows| ==>
                   ids.rows[i][0] < probs.width && probs.rows[i][ids.rows[i][0]] > 0.0
  {
    var indices := ArgSortRows(probs);
    PermutationsInRange(probs, indices);
    var sorted := TakeAlong(probs, indices);
    match SampleTopK(sorted, topK)
    case Failure(e) => Failure(e)
    case Success(kept) =>
      match SampleTopP(kept, topP)
      case Failure(e) => Failure(e)
      case Success(nucleus) =>
        var p := topP.GetOr(DefaultTopP);
        NucleusOfStages(probs, indices, sorted, kept, nucleus, p);
        var drawn := Draw(probs, indices, nucleus, p, key, prng);
        DrawnTokensArePlausible(probs, indices, nucleus, p, key, prng);
        Success(drawn)
  }

  /** `reshape(selected, (n, 1))`. */
  function Column(selected: seq<nat>): (m: Matrix<nat>)
    ensures m.Shaped() && m.width == 1 && |m.rows| == |selected|
    ensures forall i :: 0 <= i < |selected| ==> m.rows[i][0] == selected[i]
  {
    Matrix(seq(|selected|, i requires 0 <= i < |selected| => [selected[i]]), 1)
  }

  /** `sample_tokens`: greedy at temperature 0 (the key is then optional and
      returned as given), otherwise sampling with a key that is split. */
  function SampleTokens<K(!new)>(logits: Matrix<real>, key: Option<K>, temperature: Option<real>,
                                 topK: Option<int>, topP: Option<real>,
                                 softmax: seq<real> -> seq<real>, prng: Prng<K>): (r: Result<Sampled<K>, SampleError>)
    requires logits.Shaped() && IsSoftmax(softmax) && ValidPrng(prng)
    ensures var t := temperature.GetOr(DefaultTemperature);
      && (key.None? && t != 0.0 ==> r == Failure(MissingKey))
      && (t == 0.0 ==> (r.Success? <==> logits.width > 0))
      && (t == 0.0 && r.Success? ==> r.value.key == key && IsGreedy(logits, r.value.tokenIds))
      && (t == 0.0 && r.Failure? ==> r.error == EmptyArgMax)
    ensures var t := temperature.GetOr(DefaultTemperature);
            var k := topK.GetOr(DefaultTopK);
      key.Some? && t != 0.0 ==>
        && (r.Success? <==> 0 < k <= logits.width)
        && (r.Failure? ==> r.error == if k == 0 then EmptyArgMax else TopKWidthMismatch)
        && (r.Success? ==>
              var ids := r.value.tokenIds;
              && r.value.key == Some(prng.split(key.value, |logits.rows| + 1)[0])
              && ids.Shaped() && ids.width == 1 && |ids.rows| == |logits.rows|
              && forall i :: 0 <= i < |ids.rows| ==>
                   ids.rows[i][0] < logits.width
                   && RowProbabilities(logits.rows[i], t, softmax)[ids.rows[i][0]] > 0.0)
  {
    var t := temperature.GetOr(DefaultTemperature);
    if key.None? && t != 0.0 then Failure(MissingKey)
    else if t == 0.0 then
      match ArgMaxRows(logits)
      case Failure(e) => Failure(e)
      case Success(ids) => Success(Sampled(ids, key))
    else
      var probs := Probabilities(logits, t, softmax);
      ProbabilitiesAreDistribution(logits, t, softmax);
      SampleRanked(probs, key.value, topK, topP, prng)
  }

  // ---------------------------------------------------------------------
  // Properties

  /** Softmax of the scaled logits gives every row a probability
      distribution: non-negative, summing to 1 unless the row is empty. */
  lemma ProbabilitiesAreDistribution(logits: Matrix<real>, t: real, softmax: seq<real> -> seq<real>)
    requires logits.Shaped() && t != 0.0 && IsSoftmax(softmax)
    ensures IsDistribution(Probabilities(logits, t, softmax))
  {
    var probs := Probabilities(logits, t, softmax);
    forall i | 0 <= i < |probs.rows|
      ensures NonNegative(probs.rows[i]) && (probs.width > 0 ==> Sum(probs.rows[i]) == 1.0)
    {
      assert probs.rows[i] == softmax(Scale(logits.rows[i], t));
    }
  }

  /** The row drawn from has positive mass: the top-ranked probability is
      positive and always survives top p. */
  lemma {:induction false} NucleusHasMass(probs: seq<real>, k: nat, p: real)
    requires NonNegative(probs) && Sum(probs) > 0.0 && 0 < k <= |probs|
    ensures NonNegative(Nucleus(probs, k, p)) && Sum(Nucleus(probs, k, p)) > 0.0
  {
    var idx := ArgSort(probs);
    var sorted := Gather(probs, idx);
    var nucleus := Nucleus(probs, k, p);
    var j := PositiveEntry(probs);
    assert j in idx;
    var m :| 0 <= m < |idx| && idx[m] == j;
    assert sorted[0] >= sorted[m];
    assert nucleus[0] == sorted[0] > 0.0;
    assert NonNegative(nucleus) by {
      forall q | 0 <= q < |nucleus| ensures 0.0 <= nucleus[q] {
        assert nucleus[q] == sorted[q] || nucleus[q] == 0.0;
      }
    }
    SumAtLeastEntry(nucleus, 0);
  }

  /** A position of positive weight in the nucleus lies at or before the
      top-p threshold, and the token ranked there has positive probability
      and is beaten only by tokens ranked before it. */
  lemma {:induction false} DrawnRankIsPlausible(probs: seq<real>, k: nat, p: real, c: nat)
    requires 0 < k <= |probs| && c < k && Nucleus(probs, k, p)[c] > 0.0
    ensures var idx := ArgSort(probs);
      && c <= TopPThreshold(Gather(probs, idx)[..k], p)
      && idx[c] < |probs| && probs[idx[c]] > 0.0
      && forall j :: 0 <= j < |probs| && probs[j] > probs[idx[c]] ==> j in idx[..c]
  {
    var idx := ArgSort(probs);
    var head := Gather(probs, idx)[..k];
    var t := TopPThreshold(head, p);
    assert Nucleus(probs, k, p)[c] == head[c];
    forall j | 0 <= j < |probs| && probs[j] > probs[idx[c]] ensures j in idx[..c] {
      RankedBeforeIfLarger(probs, idx, c, j);
    }
  }

  /** Every argsort position is a column of `probs`. */
  lemma PermutationsInRange(probs: Matrix<real>, indices: Matrix<nat>)
    requires probs.Shaped() && indices == ArgSortRows(probs)
    ensures forall i, k :: 0 <= i < |probs.rows| && 0 <= k < indices.width ==> indices.rows[i][k] < probs.width
  {
    forall i, k | 0 <= i < |probs.rows| && 0 <= k < indices.width
      ensures indices.rows[i][k] < probs.width
    {
      assert IsPermutation(indices.rows[i], probs.width);
    }
  }

  /** The stages of `SampleRanked` build a nucleus. */
  lemma NucleusOfStages(probs: Matrix<real>, indices: Matrix<nat>, sorted: Matrix<real>,
                        kept: Matrix<real>, nucleus: Matrix<real>, p: real)
    requires probs.Shaped() && indices == ArgSortRows(probs)
    requires forall i, k :: 0 <= i < |probs.rows| && 0 <= k < indices.width ==> indices.rows[i][k] < probs.width
    requires sorted == TakeAlong(probs, indices)
    requires kept.Shaped() && 0 < kept.width <= probs.width && |kept.rows| == |probs.rows|
    requires forall i :: 0 <= i < |probs.rows| ==> kept.rows[i] == sorted.rows[i][..kept.width]
    requires nucleus.Shaped() && nucleus.width == kept.width && |nucleus.rows| == |probs.rows|
    requires forall i :: 0 <= i < |probs.rows| ==> nucleus.rows[i] == TopPRow(kept.rows[i], p)
    ensures IsNucleusOf(probs, indices, nucleus, p)
  {
    forall i | 0 <= i < |probs.rows|
      ensures nucleus.rows[i] == Nucleus(probs.rows[i], nucleus.width, p)
    {
      assert sorted.rows[i] == Gather(probs.rows[i], ArgSort(probs.rows[i]));
    }
  }

  /** Every row of a nucleus of a distribution has positive mass. */
  lemma NucleiHaveMass(probs: Matrix<real>, indices: Matrix<nat>, nucleus: Matrix<real>, p: real)
    requires IsDistribution(probs) && IsNucleusOf(probs, indices, nucleus, p)
    ensures forall i :: 0 <= i < |probs.rows| ==> NonNegative(nucleus.rows[i]) && Sum(nucleus.rows[i]) > 0.0
  {
    forall i | 0 <= i < |probs.rows|
      ensures NonNegative(nucleus.rows[i]) && Sum(nucleus.rows[i]) > 0.0
    {
      NucleusHasMass(probs.rows[i], nucleus.width, p);
    }
  }

  /** Every drawn token is a vocabulary position of positive probability. */
  lemma DrawnTokensArePlausible<K(!new)>(probs: Matrix<real>, indices: Matrix<nat>, nucleus: Matrix<real>, p: real,
                                          key: K, prng: Prng<K>)
    requires IsDistribution(probs) && ValidPrng(prng) && IsNucleusOf(probs, indices, nucleus, p)
    ensures var ids := Draw(probs, indices, nucleus, p, key, prng).tokenIds;
            forall i :: 0 <= i < |probs.rows| ==> ids.rows[i][0] < probs.width && probs.rows[i][ids.rows[i][0]] > 0.0
  {
    var ids := Draw(probs, indices, nucleus, p, key, prng).tokenIds;
    var ranks := DrawnRanks(nucleus, key, prng);
    forall i | 0 <= i < |probs.rows|
      ensures ids.rows[i][0] < probs.width && probs.rows[i][ids.rows[i][0]] > 0.0
    {
      DrawnRankIsPlausible(probs.rows[i], nucleus.width, p, ranks[i]);
    }
  }

  /** When some running sum reaches `p`, the mass top p keeps is the running
      sum at the threshold, at least `p`; the threshold is the first such
      position, so no shorter prefix reaches `p`. */
  lemma {:induction false} TopPKeptMass(row: seq<real>, p: real)
    requires |row| > 0 && Reaches(row, p)
    ensures Sum(TopPRow(row, p)) == CumSum(row)[TopPThreshold(row, p)] >= p
  {
    var t := TopPThreshold(row, p);
    var r := TopPRow(row, p);
    assert r == row[..t + 1] + Zeros(|row| - t - 1);
    SumAppend(row[..t + 1], Zeros(|row| - t - 1));
    SumZeros(|row| - t - 1);
  }

  /** With `p` equal to the whole mass of a non-negative row, top p changes
      nothing: everything after the threshold is already 0. */
  lemma {:induction false} TopPFullMass(row: seq<real>, p: real)
    requires |row| > 0 && NonNegative(row) && Sum(row) == p
    ensures TopPRow(row, p) == row
  {
    var t := TopPThreshold(row, p);
    ZeroPastFullMass(row, p);
    var r := TopPRow(row, p);
    assert forall j :: 0 <= j < |row| ==> r[j] == if j <= t then row[j] else 0.0;
  }

  /** Past the threshold of the whole mass, a non-negative row is 0. */
  lemma {:induction false} ZeroPastFullMass(row: seq<real>, p: real)
    requires |row| > 0 && NonNegative(row) && Sum(row) == p
    ensures forall j :: TopPThreshold(row, p) < j < |row| ==> row[j] == 0.0
  {
    assert CumSum(row)[|row| - 1] >= p;
    var t := TopPThreshold(row, p);
    var rest := row[t + 1..];
    assert row == row[..t + 1] + rest;
    SumAppend(row[..t + 1], rest);
    assert NonNegative(rest);
    SumZeroMeansAllZero(rest);
    forall j | t < j < |row| ensures row[j] == 0.0 {
      assert row[j] == rest[j - t - 1];
    }
  }

  /** The token drawn for row `i` comes from that row's own subkey (key `i + 1`
      of the split; key 0 is returned), its rank lies within the nucleus and at
      or before the top-p threshold, it is mapped back through the argsort
      permutation, and every more probable token is ranked before it. */
  lemma DrawComesFromNucleus<K(!new)>(probs: Matrix<real>, indices: Matrix<nat>, nucleus: Matrix<real>,
                                       p: real, key: K, prng: Prng<K>, i: nat)
    requires IsDistribution(probs) && ValidPrng(prng) && IsNucleusOf(probs, indices, nucleus, p)
    requires i < |probs.rows|
    ensures var c := DrawnRanks(nucleus, key, prng)[i];
            var row := probs.rows[i];
            var idx := ArgSort(row);
            var id := Draw(probs, indices, nucleus, p, key, prng).tokenIds.rows[i][0];
            && c < nucleus.width && id == idx[c]
            && c <= TopPThreshold(Gather(row, idx)[..nucleus.width], p)
            && forall j :: 0 <= j < |row| && row[j] > row[id] ==> j in idx[..c]
  {
    NucleiHaveMass(probs, indices, nucleus, p);
    var c := DrawnRanks(nucleus, key, prng)[i];
    DrawnRankIsPlausible(probs.rows[i], nucleus.width, p, c);
  }

  /** A successful `SampleRanked` is a `Draw` from the nucleus of width `k`. */
  lemma SampleRankedDraws<K(!new)>(probs: Matrix<real>, key: K, topK: Option<int>, topP: Option<real>, prng: Prng<K>)
    returns (indices: Matrix<nat>, nucleus: Matrix<real>)
    requires IsDistribution(probs) && ValidPrng(prng)
    requires SampleRanked(probs, key, topK, topP, prng).Success?
    ensures IsNucleusOf(probs, indices, nucleus, topP.GetOr(DefaultTopP))
    ensures nucleus.width == topK.GetOr(DefaultTopK)
    ensures SampleRanked(probs, key, topK, topP, prng)
            == Success(Draw(probs, indices, nucleus, topP.GetOr(DefaultTopP), key, prng))
  {
    var p := topP.GetOr(DefaultTopP);
    indices := ArgSortRows(probs);
    PermutationsInRange(probs, indices);
    var sorted := TakeAlong(probs, indices);
    var kept := SampleTopK(sorted, topK).value;
    nucleus := SampleTopP(kept, topP).value;
    NucleusOfStages(probs, indices, sorted, kept, nucleus, p);
  }

  /** With `top_k` 1 every sampled token is a most probable one. */
  lemma {:induction false} TopKOneIsMostProbable<K(!new)>(probs: Matrix<real>, key: K, topP: Option<real>,
                                                          prng: Prng<K>, i: nat, j: nat)
    requires IsDistribution(probs) && ValidPrng(prng)
    requires SampleRanked(probs, key, Some(1), topP, prng).Success?
    requires i < |probs.rows| && j < probs.width
    ensures var id := SampleRanked(probs, key, Some(1), topP, prng).value.tokenIds.rows[i][0];
            probs.rows[i][j] <= probs.rows[i][id]
  {
    var indices, nucleus := SampleRankedDraws(probs, key, Some(1), topP, prng);
    DrawComesFromNucleus(probs, indices, nucleus, topP.GetOr(DefaultTopP), key, prng, i);
  }

  /** With `top_k` equal to the vocabulary size and `top_p` 1, nothing is cut:
      the draw is over the whole ranked distribution. */
  lemma {:induction false} NoTruncationAtFullMass(probs: seq<real>)
    requires |probs| > 0 && NonNegative(probs) && Sum(probs) == 1.0
    ensures Nucleus(probs, |probs|, 1.0) == Gather(probs, ArgSort(probs))
  {
    var sorted := Gather(probs, ArgSort(probs));
    assert sorted[..|probs|] == sorted;
    SortedSum(probs);
    assert NonNegative(sorted);
    TopPFullMass(sorted, 1.0);
  }

  /** When a non-negative row's whole mass falls short of `p`, no running sum
      reaches `p`, the threshold is 0 and only position 0 survives. */
  lemma {:induction false} TopPShortMass(row: seq<real>, p: real)
    requires |row| > 0 && NonNegative(row) && Sum(row) < p
    ensures TopPRow(row, p) == [row[0]] + Zeros(|row| - 1)
  {
    forall j | 0 <= j < |row| ensures CumSum(row)[j] < p {
      PrefixSumAtMost(row, j + 1);
    }
    assert !Reaches(row, p);
    var r := TopPRow(row, p);
    forall j | 0 <= j < |row| ensures r[j] == ([row[0]] + Zeros(|row| - 1))[j] {
    }
  }

  /** With `top_k` equal to the vocabulary size and `top_p` 1, a row whose
      mass falls short of 1 is cut to its most probable entry alone. */
  lemma {:induction false} ShortMassKeepsTopToken(probs: seq<real>)
    requires |probs| > 0 && NonNegative(probs) && Sum(probs) < 1.0
    ensures var sorted := Gather(probs, ArgSort(probs));
            Nucleus(probs, |probs|, 1.0) == [sorted[0]] + Zeros(|probs| - 1)
  {
    var sorted := Gather(probs, ArgSort(probs));
    assert sorted[..|probs|] == sorted;
    SortedSum(probs);
    assert NonNegative(sorted);
    TopPShortMass(sorted, 1.0);
  }
}
