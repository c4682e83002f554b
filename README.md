# llama-jax: token selection and the forward pass, in Dafny

This project models the core of `src/llama_jax/model.py` in the llama-jax
repository. That file holds two things.

- **Token selection** (`sample_tokens`, `sample_top_k`, `sample_top_p`,
  `select_index`). These are whole-array expressions, so they become
  functions over rows of `real`s (`sampling.dfy`).
  - At temperature 0 the result is the greedy `argmax` of each row, and the
    key is returned as given.
  - Otherwise the probabilities are ranked by a descending argsort, and top k
    and then top p cut the ranked row. One subkey per batch row draws a rank
    from what is left. That rank is mapped back through the argsort
    permutation to a vocabulary position.
  - Supporting modules: `ranking.dfy` holds the stable descending argsort and
    its permutation and order proofs. `numerics.dfy` holds sums, running
    sums and the first-maximum `argmax`. `wrappers.dfy` holds
    `Option`/`Result`.
- **`forward`**. It walks the layers in order over a mutable view of the
  key/value cache, so it becomes a method over an array of cache slots
  (`forward.dfy`).
  - The method is proved equal to a specification function.
  - That function is built on `Apply`, the layers applied in order.
  - Lemmas describe what ends up in every slot.

Floating-point softmax and the JAX random generator are abstracted as
parameters with contracts:

- **Softmax** keeps the width and yields non-negative numbers that sum to 1.
- **`random.split(key, n)`** returns `n` keys.
- **`random.choice`**, on a non-negative row of positive mass, returns a
  position of positive weight. The division by the row sum in `select_index`
  is folded into it.

The embeddings, each layer, the head and the cache helpers are parameters of
`forward` (`Runtime`). The rope and the mask are represented by their sizes,
`Rope(n)` and `Mask(query_length)`.

In `sample_top_k`, `probs[..., :top_k]` is followed by
`assert probs.shape[-1] == top_k`, so a `top_k` above the row width fails
instead of keeping the whole row. The model follows the code (`SampleTopK`,
error `TopKWidthMismatch`).

## Model

| member | source | states |
|---|---|---|
| Sampling.SampleTokens | src/llama_jax/model.py:116-181 | `temperature` defaults to 0.6. A missing key with non-zero temperature is `MissingKey`. At temperature 0 the call succeeds iff the vocabulary is non-empty, returns the key unchanged and yields the first maximal logit of every row. Otherwise it succeeds iff 0 < top_k <= vocabulary width; `top_k` 0 fails in `argmax` and any other bad `top_k` fails the width assert. Key 0 of `split(key, n+1)` is returned. Every id is a vocabulary position whose probability is positive. |
| Sampling.ArgMaxRows | src/llama_jax/model.py:143-144 | Succeeds iff the width is positive. Yields one id per row (`keepdims`): a maximal entry, and the first such. |
| Numerics.ArgMax | src/llama_jax/model.py:144 | The index is in range, no entry exceeds it, and every earlier entry is strictly smaller (ties go to the first). |
| Sampling.ProbabilitiesAreDistribution | src/llama_jax/model.py:146-153 | Softmax of the temperature-scaled logits gives every row a probability distribution: non-negative, summing to 1 unless the vocabulary is empty. |
| Sampling.Probabilities | src/llama_jax/model.py:146-153 | Row by row the probabilities of the logits; the shape is kept. |
| Ranking.ArgSort | src/llama_jax/model.py:156 | The result is a permutation of the positions, the gathered values are non-increasing, and equal values keep their original order. |
| Ranking.RankedBeforeIfLarger | src/llama_jax/model.py:156 | Every position with a larger value than rank `c` is ranked before `c`. |
| Ranking.TopRankedIsLargest | src/llama_jax/model.py:156 | The position ranked first holds a largest value of the row. |
| Ranking.SortedSum | src/llama_jax/model.py:156-157 | Reordering by the argsort keeps the total mass. |
| Sampling.ArgSortRows | src/llama_jax/model.py:156 | Each row of `indices` is the argsort of that row of probabilities. |
| Sampling.TakeAlong | src/llama_jax/model.py:157 | `take_along_axis`: entry (i, k) is entry (i, indices[i][k]) of the source; the shape follows `indices`. |
| Sampling.PermutationsInRange | src/llama_jax/model.py:156-157 | Every argsort entry is a column of the probabilities. |
| Sampling.SampleTopK | src/llama_jax/model.py:184-194 | `top_k` defaults to 50. Succeeds iff 0 <= top_k <= width, otherwise `TopKWidthMismatch`. On success every row is exactly the first `top_k` entries of the input row, and the width is `top_k`. |
| Numerics.CumSum | src/llama_jax/model.py:209 | Entry j is the sum of the first j+1 entries; the last is the whole sum. |
| Numerics.ArgMaxMask | src/llama_jax/model.py:210 | The first true position, or 0 when none is true. |
| Sampling.TopPThreshold | src/llama_jax/model.py:208-210 | The threshold is in range. When some running sum reaches `p`, it is the first position that does. Otherwise it is 0. |
| Sampling.TopPRow | src/llama_jax/model.py:212-216 | The length is kept and position 0 always survives. A later position keeps its value iff some running sum reaches `p` and no earlier one does, and is 0 otherwise. When nothing reaches `p`, only position 0 survives. |
| Sampling.SampleTopP | src/llama_jax/model.py:197-218 | `top_p` defaults to 0.9. Fails with `EmptyArgMax` iff the width is 0. Otherwise the shape is kept and every row is its top-p row. |
| Sampling.TopPKeptMass | src/llama_jax/model.py:208-216 | When some running sum reaches `p`, the kept mass is the running sum at the threshold, which is at least `p`. |
| Sampling.TopPFullMass | src/llama_jax/model.py:208-216 | With `p` equal to the whole mass of a non-negative row, top p changes nothing. |
| Sampling.TopPShortMass | src/llama_jax/model.py:208-216 | When a non-negative row's whole mass is below `p`, no running sum reaches `p`, the threshold is 0 and the row becomes its first entry followed by zeros. |
| Sampling.SelectIndex | src/llama_jax/model.py:221-231 | One draw per row with its own key. On a non-negative row of positive mass the draw is an in-range position of positive weight. |
| Sampling.Subkeys | src/llama_jax/model.py:173-174 | Row i gets key i+1 of `split(key, n+1)`. |
| Sampling.NucleusHasMass | src/llama_jax/model.py:162-167 | What top k and top p leave of a non-negative row of positive mass is non-negative with positive mass, so `select_index` always has something to draw. |
| Sampling.NucleiHaveMass | src/llama_jax/model.py:162-175 | The same, for every row of the batch. |
| Sampling.NucleusOfStages | src/llama_jax/model.py:155-167 | Argsort, take-along, top k and top p together yield the nucleus of every row. |
| Sampling.Draw | src/llama_jax/model.py:172-181 | Key 0 of `split(key, n+1)` is returned. One id per row. Each drawn rank lies in the nucleus with positive weight, and the id is `indices[row][rank]`. |
| Sampling.SampleRanked | src/llama_jax/model.py:149-181 | Succeeds iff 0 < top_k <= width, with `EmptyArgMax` for top_k 0 and `TopKWidthMismatch` otherwise. On success it returns key 0 of the split and one id per row, each a position of positive probability. |
| Sampling.SampleRankedDraws | src/llama_jax/model.py:155-181 | A successful selection is a `Draw` from the nucleus of width `top_k` cut at `top_p` (default 0.9). |
| Sampling.DrawnRankIsPlausible | src/llama_jax/model.py:155-179 | A rank of positive weight in the nucleus lies at or before the top-p threshold. The token at that rank has positive probability, and every more probable token is ranked before it. |
| Sampling.DrawnTokensArePlausible | src/llama_jax/model.py:172-181 | Every drawn id is a vocabulary position of positive probability. |
| Sampling.DrawComesFromNucleus | src/llama_jax/model.py:173-179 | Row i's rank is within top k and at or before the top-p threshold. The id is the argsort entry at that rank. Every more probable token is ranked before it. |
| Sampling.TopKOneIsMostProbable | src/llama_jax/model.py:162-181 | With `top_k` 1, every sampled id has maximal probability in its row. |
| Sampling.NoTruncationAtFullMass | src/llama_jax/model.py:162-167 | With `top_k` the width and `top_p` 1, the draw is over the whole ranked distribution. |
| Sampling.ShortMassKeepsTopToken | src/llama_jax/model.py:162-167 | With `top_k` the width and `top_p` 1, a row whose mass falls short of 1 is cut to its most probable entry alone. |
| ModelForward.Apply | src/llama_jax/model.py:100-101 | After `n` layers the number of slots is unchanged and slots from `n` on are untouched. |
| ModelForward.ApplyLayer | src/llama_jax/model.py:99-104 | Layer j consumes the activations of the layers before it and the original slot j. Its output is the activations after j+1 layers and the final content of slot j. |
| ModelForward.ForwardReturnsApplied | src/llama_jax/model.py:94-111 | With a cache passed, a successful call returns the head applied to the activations after all layers (embeddings first, then the layers in order with one rope and one mask), together with the slots the layers leave. |
| ModelForward.ForwardResult | src/llama_jax/model.py:62-113 | A tensor of rank other than 2 fails the assert. Otherwise it succeeds iff the cache has a slot for every layer (`MissingCacheSlot` names the first missing one). The result is a (logits, cache) pair iff a cache was passed, and the returned cache has as many slots as the one passed. |
| ModelForward.Forward | src/llama_jax/model.py:62-113 | The array-and-loop implementation returns exactly `ForwardResult`. |
| ModelForward.ForwardCacheSlot | src/llama_jax/model.py:84-104 | With a cache passed, a successful call returns a cache with the same number of slots. Every layer gets one rope, for cache length + query length, and one mask, for the query length. Returned slot j is layer j's cache, computed from the given slot j and the activations of the layers before it. Slots past the last layer come back unchanged. |
| ModelForward.DefaultCacheOnlyChangesShape | src/llama_jax/model.py:72-113 | Passing no cache behaves as passing a freshly created one, except that only the logits are returned. |

## Left out

- Floating point.
  - Softmax, the division by the temperature and the renormalisation in
    `select_index` are abstracted as described above.
  - Probabilities are exact `real`s, so rounding in `cumsum` is not modelled.
- Sampling.NoTruncationAtFullMass: assumes the softmax row sums to exactly 1.
  A floating-point row whose last running sum lands just below 1 does not
  reach `top_p` 1, so the threshold is 0 and only the top token is kept;
  `Sampling.ShortMassKeepsTopToken` and `Sampling.TopPShortMass` state that
  case.
- The JAX random generator (`random.split`, `random.choice`) is a parameter
  (`Prng`). Only the contract stated above is modelled, not the
  distribution of the draw.
- `jax.jit`, `jax.vmap` and `static_argnames` are compilation and batching
  devices, not behaviour.
- Rank checks on token selection: `assert logits.ndim == 2` and
  `assert probs.ndim == 2` hold by construction, because the model's
  `Matrix` is always rank 2.
- Ranking order and ties.
  - `jnp.argsort(..., descending=True)` is modelled as a stable descending
    sort: equal probabilities keep their original order.
  - Elsewhere the model depends only on the result being a permutation with
    non-increasing values.
- The internals of the embeddings, layers, head, RoPE, attention mask and
  key/value cache. Their sources are not part of this model, so they are
  parameters.
  - `src/llama_jax/layer.py` lists its parameters as `(…, x, kv_cache)`,
    while `model.py:101` passes the cache before `x`. The layer is taken
    as called at `model.py:101`.
- `ModelForward.ForwardResult`: the error on a cache with fewer slots than
  layers is an assumption about `MutableKVCache`, whose indexing is not
  part of this model.
- `create` (model.py:37-59) assembles a `Model` from a checkpoint: loading
  and configuration only.
- Checkpoint loading, `rms_norm.py` (floating-point normalisation) and the
  tests, which depend on downloaded checkpoints.
- Incremental decoding (feeding one token at a time with a cache gives
  the same logits as one full pass) depends on attention and the cache
  internals, and is not modelled.
