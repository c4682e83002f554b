/** `forward` of `llama_jax.model`: embeddings, then the layers in order over
    a mutable view of the key/value cache, then the head.

    The embeddings, each layer, the head and the cache helpers are
    parameters (`Runtime`): only the way `forward` threads the activations
    and the cache slots through them is modelled. RoPE and the attention
    mask are pure functions of their size, so they are represented by it. */
module ModelForward {
  import opened Wrappers

  /** The `tokens` array: its shape and its ids in row-major order. */
  datatype Tokens = Tokens(shape: seq<nat>, ids: seq<int>)

  /** `rope.create(config, n)`: rotation matrices for `length` positions. */
  datatype Rope = Rope(length: nat)

  /** `attention_mask(query_length, dtype)`: causal bias for `queryLength` queries. */
  datatype Mask = Mask(queryLength: nat)

  /** The model state: embedding table, layer parameters, head parameters. */
  datatype Model<E, L, H> = Model(embeddings: E, layers: seq<L>, head: H)

  /** What `forward` calls: `embeddings.forward`, `layer.forward` (returning
      the new activations and the layer's new cache), `head.forward`,
      `kv_cache.create` (the cache used when none is given) and
      `kv_cache.length` (the number of positions already cached). */
  datatype Runtime<!E, !L, !H, !X, Y, !C> = Runtime(
    embed: (E, Tokens) -> X,
    layer: (L, Rope, Mask, C, X) -> (X, C),
    head: (H, X) -> Y,
    create: seq<C>,
    length: seq<C> -> nat)

  /** `forward` returns the logits alone, or with the updated cache when the
      caller passed one. */
  datatype Output<Y, C> = Logits(logits: Y) | LogitsAndCache(logits: Y, cache: seq<C>)

  datatype ForwardError =
    | NotRank2                      // `assert tokens.ndim == 2`
    | MissingCacheSlot(index: nat)  // the cache has no slot for layer `index`

  /** Activations and cache slots after some of the layers. */
  datatype Threaded<X, C> = Threaded(x: X, slots: seq<C>)

  /** The first `n` layers applied in order to `x0`: layer `j` consumes the
      activations left by layer `j - 1` and its own slot `j`, and replaces
      slot `j` with the cache it returns. */
  function Apply<L, X, C>(layer: (L, Rope, Mask, C, X) -> (X, C), layers: seq<L>, rope: Rope, mask: Mask,
                          x0: X, slots0: seq<C>, n: nat): (r: Threaded<X, C>)
    requires n <= |layers| && n <= |slots0|
    ensures |r.slots| == |slots0|
    ensures forall j :: n <= j < |slots0| ==> r.slots[j] == slots0[j]
  {
    if n == 0 then Threaded(x0, slots0)
    else
      var prev := Apply(layer, layers, rope, mask, x0, slots0, n - 1);
      var out := layer(layers[n - 1], rope, mask, prev.slots[n - 1], prev.x);
      Threaded(out.0, prev.slots[n - 1 := out.1])
  }

  /** The cache `forward` works on: the one given, or a fresh one. */
  function CacheOrDefault<C>(create: seq<C>, kvCache: Option<seq<C>>): seq<C>
  {
    kvCache.GetOr(create)
  }

  /** What `forward` computes. */
  function ForwardResult<E, L, H, X, Y, C>(rt: Runtime<E, L, H, X, Y, C>, model: Model<E, L, H>,
                                           tokens: Tokens, kvCache: Option<seq<C>>)
    : (r: Result<Output<Y, C>, ForwardError>)
    ensures |tokens.shape| != 2 ==> r == Failure(NotRank2)
    ensures |tokens.shape| == 2 ==>
              var cache := CacheOrDefault(rt.create, kvCache);
              && (r.Success? <==> |model.layers| <= |cache|)
              && (r.Failure? ==> r.error == MissingCacheSlot(|cache|))
    ensures r.Success? ==> (r.value.LogitsAndCache? <==> kvCache.Some?)
    ensures r.Success? && r.value.LogitsAndCache? ==> |r.value.cache| == |kvCache.value|
  {
    var cache := CacheOrDefault(rt.create, kvCache);
    if |tokens.shape| != 2 then Failure(NotRank2)
    else if |cache| < |model.layers| then Failure(MissingCacheSlot(|cache|))
    else
      var queryLength := tokens.shape[1];
      var rope := Rope(rt.length(cache) + queryLength);
      var mask := Mask(queryLength);
      var x := rt.embed(model.embeddings, tokens);
      var done := Apply(rt.layer, model.layers, rope, mask, x, cache, |model.layers|);
      var logits := rt.head(model.head, done.x);
      if kvCache.Some? then Success(LogitsAndCache(logits, done.slots)) else Success(Logits(logits))
  }

  /** `forward`: the cache slots live in an array that the layer loop
      overwrites one slot at a time, then are frozen into a sequence. */
  method Forward<E, L, H, X, Y, C>(rt: Runtime<E, L, H, X, Y, C>, model: Model<E, L, H>,
                                   tokens: Tokens, kvCache: Option<seq<C>>)
    returns (r: Result<Output<Y, C>, ForwardError>)
    ensures r == ForwardResult(rt, model, tokens, kvCache)
  {
    var external := kvCache.Some?;
    var cache := CacheOrDefault(rt.create, kvCache);
    if |tokens.shape| != 2 {
      return Failure(NotRank2);
    }
    var queryLength := tokens.shape[1];
    var n := rt.length(cache) + queryLength;
    var rope := Rope(n);
    var mask := Mask(queryLength);
    var x := rt.embed(model.embeddings, tokens);
    var x0 := x;
    var kvc := new C[|cache|](j requires 0 <= j < |cache| => cache[j]);
    for i := 0 to |model.layers|
      invariant kvc.Length == |cache| && i <= |cache|
      invariant Apply(rt.layer, model.layers, rope, mask, x0, cache, i) == Threaded(x, kvc[..])
    {
      if i >= kvc.Length {
        return Failure(MissingCacheSlot(i));
      }
      var out := rt.layer(model.layers[i], rope, mask, kvc[i], x);
      x, kvc[i] := out.0, out.1;
    }
    var frozen := kvc[..];
    var logits := rt.head(model.head, x);
    if external {
      return Success(LogitsAndCache(logits, frozen));
    }
    return Success(Logits(logits));
  }

  // ---------------------------------------------------------------------
  // Properties

  /** Layer `j` of the first `n` turns the activations of the layers before
      it and the original slot `j` into the activations after `j + 1`
      layers and the slot `j` found after all `n`: later layers leave the
      slot alone. */
  lemma {:induction false} ApplyLayer<L, X, C>(layer: (L, Rope, Mask, C, X) -> (X, C), layers: seq<L>,
                                              rope: Rope, mask: Mask, x0: X, slots0: seq<C>, n: nat, j: nat)
    requires n <= |layers| && n <= |slots0| && j < n
    ensures layer(layers[j], rope, mask, slots0[j], Apply(layer, layers, rope, mask, x0, slots0, j).x)
            == (Apply(layer, layers, rope, mask, x0, slots0, j + 1).x, Apply(layer, layers, rope, mask, x0, slots0, n).slots[j])
  {
    if j < n - 1 {
      ApplyLayer(layer, layers, rope, mask, x0, slots0, n - 1, j);
    }
  }

  /** With a cache passed, a successful `forward` returns the head applied to
      the activations of all layers, and the slots they leave. */
  lemma ForwardReturnsApplied<E, L, H, X, Y, C>(rt: Runtime<E, L, H, X, Y, C>, model: Model<E, L, H>,
                                                tokens: Tokens, kvCache: seq<C>)
    requires ForwardResult(rt, model, tokens, Some(kvCache)).Success?
    ensures var q := tokens.shape[1];
            var done := Apply(rt.layer, model.layers, Rope(rt.length(kvCache) + q), Mask(q),
                              rt.embed(model.embeddings, tokens), kvCache, |model.layers|);
            ForwardResult(rt, model, tokens, Some(kvCache)).value
            == LogitsAndCache(rt.head(model.head, done.x), done.slots)
  {
  }

  /** On success, every layer gets the same rope, built for the cached
      positions plus the query, and the same mask for the query length.
      Returned slot `j` holds layer `j`'s cache, computed from the given
      slot `j` and the activations of the layers before it; a slot past the
      last layer comes back unchanged. */
  lemma ForwardCacheSlot<E, L, H, X, Y, C>(rt: Runtime<E, L, H, X, Y, C>, model: Model<E, L, H>,
                                           tokens: Tokens, kvCache: seq<C>, j: nat)
    requires ForwardResult(rt, model, tokens, Some(kvCache)).Success? && j < |kvCache|
    ensures var r := ForwardResult(rt, model, tokens, Some(kvCache)).value;
            var q := tokens.shape[1];
            var rope := Rope(rt.length(kvCache) + q);
            var x0 := rt.embed(model.embeddings, tokens);
            && r.LogitsAndCache? && |r.cache| == |kvCache|
            && r.cache[j] == if j < |model.layers|
                             then rt.layer(model.layers[j], rope, Mask(q), kvCache[j],
                                           Apply(rt.layer, model.layers, rope, Mask(q), x0, kvCache, j).x).1
                             else kvCache[j]
  {
    ForwardReturnsApplied(rt, model, tokens, kvCache);
    if j < |model.layers| {
      var q := tokens.shape[1];
      ApplyLayer(rt.layer, model.layers, Rope(rt.length(kvCache) + q), Mask(q),
                 rt.embed(model.embeddings, tokens), kvCache, |model.layers|, j);
    }
  }

  /** Passing no cache is passing a fresh one, except that only the logits
      are returned: the cache argument decides the shape of the result and
      nothing else. */
  lemma DefaultCacheOnlyChangesShape<E, L, H, X, Y, C>(rt: Runtime<E, L, H, X, Y, C>, model: Model<E, L, H>,
                                                       tokens: Tokens)
    ensures var without := ForwardResult(rt, model, tokens, None);
            var with := ForwardResult(rt, model, tokens, Some(rt.create));
            && (without.Success? <==> with.Success?)
            && (without.Failure? ==> without.error == with.error)
            && (without.Success? ==> without.value == Logits(with.value.logits))
  {
  }
}
