/** Per-layer inputs and the batched prompt pass. The batch a session builds for its prompt carries no
    per-layer inputs, so it runs the stack with every per-layer-input step left out. A quantized
    per-layer-input gate does not stop a chunk from being batched, so for such a stack the batched and the
    token-at-a-time prompt passes are two different computations. */
module PerLayerInputs {
  import opened Transformer
  import opened Decoding

  /** Some layer adds a per-layer-input delta. */
  predicate UsesInputs(m: Model) {
    exists l :: 0 <= l < |m.layers| && m.layers[l].perLayerInput
  }

  /** The stack the batched prompt pass executes: no layer adds a per-layer-input delta, and nothing else
      is different. */
  function WithoutInputs(m: Model): (bare: Model)
    ensures bare.(layers := m.layers) == m && !UsesInputs(bare) && |bare.layers| == |m.layers|
    ensures forall l :: 0 <= l < |m.layers| ==>
                          bare.layers[l].(perLayerInput := m.layers[l].perLayerInput) == m.layers[l]
  {
    m.(layers := seq(|m.layers|, l requires 0 <= l < |m.layers| => m.layers[l].(perLayerInput := false)))
  }

  /** What the batched pass leaves after running `chunk` on the true caches of `prefix`. */
  ghost function BatchedCaches(m: Model, prefix: seq<int>, chunk: seq<int>): seq<seq<KV>> {
    Caches(WithoutInputs(m), RunOf(m, chunk, |prefix|, TrueCaches(m, prefix)), |chunk|)
  }

  /** The logits the batched pass finds after the last row of `chunk`. */
  ghost function BatchedLogits(m: Model, prefix: seq<int>, chunk: seq<int>): seq<real>
    requires chunk != []
  {
    m.logits(FinalRows(WithoutInputs(m), RunOf(m, chunk, |prefix|, TrueCaches(m, prefix)))[|chunk| - 1])
  }

  /** No kernel rejects a row of `chunk` in the batched pass. */
  ghost predicate BatchedOk(m: Model, prefix: seq<int>, chunk: seq<int>) {
    RunOk(WithoutInputs(m), RunOf(m, chunk, |prefix|, TrueCaches(m, prefix)))
  }

  /** Without per-layer inputs a batched chunk is the sequential one: same rejections, caches and logits. */
  lemma BatchedIsSequential(m: Model, prefix: seq<int>, chunk: seq<int>)
    requires !UsesInputs(m) && TokensOk(m, prefix)
    ensures BatchedOk(m, prefix, chunk) <==> TokensOk(m, prefix + chunk)
    ensures BatchedCaches(m, prefix, chunk) == TrueCaches(m, prefix + chunk)
    ensures chunk != [] ==> BatchedLogits(m, prefix, chunk) == LogitsAfter(m, prefix + chunk)
  {
    hide RunOk, Caches, TrueCaches, HiddenAt;
    assert WithoutInputs(m).layers == m.layers;
    Extend(m, prefix, chunk);
    if chunk != [] {
      assert FinalRows(m, FreshRun(m, prefix + chunk))[|prefix|..][|chunk| - 1] ==
             FinalRows(m, FreshRun(m, prefix + chunk))[|prefix + chunk| - 1];
    }
  }

  /** Kernels that tell two rows apart only by whether a per-layer-input delta was ever added: `plain` is
      every row until a delta turns it into `marked`. */
  ghost function Marking(layers: seq<LayerSpec>, plain: Vec, marked: Vec): Model {
    Model(layers, 0, 2, _ => plain, _ => plain,
          (l, h, pos) => QKV(plain, plain, plain), (l, q, kv) => plain,
          (l, h) => plain, (l, h) => plain, (l, h) => plain, (l, h) => plain,
          (x, y) => if y == marked then marked else x,
          (l, h, inputs) => marked, (l, h) => h,
          (l, h, pos) => true, (l, h, attn) => true,
          h => if h == marked then [0.0, 1.0] else [1.0, 0.0],
          x => if |x| > 1 && x[1] > x[0] then 1 else 0)
  }

  lemma {:induction false} MarkedRows(m: Model, plain: Vec, marked: Vec, run: Run, l: nat, r: nat)
    requires plain != marked && m == Marking(m.layers, plain, marked)
    requires ValidRun(m, run) && l <= |m.layers| && r < |run.inputs| && run.inputs[r] == plain
    ensures HiddenAt(m, run, l, r) == if exists i :: 0 <= i < l && m.layers[i].perLayerInput then marked else plain
  {
    if l > 0 {
      MarkedRows(m, plain, marked, run, l - 1, r);
    }
  }

  /** The batched pass over a whole prompt picks the boundary token the sequential pass picks. */
  ghost predicate SameBoundary(m: Model, tokens: seq<int>)
    requires tokens != []
  {
    TokensOk(m, tokens) ==> BatchedOk(m, [], tokens) && m.argmax(BatchedLogits(m, [], tokens)) == Next(m, tokens)
  }

  /** The two prompt passes agree whatever the weights are exactly when no layer uses per-layer inputs.
      `plain` and `marked` only say that there are two different rows. */
  lemma PassesAgreeIffNoInputs(layers: seq<LayerSpec>, plain: Vec, marked: Vec, tokens: seq<int>)
    requires plain != marked && tokens != []
    requires forall l :: 0 <= l < |layers| ==>
                           layers[l].hasKV || (0 <= layers[l].kvSource < l && layers[layers[l].kvSource].hasKV)
    ensures (forall m: Model :: m.layers == layers ==> SameBoundary(m, tokens))
       <==> forall l :: 0 <= l < |layers| ==> !layers[l].perLayerInput
  {
    if exists l :: 0 <= l < |layers| && layers[l].perLayerInput {
      var m := BatchDropsInputs(layers, plain, marked, tokens);
      assert !SameBoundary(m, tokens);
    } else {
      forall m: Model | m.layers == layers
        ensures SameBoundary(m, tokens)
      {
        NothingCached(m);
        BatchedIsSequential(m, [], tokens);
        assert [] + tokens == tokens;
      }
    }
  }

  /** For every layer stack that uses per-layer inputs there are kernels for which the batched pass picks
      another boundary token after any prompt. */
  lemma BatchDropsInputs(layers: seq<LayerSpec>, plain: Vec, marked: Vec, tokens: seq<int>) returns (m: Model)
    requires plain != marked && tokens != []
    requires exists l :: 0 <= l < |layers| && layers[l].perLayerInput
    requires forall l :: 0 <= l < |layers| ==>
                           layers[l].hasKV || (0 <= layers[l].kvSource < l && layers[layers[l].kvSource].hasKV)
    ensures m.layers == layers && WellFormed(m) && SourcesOk(m) && UsesInputs(m)
    ensures TokensOk(m, tokens) && BatchedOk(m, [], tokens)
    ensures m.argmax(BatchedLogits(m, [], tokens)) != Next(m, tokens)
  {
    m := Marking(layers, plain, marked);
    var n := |tokens| - 1;
    NothingCached(m);
    MarkedRows(m, plain, marked, FreshRun(m, tokens), |layers|, n);
    var bare, run := WithoutInputs(m), RunOf(m, tokens, 0, TrueCaches(m, []));
    assert bare == Marking(bare.layers, plain, marked);
    MarkedRows(bare, plain, marked, run, |layers|, n);
    NeverRejected(m, plain, marked, FreshRun(m, tokens));
    NeverRejected(bare, plain, marked, run);
  }

  lemma NeverRejected(m: Model, plain: Vec, marked: Vec, run: Run)
    requires m == Marking(m.layers, plain, marked) && ValidRun(m, run) && SourcesOk(m)
    ensures RunOk(m, run)
  {
    forall r | 0 <= r < |run.inputs|
      ensures RowOk(m, run, r)
    {
      for l := 0 to |m.layers|
        invariant RowOkBelow(m, run, r, l)
      {
        assert SourceOk(m, l);
      }
    }
  }
}
