/** The request-local state of the sequential CPU path: known output tokens and one K/V cache per
    layer. One call runs one token, or one whole prompt chunk. */
module TokenStates {
  import opened Transformer
  import opened Decoding
  import opened Schedules
  import opened PerLayerInputs

  datatype TokenResult = Emitted(token: int, logits: seq<real>) | Consumed | Failed

  class TokenState {
    const m: Model
    const cache: array<seq<KV>>
    var output: seq<int>

    constructor (m: Model, prepared: seq<int>)
      ensures this.m == m && output == prepared && fresh(cache) && cache[..] == NoCaches(m)
    {
      this.m := m;
      output := prepared;
      cache := new seq<KV>[|m.layers|](_ => []);
      new;
      assert cache[..] == NoCaches(m);
    }

    /** Runs `token` at position `|prefix|` on the true caches of `prefix`. Logits are produced only at
        or after the last known output position. */
    method RunToken(token: int, ghost prefix: seq<int>, pos: nat) returns (r: TokenResult)
      requires SourcesOk(m) && cache[..] == TrueCaches(m, prefix) && |prefix| == pos && TokensOk(m, prefix)
      modifies cache
      ensures OnlyAppended(old(cache[..]), cache[..])
      ensures r.Failed? <==> !TokensOk(m, prefix + [token])
      ensures !r.Failed? ==> cache[..] == TrueCaches(m, prefix + [token])
      ensures !r.Failed? ==> (r.Emitted? <==> pos >= |output| - 1)
      ensures r.Emitted? ==> r.logits == LogitsAfter(m, prefix + [token]) && r.token == Next(m, prefix + [token])
    {
      hide HiddenAt, RunOk, Caches, FinalRows, TrueCaches;
      ExtendOne(m, prefix, token);
      var run := RunOf(m, [token], pos, cache[..]);
      var ok, rows := RunRowsSequential(m, run, cache);
      if !ok {
        return Failed;
      }
      if pos >= |output| - 1 {
        var logits := m.logits(rows[0]);
        return Emitted(m.argmax(logits), logits);
      }
      return Consumed;
    }

    /** Runs prompt token `pos` once more, over caches a failed layer-major pass may have left longer. */
    method RerunToken(pos: nat) returns (r: TokenResult)
      requires SourcesOk(m) && pos < |output| && Holding(m, FreshRun(m, output), pos, cache[..])
      modifies cache
      ensures r.Failed? <==> !RowOk(m, FreshRun(m, output), pos)
      ensures !r.Failed? ==> Holding(m, FreshRun(m, output), pos + 1, cache[..])
      ensures !r.Failed? ==> (r.Emitted? <==> pos >= |output| - 1)
      ensures r.Emitted? ==> r.logits == LogitsAfter(m, output) && r.token == Next(m, output)
    {
      hide RowOk, Holding, HiddenAt;
      var run := RunOf(m, output, 0, NoCaches(m));
      var ok, hidden := RerunRow(m, run, pos, cache);
      if !ok {
        return Failed;
      }
      if pos >= |output| - 1 {
        var logits := m.logits(hidden);
        return Emitted(m.argmax(logits), logits);
      }
      return Consumed;
    }

    /** Layer-major run of a whole chunk, with no per-layer inputs; returns its last hidden row. */
    method RunChunk(chunk: seq<int>, ghost prefix: seq<int>, start: nat) returns (ok: bool, last: Vec)
      requires SourcesOk(m) && cache[..] == TrueCaches(m, prefix) && |prefix| == start && TokensOk(m, prefix)
      requires chunk != []
      modifies cache
      ensures OnlyAppended(old(cache[..]), cache[..])
      ensures ok <==> BatchedOk(m, prefix, chunk)
      ensures ok ==> cache[..] == BatchedCaches(m, prefix, chunk)
      ensures ok ==> m.logits(last) == BatchedLogits(m, prefix, chunk)
      ensures !UsesInputs(m) && prefix == [] ==> Holding(m, FreshRun(m, chunk), 0, cache[..])
    {
      hide Holding;
      if !UsesInputs(m) && prefix == [] {
        WholePrompt(m, chunk);
      }
      hide HiddenAt, RunOk, Caches, TrueCaches;
      var bare := WithoutInputs(m);
      assert forall l :: 0 <= l < |m.layers| && SourceOk(m, l) ==> SourceOk(bare, l);
      var run := RunOf(m, chunk, start, cache[..]);
      var rows;
      ok, rows := BatchForward(bare, run, cache, true);
      last := m.embed(chunk[0]);
      if ok {
        last := rows[|chunk| - 1];
      }
    }
  }

  /** A batched run of a whole prompt is its fresh run when no layer uses per-layer inputs. */
  lemma WholePrompt(m: Model, tokens: seq<int>)
    requires !UsesInputs(m)
    ensures WithoutInputs(m) == m && RunOf(m, tokens, 0, TrueCaches(m, [])) == FreshRun(m, tokens)
  {
    NothingCached(m);
    assert WithoutInputs(m).layers == m.layers;
  }
}
