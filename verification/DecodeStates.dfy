/** Plain generation from a prepared prompt, and the decode state speculative decoding works on. */
module DecodeStates {
  import opened Transformer
  import opened Decoding
  import opened Schedules
  import opened TokenStates
  import opened PerLayerInputs
  import opened Acceptance
  import opened Wrappers

  /** A greedy continuation that reached its length determines every shorter one. */
  lemma {:induction false} GreedyPrefix(m: Model, tokens: seq<int>, k: nat, n: nat)
    requires k <= n
    ensures Greedy(m, tokens, k) <= Greedy(m, tokens, n)
    ensures |Greedy(m, tokens, n)| == |tokens| + n ==> |Greedy(m, tokens, k)| == |tokens| + k
  {
    GreedySplit(m, tokens, k, n - k);
  }

  /** Greedy decoding that has stopped short stays there. */
  lemma {:induction false} GreedyShort(m: Model, tokens: seq<int>, k: nat, n: nat)
    requires k <= n && tokens != [] && |Greedy(m, tokens, k)| == |tokens| + k
    requires !TokensOk(m, Greedy(m, tokens, k))
    ensures Greedy(m, tokens, n) == Greedy(m, tokens, k)
  {
    GreedySplit(m, tokens, k, n - k);
    GreedyStops(m, Greedy(m, tokens, k), n - k);
  }

  /** One more greedy token. */
  lemma GreedyNext(m: Model, tokens: seq<int>, k: nat)
    requires tokens != [] && |Greedy(m, tokens, k)| == |tokens| + k
    ensures var out := Greedy(m, tokens, k);
            Greedy(m, tokens, k + 1) == if TokensOk(m, out) then out + [Next(m, out)] else out
  {
    hide TokensOk, Next;
    GreedySplit(m, tokens, k, 1);
    var out := Greedy(m, tokens, k);
    if TokensOk(m, out) {
      assert Greedy(m, out, 1) == Greedy(m, out + [Next(m, out)], 0);
    }
  }

  /** Prompt, then one token per step; a rejected row ends generation early. `batched` selects the
      layer-major prompt pass, which stacks with per-layer inputs never take. When that pass fails, the
      token loop starts over on the caches it has left. */
  method GeneratePrepared(m: Model, batched: bool, tokens: seq<int>, maxTokens: int) returns (output: seq<int>)
    requires SourcesOk(m) && tokens != []
    ensures maxTokens > 0 ==> output == Greedy(m, tokens, maxTokens)
    ensures maxTokens <= 0 ==> output == tokens
  {
    if maxTokens < 0 {
      return tokens;
    }
    hide SourcesOk, TrueCaches, LogitsAfter, TokensOk, Next, Greedy;
    var st := new TokenState(m, tokens);
    assert tokens[..0] == [];
    NothingCached(m);
    var step := 0;
    if batched && maxTokens >= 1 && !UsesInputs(m) {
      var ok := RunPrompt(m, st, tokens);
      if !ok {
        RejectedPrompt(m, tokens, maxTokens);
        output := RerunPrompt(m, st, tokens);
        return;
      }
      assert tokens[..|tokens|] == tokens;
      step := |tokens|;
    }
    output := GenerateFrom(m, st, tokens, maxTokens, step);
  }

  /** The whole prompt layer by layer, then its boundary token. */
  method RunPrompt(m: Model, st: TokenState, tokens: seq<int>) returns (ok: bool)
    requires SourcesOk(m) && !UsesInputs(m) && tokens != [] && st.m == m && st.cache[..] == TrueCaches(m, [])
             && TokensOk(m, [])
    modifies st`output, st.cache
    ensures ok <==> TokensOk(m, tokens)
    ensures ok ==> st.output == Greedy(m, tokens, 1) && |st.output| == |tokens| + 1
    ensures ok ==> st.cache[..] == TrueCaches(m, tokens)
    ensures !ok ==> st.output == old(st.output) && Holding(m, FreshRun(m, tokens), 0, st.cache[..])
  {
    GreedyZero(m, tokens);
    GreedyNext(m, tokens, 0);
    assert [] + tokens == tokens;
    hide SourcesOk, TrueCaches, LogitsAfter, TokensOk, Next, Greedy, BatchedOk, BatchedCaches, BatchedLogits,
      UsesInputs;
    BatchedIsSequential(m, [], tokens);
    var last;
    ok, last := st.RunChunk(tokens, [], 0);
    if ok {
      st.output := tokens + [m.argmax(m.logits(last))];
    }
  }

  /** The token loop over a prompt the layer-major pass has rejected. The loop meets the rejected row too,
      before anything is emitted. */
  method RerunPrompt(m: Model, st: TokenState, tokens: seq<int>) returns (output: seq<int>)
    requires SourcesOk(m) && tokens != [] && !TokensOk(m, tokens) && st.m == m && st.output == tokens
    requires Holding(m, FreshRun(m, tokens), 0, st.cache[..])
    modifies st`output, st.cache
    ensures output == tokens
  {
    hide SourcesOk, RowOk, Holding;
    for step := 0 to |tokens|
      invariant st.output == tokens && Holding(m, FreshRun(m, tokens), step, st.cache[..])
      invariant forall r :: 0 <= r < step ==> RowOk(m, FreshRun(m, tokens), r)
    {
      var run := st.RerunToken(step);
      if run.Failed? {
        return st.output;
      }
      if run.Emitted? {
        assert false;
      }
    }
    assert false;
  }

  lemma GreedyZero(m: Model, tokens: seq<int>)
    ensures Greedy(m, tokens, 0) == tokens
  {
  }

  lemma RejectedPrompt(m: Model, tokens: seq<int>, n: nat)
    requires !TokensOk(m, tokens)
    ensures Greedy(m, tokens, n) == tokens
  {
  }

  /** The token loop, from a position inside the prompt or right after a batched prompt. */
  method GenerateFrom(m: Model, st: TokenState, tokens: seq<int>, maxTokens: nat, start: nat) returns (output: seq<int>)
    requires SourcesOk(m) && tokens != [] && st.m == m && start <= |tokens|
    requires st.output == if start == |tokens| then Greedy(m, tokens, 1) else tokens
    requires |st.output| == if start == |tokens| then |tokens| + 1 else |tokens|
    requires start == |tokens| ==> maxTokens >= 1
    requires st.cache[..] == TrueCaches(m, tokens[..start]) && TokensOk(m, tokens[..start])
    modifies st`output, st.cache
    ensures maxTokens > 0 ==> output == Greedy(m, tokens, maxTokens)
    ensures maxTokens == 0 ==> output == tokens
  {
    hide SourcesOk, TrueCaches, LogitsAfter, TokensOk, Next, Greedy, OnlyAppended;
    GreedyZero(m, tokens);
    var step := start;
    assert st.output[..start] == tokens[..start];
    while step < |tokens| + maxTokens - 1
      invariant start <= step <= |tokens| + maxTokens - 1
      invariant maxTokens == 0 ==> step < |tokens|
      invariant |st.output| == if step < |tokens| then |tokens| else step + 1
      invariant tokens <= st.output && st.output == Greedy(m, tokens, |st.output| - |tokens|)
      invariant st.cache[..] == TrueCaches(m, st.output[..step]) && TokensOk(m, st.output[..step])
    {
      var token := if step < |tokens| then tokens[step] else st.output[|st.output| - 1];
      var fed := st.output[..step];
      assert fed + [token] == st.output[..step + 1];
      var run := st.RunToken(token, fed, step);
      ghost var n := |st.output| - |tokens|;
      if run.Failed? {
        if step < |tokens| {
          assert fed + [token] == tokens[..step + 1];
          if TokensOk(m, tokens) {
            PrefixOk(m, fed + [token], tokens);
          }
          RejectedPrompt(m, tokens, maxTokens);
        } else {
          assert fed + [token] == st.output;
          GreedyShort(m, tokens, n, maxTokens);
        }
        return st.output;
      }
      if run.Emitted? {
        assert fed + [token] == st.output;
        GreedyNext(m, tokens, n);
        st.output := st.output + [run.token];
      }
      step := step + 1;
    }
    return st.output;
  }

  /** Output of a speculative decode; the replay verifier reruns the model on it. */
  class CPUDecodeState {
    const m: Model
    const batched: bool
    const cache: array<seq<KV>>
    var output: seq<int>

    constructor (m: Model, batched: bool, prepared: seq<int>)
      ensures this.m == m && this.batched == batched && output == prepared
      ensures fresh(cache) && cache[..] == NoCaches(m)
    {
      this.m, this.batched := m, batched;
      output := prepared;
      cache := new seq<KV>[|m.layers|](_ => []);
      new;
      assert cache[..] == NoCaches(m);
    }

    /** One greedy token by rerunning the whole output. */
    method DecodeOneGreedy() returns (ok: bool)
      requires SourcesOk(m) && output != []
      modifies this`output
      ensures ok <==> TokensOk(m, old(output))
      ensures output == if ok then old(output) + [Next(m, old(output))] else old(output)
    {
      hide SourcesOk, TokensOk, Next;
      GreedyZero(m, output);
      GreedyNext(m, output, 0);
      hide Greedy;
      var verified := GeneratePrepared(m, batched, output, 1);
      if |verified| <= |output| {
        return false;
      }
      output := output + [verified[|output|]];
      return true;
    }

    method GenerateGreedy(n: int) returns (ok: bool)
      requires SourcesOk(m) && output != []
      modifies this`output
      ensures ok <==> n >= 0 && |Greedy(m, old(output), n)| == |old(output)| + n
      ensures n >= 0 ==> output == Greedy(m, old(output), n)
      ensures n < 0 ==> output == old(output)
    {
      hide SourcesOk, TokensOk, Next, Greedy;
      if n < 0 {
        return false;
      }
      GreedyZero(m, output);
      for i := 0 to n
        invariant output == Greedy(m, old(output), i) && |output| == |old(output)| + i
      {
        GreedyNext(m, old(output), i);
        var step := DecodeOneGreedy();
        if !step {
          GreedyShort(m, old(output), i, n);
          return false;
        }
      }
      return true;
    }

    /** Greedy acceptance of a draft: a shadow state decodes one token more than was drafted. */
    method VerifyGreedyBlock(drafted: seq<int>) returns (r: Result<MTPAcceptance>)
      requires SourcesOk(m) && WellFormed(m) && output != [] && |drafted| < MAX_INT
      ensures r.Ok? <==> NonNegative(drafted) && |Greedy(m, output, |drafted| + 1)| == |output| + |drafted| + 1
      ensures r.Ok? ==> r.value.Valid() && r.value.draftedCount == |drafted|
      ensures r.Ok? ==> LongestMatch(drafted, Greedy(m, output, |drafted| + 1)[|output|..], r.value.acceptedPrefixLen)
      ensures r.Ok? ==> output + r.value.outputTokens == Greedy(m, output, r.value.acceptedPrefixLen + 1)
    {
      hide SourcesOk, WellFormed, TokensOk, Next, Greedy;
      GreedyZero(m, output);
      var shadow := new CPUDecodeState(m, batched, output);
      var verifyN := |drafted| + 1;
      var tokens: seq<int> := [];
      for i := 0 to verifyN
        invariant shadow.output == output + tokens && |tokens| == i && NonNegative(tokens)
        invariant shadow.output == Greedy(m, output, i)
      {
        GreedyNext(m, output, i);
        NextInVocabulary(m, shadow.output);
        var step := shadow.DecodeOneGreedy();
        if !step {
          GreedyShort(m, output, i, verifyN);
          return Err;
        }
        tokens := tokens + [shadow.output[|shadow.output| - 1]];
      }
      assert Greedy(m, output, verifyN)[|output|..] == tokens;
      r := AcceptDraft(drafted, tokens);
      if r.Ok? {
        var n: nat := r.value.acceptedPrefixLen + 1;
        GreedyPrefix(m, output, n, verifyN);
        assert output + tokens[..n] == (output + tokens)[..|output| + n];
      }
    }

    /** Replaces everything after the checkpoint by the accepted tokens. */
    method CommitAcceptedOutputOnly(outputLen: nat, acceptance: MTPAcceptance) returns (ok: bool)
      modifies this`output
      ensures ok <==> acceptance.Valid() && outputLen <= |old(output)|
      ensures output == if ok then old(output)[..outputLen] + acceptance.outputTokens else old(output)
    {
      if !acceptance.Valid() || outputLen > |output| {
        return false;
      }
      output := output[..outputLen] + acceptance.outputTokens;
      return true;
    }

    /** Lengths of output and caches. */
    method Checkpoint() returns (cp: CPUDecodeCheckpoint)
      ensures cp == CheckpointAt(|output|, cache[..])
    {
      var kvLen: seq<nat> := [];
      for l := 0 to cache.Length
        invariant |kvLen| == l && forall i :: 0 <= i < l ==> kvLen[i] == |cache[i]|
      {
        kvLen := kvLen + [|cache[l]|];
      }
      assert kvLen == CheckpointAt(|output|, cache[..]).kvLen;
      return CPUDecodeCheckpoint(|output|, kvLen);
    }

    /** Keeps the first `keep` staged rows after the checkpoint on every owning layer and drops the rest;
        a layer without that many rows stops it midway. */
    method KeepAppended(kvLen: seq<nat>, keep: nat) returns (ok: bool)
      requires |kvLen| == cache.Length == |m.layers|
      modifies cache
      ensures ok <==> forall l :: 0 <= l < |kvLen| ==> Kept(m, kvLen, keep, l) <= |old(cache[..])[l]|
      ensures ok ==> forall l :: 0 <= l < |kvLen| ==> cache[l] == old(cache[..])[l][..Kept(m, kvLen, keep, l)]
      ensures forall l :: 0 <= l < |kvLen| ==>
                            cache[l] == old(cache[..])[l]
                            || (Kept(m, kvLen, keep, l) <= |old(cache[..])[l]|
                                && cache[l] == old(cache[..])[l][..Kept(m, kvLen, keep, l)])
    {
      ghost var kv := cache[..];
      for l := 0 to cache.Length
        invariant forall i :: 0 <= i < l ==>
                                Kept(m, kvLen, keep, i) <= |kv[i]| && cache[i] == kv[i][..Kept(m, kvLen, keep, i)]
        invariant forall i :: l <= i < cache.Length ==> cache[i] == kv[i]
      {
        var target := kvLen[l];
        if m.layers[l].hasKV {
          target := target + keep;
        }
        if target > |cache[l]| {
          return false;
        }
        cache[l] := cache[l][..target];
      }
      return true;
    }

    /** Drops everything after the checkpoint. What was only appended to is recovered exactly. */
    method Restore(cp: CPUDecodeCheckpoint, ghost before: seq<int>, ghost kv: seq<seq<KV>>)
      requires cp == CheckpointAt(|before|, kv) && before <= output && OnlyAppended(kv, cache[..]) && |kv| == |m.layers|
      modifies this`output, cache
      ensures output == before && cache[..] == kv
    {
      ghost var staged := cache[..];
      assert forall l :: 0 <= l < |kv| ==> staged[l][..cp.kvLen[l]] == kv[l];
      output := output[..cp.outputLen];
      var ok := KeepAppended(cp.kvLen, 0);
      if !ok {
        assert false;
      }
      assert cache[..] == kv;
    }
  }

  /** Output and cache lengths before verifier tokens are staged. */
  datatype CPUDecodeCheckpoint = CPUDecodeCheckpoint(outputLen: nat, kvLen: seq<nat>)

  function CheckpointAt(outputLen: nat, kv: seq<seq<KV>>): CPUDecodeCheckpoint {
    CPUDecodeCheckpoint(outputLen, seq(|kv|, l requires 0 <= l < |kv| => |kv[l]|))
  }

  /** Target length of one layer. */
  function Kept(m: Model, kvLen: seq<nat>, keep: nat, l: nat): nat
    requires l < |kvLen| == |m.layers|
  {
    kvLen[l] + if m.layers[l].hasKV then keep else 0
  }
}
