/** The resumable decode session: chunked prefill with an optional prompt cache, greedy decode,
    forced tokens, checkpoint and restore, and draft verification. */
module Sessions {
  import opened Transformer
  import opened Decoding
  import opened Schedules
  import opened Acceptance
  import opened Wrappers
  import opened PromptCaches
  import opened TokenStates
  import opened PerLayerInputs
  import opened SessionSpec
  import opened BranchBatch

  datatype DecodeResult = DecodeResult(token: int, logits: seq<real>, position: nat, generated: int, finished: bool,
                                       finish: FinishReason)

  /** A prefill limit is cut to the tokens that are left. */
  ghost function Consumable(limit: int, prepared: seq<int>, cursor: nat): (n: int)
    ensures n <= limit && n <= |prepared| - cursor && (n == limit || n == |prepared| - cursor)
  {
    if limit > |prepared| - cursor then |prepared| - cursor else limit
  }

  /** How much of the prompt a cache hit saves. */
  function Reused(hit: Option<Snapshot>): nat {
    if hit.Some? then hit.value.endPos else 0
  }

  function Total(limits: seq<int>): int {
    if limits == [] then 0 else Total(limits[..|limits| - 1]) + limits[|limits| - 1]
  }

  /** How far a list of limits gets in a prompt. */
  function Goal(prompt: nat, cursor: nat, limits: seq<int>): (g: nat)
    ensures g <= prompt
  {
    var end := cursor + Total(limits);
    if end < 0 then 0 else if end > prompt then prompt else end
  }

  lemma TotalStep(limits: seq<int>, i: nat)
    requires i < |limits|
    ensures Total(limits[..i + 1]) == Total(limits[..i]) + limits[i]
  {
    assert limits[..i + 1][..i] == limits[..i];
  }

  /** More limits never mean less. */
  lemma {:induction false} TotalPositive(limits: seq<int>, i: nat)
    requires i <= |limits| && forall j :: 0 <= j < |limits| ==> limits[j] > 0
    ensures 0 <= Total(limits[..i]) <= Total(limits)
    decreases |limits|
  {
    if i < |limits| {
      var n := |limits| - 1;
      TotalPositive(limits[..n], i);
      assert limits[..n][..i] == limits[..i];
    } else if i > 0 {
      TotalPositive(limits[..i - 1], i - 1);
      assert limits[..i] == limits && limits[..i - 1][..i - 1] == limits[..i - 1];
    }
  }

  /** End of the last whole block at or before `pos`. */
  ghost function LastBlock(pos: nat, blockSize: nat): (end: nat)
    requires blockSize > 0
    ensures end <= pos && end % blockSize == 0 && forall k :: end < k <= pos ==> k % blockSize != 0
  {
    if pos % blockSize == 0 then pos else LastBlock(pos - 1, blockSize)
  }

  /** The true snapshot of a prefix, with or without its boundary logits. */
  ghost function TrueSnapshot(m: Model, prefix: seq<int>, boundary: bool): Snapshot
    requires prefix != []
  {
    Snapshot(|prefix|, TrueCaches(m, prefix), if boundary then LogitsAfter(m, prefix) else [],
             if boundary then Next(m, prefix) else 0)
  }

  /** A truthful snapshot passes every check of a restore. */
  lemma TruthfulRestores(m: Model, tokens: seq<int>, s: Snapshot)
    requires WellFormed(m) && Truthful(m, tokens, s)
    ensures |s.kv| == |m.layers| && s.kv == TrueCaches(m, tokens) && TokensOk(m, tokens) && s.endPos == |tokens|
    ensures s.logits == [] || (|s.logits| == m.vocab && s.logits == LogitsAfter(m, tokens)
                               && s.token == Next(m, tokens))
    ensures forall l :: 0 <= l < |m.layers| ==> |s.kv[l]| == if m.layers[l].hasKV then s.endPos else 0
    ensures tokens != []
  {
    NextInVocabulary(m, tokens);
  }

  /** A batched chunk of a prompt whose stack uses no per-layer inputs. */
  lemma ExactChunk(m: Model, tokens: seq<int>, start: nat, end: nat)
    requires start < end <= |tokens| && TokensOk(m, tokens[..start])
    ensures end == |tokens| ==> tokens[..end] == tokens && Next(m, tokens) == m.argmax(LogitsAfter(m, tokens))
    ensures !UsesInputs(m) ==>
              && (BatchedOk(m, tokens[..start], tokens[start..end]) <==> TokensOk(m, tokens[..end]))
              && BatchedCaches(m, tokens[..start], tokens[start..end]) == TrueCaches(m, tokens[..end])
              && BatchedLogits(m, tokens[..start], tokens[start..end]) == LogitsAfter(m, tokens[..end])
  {
    hide TokensOk, TrueCaches, LogitsAfter, UsesInputs, BatchedOk, BatchedCaches, BatchedLogits;
    assert tokens[..start] + tokens[start..end] == tokens[..end];
    if !UsesInputs(m) {
      BatchedIsSequential(m, tokens[..start], tokens[start..end]);
    }
  }

  /** One branch: some known tokens, no more than the session may generate. */
  ghost predicate BranchOk(m: Model, maxTokens: nat, branch: seq<int>) {
    0 < |branch| <= maxTokens && forall j :: 0 <= j < |branch| ==> 0 <= branch[j] < m.vocab
  }

  /** The guards on a set of branches; a non-positive `maxContext` means no context limit. */
  ghost predicate BranchListOk(m: Model, maxTokens: nat, trunkLen: nat, maxContext: int, branches: seq<seq<int>>) {
    && 0 < |branches| <= 256
    && (forall b :: 0 <= b < |branches| ==> BranchOk(m, maxTokens, branches[b]))
    && (maxContext > 0 ==> forall b :: 0 <= b < |branches| ==> trunkLen + |branches[b]| <= maxContext)
  }

  /** Rows of a proper prefix are too few for a trunk of the whole sequence. */
  lemma TrunkRows(m: Model, tokens: seq<int>, prefix: seq<int>, kv: seq<seq<KV>>)
    requires SourcesOk(m) && tokens != [] && prefix <= tokens && kv == TrueCaches(m, prefix) && TokensOk(m, prefix)
    ensures TrunkOk(m, |tokens|, kv) <==> kv == TrueCaches(m, tokens) && TokensOk(m, tokens)
  {
    hide Caches, RunOk;
    if prefix != tokens {
      if |m.layers| > 0 {
        assert SourceOk(m, 0);
      } else {
        NoLayers(m, tokens);
      }
    }
  }

  /** An on-track state holds a row for every output token until a decode step has added one. */
  lemma TrackRows(cfg: Config, v: View)
    requires SourcesOk(cfg.m) && OnTrack(cfg, v)
    ensures v.output != []
    ensures var full := v.kv == TrueCaches(cfg.m, v.output) && TokensOk(cfg.m, v.output);
            && (TrunkOk(cfg.m, |v.output|, v.kv) <==> full)
            && (full <==> v.generated == 0 || |cfg.m.layers| == 0)
  {
    hide SourcesOk, TrueCaches, TokensOk, TrunkOk;
    OnTrackFacts(cfg, v);
    hide OnTrack;
    var cached := if v.generated == 0 then v.output else v.output[..|v.output| - 1];
    TrunkRows(cfg.m, v.output, cached, v.kv);
    if v.generated > 0 {
      MissingRows(cfg.m, v.output, cached);
    }
  }

  /** The rows of a proper prefix are not those of the whole sequence, if there is any layer. */
  lemma MissingRows(m: Model, tokens: seq<int>, prefix: seq<int>)
    requires SourcesOk(m) && prefix < tokens
    ensures TrueCaches(m, prefix) == TrueCaches(m, tokens) && TokensOk(m, tokens) <==> |m.layers| == 0
  {
    hide Caches, RunOk;
    if |m.layers| > 0 {
      assert SourceOk(m, 0);
      assert |TrueCaches(m, prefix)[0]| < |TrueCaches(m, tokens)[0]|;
    } else {
      NoLayers(m, tokens);
    }
  }

  lemma NoLayers(m: Model, tokens: seq<int>)
    requires m.layers == []
    ensures TrueCaches(m, tokens) == [] && TokensOk(m, tokens)
  {
  }

  class DecodeSession {
    const id: nat
    const m: Model
    const maxTokens: nat
    const stops: set<int>
    const cached: bool                 // false: the session has no prompt cache
    const promptCache: PromptCache
    const identity: int
    const blockSize: nat
    const batchEligible: bool          // no hook, experts or float per-layer-input gate; quantized gates pass

    var state: TokenState              // meaningful once prefill has started
    var prompt: seq<int>
    var output: seq<int>
    var prepared: seq<int>
    var cursor: nat
    var generated: int
    var pendingLogits: Option<seq<real>>
    var pendingToken: int
    var prefillStarted: bool
    var prefilled: bool
    var closed: bool
    var finished: bool
    var finish: FinishReason

    constructor (id: nat, m: Model, maxTokens: nat, stops: set<int>, batchEligible: bool, cached: bool,
                 promptCache: PromptCache, identity: int, blockSize: nat)
      requires WellFormed(m) && SourcesOk(m) && (cached ==> blockSize > 0)
      ensures Valid() && !prefillStarted && !prefilled && !closed && fresh(state) && fresh(state.cache)
      ensures this.id == id && this.m == m && this.maxTokens == maxTokens && this.stops == stops
      ensures this.batchEligible == batchEligible
      ensures this.cached == cached && this.promptCache == promptCache && this.identity == identity
              && this.blockSize == blockSize
    {
      this.id, this.m, this.maxTokens, this.stops, this.batchEligible := id, m, maxTokens, stops, batchEligible;
      this.cached, this.promptCache, this.identity := cached, promptCache, identity;
      this.blockSize := blockSize;
      state := new TokenState(m, []);
      prompt, output, prepared, cursor, generated := [], [], [], 0, 0;
      pendingLogits, pendingToken := None, 0;
      prefillStarted, prefilled, closed, finished, finish := false, false, false, false, Running;
    }

    ghost predicate Valid()
      reads this
    {
      && WellFormed(m) && SourcesOk(m)
      && (cached ==> blockSize > 0)
      && state.m == m && state.cache.Length == |m.layers|
    }

    ghost function Cfg(): Config
      reads this
    {
      Config(m, maxTokens, stops, prompt)
    }

    /** The observable state; the diagnostic position counter is not part of it. */
    ghost function Now(): View
      reads this, state, state.cache
    {
      View(output, generated, pendingLogits, pendingToken, finished, finish, state.cache[..])
    }

    /** Prefilled and still exactly where plain decode steps would be. */
    ghost predicate Ready()
      reads this, state, state.cache
    {
      Valid() && !closed && prefilled && state.output == output && OnTrack(Cfg(), Now())
    }

    /** A usable, prefilled session must be on track; other sessions are refused by every call. */
    ghost predicate Callable()
      reads this, state, state.cache
    {
      Valid() && (!closed && prefilled ==> Ready())
    }

    // -------------------------------------------------------------------------------------------
    // Prefill

    /** Part of the prompt has been run: the caches hold exactly its true rows. */
    ghost predicate Prefilling()
      reads this, state, state.cache
    {
      && Valid() && !closed && prefillStarted && !prefilled && cursor < |prepared| && state.output == prepared
      && state.cache[..] == TrueCaches(m, prepared[..cursor]) && TokensOk(m, prepared[..cursor])
      && generated == 0 && pendingLogits == None && pendingToken == 0 && !finished && finish == Running
    }

    ghost predicate CacheTruthful()
      reads promptCache
    {
      cached ==> promptCache.WithinBudget() && AllTruthful(m, identity, promptCache.entries)
    }

    /** Copies the K/V of the prefix run so far into a snapshot. */
    method TakeSnapshot(pos: nat, logits: seq<real>, token: int) returns (r: Result<Snapshot>)
      requires Valid()
      ensures r.Ok? <==> (logits != [] ==> |logits| == m.vocab && 0 <= token < m.vocab) &&
                         forall l :: 0 <= l < |m.layers| && m.layers[l].hasKV ==> |state.cache[l]| == pos
      ensures r.Ok? ==>
                r.value.endPos == pos && r.value.logits == logits && r.value.token == token
                && |r.value.kv| == |m.layers|
      ensures r.Ok? ==> forall l :: 0 <= l < |m.layers| ==>
                                      r.value.kv[l] == if m.layers[l].hasKV then state.cache[l] else []
    {
      hide WellFormed, SourcesOk;
      if logits != [] && (|logits| != m.vocab || token < 0 || token >= m.vocab) {
        return Err;
      }
      var kv: seq<seq<KV>> := [];
      for l := 0 to |m.layers|
        invariant |kv| == l
        invariant forall i :: 0 <= i < l ==> kv[i] == if m.layers[i].hasKV then state.cache[i] else []
        invariant forall i :: 0 <= i < l && m.layers[i].hasKV ==> |state.cache[i]| == pos
      {
        if m.layers[l].hasKV {
          if |state.cache[l]| != pos {
            return Err;
          }
          kv := kv + [state.cache[l]];
        } else {
          kv := kv + [[]];
        }
      }
      return Ok(Snapshot(pos, kv, logits, token));
    }

    /** The true snapshot of `prefix` is the most recent entry of the prompt cache, if it fits there. */
    ghost predicate Stored(prefix: seq<int>, boundary: bool)
      requires prefix != []
      reads promptCache`entries
    {
      var s := TrueSnapshot(m, prefix, boundary);
      var bytes := promptCache.sizeOf(identity, prefix, s);
      bytes <= promptCache.maxBytes && promptCache.maxBytes > 0 ==>
        promptCache.entries != [] && promptCache.entries[0] == Entry(identity, blockSize, prefix, s, bytes)
    }

    /** Snapshots the caches after `prefix` and offers the snapshot to the prompt cache, which may refuse
        it as over budget. */
    method StoreSnapshot(prefix: seq<int>, logits: seq<real>, token: int) returns (ok: bool)
      requires Valid() && cached && CacheTruthful() && prefix != []
      requires state.cache[..] == TrueCaches(m, prefix) && TokensOk(m, prefix)
      requires if logits != [] then logits == LogitsAfter(m, prefix) && token == Next(m, prefix) else token == 0
      modifies promptCache`entries
      ensures CacheTruthful() && ok
      ensures |prefix| % blockSize == 0 ==> Stored(prefix, logits != [])
    {
      NextInVocabulary(m, prefix);
      hide WellFormed, SourcesOk, TrueCaches, LogitsAfter, TokensOk, Next, AllTruthful;
      var snapshot := TakeSnapshot(|prefix|, logits, token);
      if snapshot.Err? {
        assert false;
      }
      assert snapshot.value.kv == TrueCaches(m, prefix);
      ghost var before := promptCache.entries;
      assert snapshot.value == TrueSnapshot(m, prefix, logits != []);
      var stored := promptCache.Put(identity, blockSize, prefix, snapshot.value);
      if stored {
        PutTruthful(m, identity, before, promptCache.entries);
      }
      return true;
    }

    /** The caches hold the whole prompt's true rows, and the boundary logits, if needed and known, are the
        true ones. */
    ghost predicate AtBoundary(logits: seq<real>, token: int)
      reads this`prepared, this`state, state.cache
    {
      && prepared != [] && state.cache[..] == TrueCaches(m, prepared) && TokensOk(m, prepared)
      && (maxTokens > 0 && logits != [] ==> logits == LogitsAfter(m, prepared) && token == Next(m, prepared))
    }

    /** Token-at-a-time prefill of `[cursor, end)`, storing a snapshot after every whole block. */
    method PrefillTokens(end: nat) returns (ok: bool, logits: seq<real>, token: int)
      requires Prefilling() && cursor < end <= |prepared| && CacheTruthful()
      modifies state.cache, promptCache`entries
      ensures CacheTruthful() && OnlyAppended(old(Now()).kv, Now().kv)
      ensures ok <==> TokensOk(m, prepared[..end])
      ensures ok ==> state.cache[..] == TrueCaches(m, prepared[..end])
      ensures ok && end == |prepared| ==> logits == LogitsAfter(m, prepared) && token == Next(m, prepared)
      ensures ok && cached && LastBlock(end, blockSize) > cursor ==>
                Stored(prepared[..LastBlock(end, blockSize)], LastBlock(end, blockSize) == |prepared|)
    {
      hide WellFormed, SourcesOk, TrueCaches, LogitsAfter, TokensOk, Next, CacheTruthful, OnlyAppended, Stored;
      ok, logits, token := true, [], 0;
      NothingAppended(state.cache[..]);
      for pos := cursor to end
        invariant Valid() && state.output == prepared && CacheTruthful() && OnlyAppended(old(Now()).kv, Now().kv)
        invariant state.cache[..] == TrueCaches(m, prepared[..pos]) && TokensOk(m, prepared[..pos])
        invariant if logits == [] then token == 0 else pos == |prepared|
        invariant cached && LastBlock(pos, blockSize) > cursor ==>
            Stored(prepared[..LastBlock(pos, blockSize)], LastBlock(pos, blockSize) == |prepared|)
        invariant pos == |prepared| ==> logits == LogitsAfter(m, prepared) && token == Next(m, prepared)
      {
        var prefix := prepared[..pos];
        var next := prefix + [prepared[pos]];
        assert next == prepared[..pos + 1];
        ghost var before := Now().kv;
        var run := state.RunToken(prepared[pos], prefix, pos);
        AppendedTwice(old(Now()).kv, before, Now().kv);
        if run.Failed? {
          if TokensOk(m, prepared[..end]) {
            PrefixOk(m, next, prepared[..end]);
          }
          return false, [], 0;
        }
        if run.Emitted? {
          if pos != |prepared| - 1 {
            assert false;
          }
          assert next == prepared;
          NextInVocabulary(m, prepared);
          logits, token := run.logits, run.token;
        }
        if cached && (pos + 1) % blockSize == 0 {
          ok := StoreSnapshot(next, logits, token);
        }
      }
    }

    /** Runs `[cursor, end)` as one layer-major chunk; the boundary token is decoded only at the end of
        the prompt and only when tokens will be generated. */
    method PrefillBatch(end: nat) returns (ok: bool, logits: seq<real>, token: int)
      requires Prefilling() && cursor < end <= |prepared|
      modifies state.cache
      ensures OnlyAppended(old(Now()).kv, Now().kv)
      ensures ok <==> BatchedOk(m, prepared[..cursor], prepared[cursor..end])
      ensures ok ==> state.cache[..] == BatchedCaches(m, prepared[..cursor], prepared[cursor..end])
      ensures ok && end == |prepared| && maxTokens > 0 ==>
                logits == BatchedLogits(m, prepared[..cursor], prepared[cursor..end]) && token == m.argmax(logits)
      ensures ok && end == |prepared| && maxTokens > 0 ==> |logits| == m.vocab
      ensures logits != [] ==> ok && end == |prepared| && maxTokens > 0
      ensures !UsesInputs(m) ==>
                (ok <==> TokensOk(m, prepared[..end])) && (ok ==> state.cache[..] == TrueCaches(m, prepared[..end]))
      ensures !UsesInputs(m) && ok && end == |prepared| ==> AtBoundary(logits, token)
    {
      assert forall h :: |m.logits(h)| == m.vocab;
      ExactChunk(m, prepared, cursor, end);
      hide WellFormed, TrueCaches, TokensOk, LogitsAfter, Next, UsesInputs, OnlyAppended, BatchedOk, BatchedCaches,
        BatchedLogits;
      ok, logits, token := true, [], 0;
      var last;
      ok, last := state.RunChunk(prepared[cursor..end], prepared[..cursor], cursor);
      if ok && end == |prepared| && maxTokens > 0 {
        logits := m.logits(last);
        token := m.argmax(logits);
      }
    }

    /** The state of a session whose prompt has just been installed. */
    ghost function Installed(logits: seq<real>, token: int): View
      reads this, state, state.cache
    {
      if maxTokens > 0 then View(prepared, 0, Some(logits), token, false, Running, state.cache[..])
      else View(prepared, 0, None, 0, true, Length, state.cache[..])
    }

    /** Finishes prefill: the prompt becomes the output and the boundary token becomes pending. */
    method CompletePrefill(logits: seq<real>, token: int) returns (ok: bool)
      requires Valid() && !closed && prefillStarted
      requires generated == 0 && pendingLogits == None && pendingToken == 0 && !finished && finish == Running
      modifies this, state`output
      ensures Valid() && state == old(state) && closed == old(closed)
      ensures ok <==> maxTokens == 0 || |logits| == m.vocab
      ensures old(AtBoundary(logits, token)) ==> (ok <==> maxTokens == 0 || logits != [])
      ensures ok ==> prefilled && prompt == old(prepared) && Now() == old(Installed(logits, token))
      ensures ok && old(AtBoundary(logits, token)) ==> Ready() && Now() == Initial(Cfg())
      ensures !ok ==> prefillStarted && prefilled == old(prefilled)
    {
      ghost var cfg, kv, boundary := Config(m, maxTokens, stops, prepared), state.cache[..], AtBoundary(logits, token);
      if boundary {
        NextInVocabulary(m, prepared);
        InitialFacts(cfg);
        assert maxTokens == 0 || |logits| == m.vocab ==> Initial(cfg) == Installed(logits, token);
      }
      hide WellFormed, SourcesOk, TrueCaches, LogitsAfter, TokensOk, Next, OnTrack, TrackFacts, Initial, AtBoundary;
      if maxTokens > 0 {
        if |logits| != m.vocab {
          return false;
        }
        InstallPrompt(Some(logits), token);
      } else {
        InstallPrompt(None, 0);
      }
      assert Cfg() == cfg;
      return true;
    }

    method InstallPrompt(logits: Option<seq<real>>, token: int)
      requires generated == 0 && !finished && finish == Running
      modifies this, state`output
      ensures state == old(state) && closed == old(closed) && prefillStarted == old(prefillStarted) && prefilled
      ensures prompt == old(prepared) && state.output == output
      ensures Now() == View(prompt, 0, logits, token, maxTokens == 0, if maxTokens == 0 then Length
                            else Running, old(Now()).kv)
    {
      pendingToken, pendingLogits := token, logits;
      prompt, output := prepared, prepared;
      state.output := output;
      prepared, cursor, prefilled := [], 0, true;
      if maxTokens == 0 {
        finished, finish := true, Length;
      }
    }

    ghost predicate PrefillCallable()
      reads this, state, state.cache
    {
      Valid() && (!closed && prefillStarted && !prefilled ==> Prefilling())
    }

    /** The path the next `n` tokens take computes what token-at-a-time prefill computes. A batched chunk, taken
        from eight tokens on, of a stack with (quantized) per-layer inputs does not: the batch carries none. */
    ghost predicate Exact(n: nat) {
      !cached && batchEligible && n >= 8 ==> !UsesInputs(m)
    }

    /** Nothing in this configuration can make a chunk inexact. */
    ghost predicate AlwaysExact() {
      !cached && batchEligible ==> !UsesInputs(m)
    }

    /** Runs up to `limit` further prompt tokens, as one batch when no prompt cache needs snapshots and
        the chunk is long enough, token by token otherwise. On either path, unless the batch drops
        per-layer inputs, the caches end up the true ones, and the last chunk leaves the one state a
        prefilled session has. */
    method PrefillNext(limit: int) returns (r: Result<nat>)
      requires PrefillCallable() && CacheTruthful()
      modifies this, state`output, state.cache, promptCache`entries
      ensures CacheTruthful() && Valid() && state == old(state) && closed == old(closed)
      ensures r.Err? ==> Now().(kv := old(Now()).kv) == old(Now()) && OnlyAppended(old(Now()).kv, Now().kv)
                         && prepared == old(prepared) && cursor == old(cursor) && prefillStarted == old(prefillStarted)
                         && prefilled == old(prefilled)
      ensures r.Ok? ==> old(Prefilling()) && r.value == Consumable(limit, old(prepared), old(cursor)) > 0
      ensures old(Prefilling()) && limit > 0 && Exact(Consumable(limit, old(prepared), old(cursor))) ==>
                (r.Ok? <==> TokensOk(m, old(prepared)[..old(cursor) + Consumable(limit, old(prepared), old(cursor))]))
      ensures r.Ok? && Exact(r.value) && old(cursor) + r.value < |old(prepared)| ==>
                Prefilling() && prepared == old(prepared) && cursor == old(cursor) + r.value
      ensures r.Ok? && Exact(r.value) && old(cursor) + r.value == |old(prepared)| ==>
                Ready() && prompt == old(prepared) && Now() == Initial(Cfg())
      ensures r.Ok? && !Exact(r.value) ==>
                var n := old(cursor) + r.value;
                && BatchedOk(m, old(prepared)[..old(cursor)], old(prepared)[old(cursor)..n])
                && state.cache[..] == BatchedCaches(m, old(prepared)[..old(cursor)], old(prepared)[old(cursor)..n])
                && (n == |old(prepared)| && maxTokens > 0 ==>
                      pendingLogits ==
                      Some(BatchedLogits(m, old(prepared)[..old(cursor)], old(prepared)[old(cursor)..n])))
    {
      hide WellFormed, SourcesOk, TrueCaches, LogitsAfter, TokensOk, Next, CacheTruthful, OnTrack, Initial;
      hide UsesInputs, BatchedOk, BatchedCaches, BatchedLogits, AtBoundary, OnlyAppended;
      NothingAppended(state.cache[..]);
      if closed || !prefillStarted || prefilled || limit <= 0 {
        return Err;
      }
      var n: nat := limit;
      if n > |prepared| - cursor {
        n := |prepared| - cursor;
      }
      var end := cursor + n;
      var ok, logits, token := RunPrefill(n);
      if !ok {
        return Err;
      }
      cursor := end;
      if cursor == |prepared| {
        var completed := CompletePrefill(logits, token);
        if !completed {
          assert false;
        }
      }
      return Ok(n);
    }

    /** Runs the next `n` prompt tokens on the path they take. */
    method RunPrefill(n: nat) returns (ok: bool, logits: seq<real>, token: int)
      requires Prefilling() && 0 < n <= |prepared| - cursor && CacheTruthful()
      modifies state.cache, promptCache`entries
      ensures CacheTruthful() && OnlyAppended(old(Now()).kv, Now().kv)
      ensures Exact(n) ==>
                (ok <==> TokensOk(m, prepared[..cursor + n]))
                && (ok ==> state.cache[..] == TrueCaches(m, prepared[..cursor + n]))
      ensures Exact(n) && ok && cursor + n == |prepared| ==> AtBoundary(logits, token)
      ensures ok && cursor + n == |prepared| && maxTokens > 0 ==> |logits| == m.vocab
      ensures ok && !Exact(n) ==> BatchedOk(m, prepared[..cursor], prepared[cursor..cursor + n])
      ensures ok && !Exact(n) ==> state.cache[..] == BatchedCaches(m, prepared[..cursor], prepared[cursor..cursor + n])
      ensures ok && !Exact(n) && cursor + n == |prepared| && maxTokens > 0 ==>
                logits == BatchedLogits(m, prepared[..cursor], prepared[cursor..cursor + n])
    {
      hide WellFormed, SourcesOk, TrueCaches, LogitsAfter, Next, TokensOk, CacheTruthful, AtBoundary;
      hide UsesInputs, BatchedOk, BatchedCaches, BatchedLogits;
      if !cached && batchEligible && n >= 8 {
        ok, logits, token := PrefillBatch(cursor + n);
      } else {
        ok, logits, token := RunTokens(n);
      }
    }

    method RunTokens(n: nat) returns (ok: bool, logits: seq<real>, token: int)
      requires Prefilling() && 0 < n <= |prepared| - cursor && CacheTruthful()
      modifies state.cache, promptCache`entries
      ensures CacheTruthful() && OnlyAppended(old(Now()).kv, Now().kv)
      ensures (ok <==> TokensOk(m, prepared[..cursor + n]))
              && (ok ==> state.cache[..] == TrueCaches(m, prepared[..cursor + n]))
      ensures ok && cursor + n == |prepared| ==> AtBoundary(logits, token) && |logits| == m.vocab
    {
      hide WellFormed, SourcesOk, TrueCaches, LogitsAfter, Next, TokensOk, CacheTruthful;
      var end := cursor + n;
      ok, logits, token := PrefillTokens(end);
      if ok && end == |prepared| {
        assert prepared[..end] == prepared;
        NextInVocabulary(m, prepared);
      }
    }

    /** Copies a snapshot's K/V into a new request state; malformed snapshots are refused. */
    method RestoreSnapshot(snapshot: Snapshot, target: TokenState) returns (ok: bool)
      requires target.m == m && target.cache.Length == |m.layers| && |snapshot.kv| == |m.layers|
      modifies target.cache
      ensures ok <==> (snapshot.logits == [] || |snapshot.logits| == m.vocab) &&
                      forall l :: 0 <= l < |m.layers| ==>
                                    |snapshot.kv[l]| == if m.layers[l].hasKV then snapshot.endPos else 0
      ensures ok ==> target.cache[..] == snapshot.kv
    {
      if |snapshot.logits| != 0 && |snapshot.logits| != m.vocab {
        return false;
      }
      for l := 0 to |m.layers|
        invariant forall i :: 0 <= i < l ==> |snapshot.kv[i]| == if m.layers[i].hasKV then snapshot.endPos else 0
        invariant forall i :: 0 <= i < l ==> target.cache[i] == snapshot.kv[i]
      {
        if |snapshot.kv[l]| != if m.layers[l].hasKV then snapshot.endPos else 0 {
          return false;
        }
        target.cache[l] := snapshot.kv[l];
      }
      return true;
    }

    /** The prompt-cache lookup of a prefill: the longest cached block prefix, if there is a cache. */
    ghost function StartHit(tokens: seq<int>): Option<Snapshot>
      requires Valid()
      reads this, promptCache
    {
      if cached then HitBelow(promptCache.entries, identity, blockSize, tokens, |tokens| / blockSize) else None
    }

    /** A request state holding the longest cached prefix of `tokens`, or nothing. */
    method StartState(tokens: seq<int>, ghost known: Option<Snapshot>)
      returns (started: TokenState, start: nat, logits: seq<real>, token: int)
      requires Valid() && CacheTruthful() && known == StartHit(tokens)
      modifies promptCache`entries
      ensures CacheTruthful() && fresh(started) && fresh(started.cache)
      ensures started.m == m && started.cache.Length == |m.layers| && started.output == tokens
      ensures start == Reused(known) && logits == if known.Some? then known.value.logits else []
      ensures start <= |tokens| && started.cache[..] == TrueCaches(m, tokens[..start]) && TokensOk(m, tokens[..start])
      ensures logits != [] ==>
                start > 0 && logits == LogitsAfter(m, tokens[..start]) && token == Next(m, tokens[..start])
    {
      hide WellFormed, SourcesOk, TrueCaches, LogitsAfter, TokensOk, Next, AllTruthful, HitBelow, Truthful;
      started := new TokenState(m, tokens);
      start, logits, token := 0, [], 0;
      NothingCached(m);
      assert tokens[..0] == [];
      if cached {
        start, logits, token := LoadHit(tokens, started, known);
      }
    }

    method LoadHit(tokens: seq<int>, started: TokenState, ghost known: Option<Snapshot>)
      returns (start: nat, logits: seq<real>, token: int)
      requires Valid() && cached && CacheTruthful() && known == StartHit(tokens)
      requires started.m == m && started.cache.Length == |m.layers| && started.cache[..] == TrueCaches(m, tokens[..0])
               && TokensOk(m, tokens[..0])
      modifies started.cache, promptCache`entries
      ensures CacheTruthful()
      ensures start == Reused(known) && logits == if known.Some? then known.value.logits else []
      ensures start <= |tokens| && started.cache[..] == TrueCaches(m, tokens[..start]) && TokensOk(m, tokens[..start])
      ensures logits != [] ==>
                start > 0 && logits == LogitsAfter(m, tokens[..start]) && token == Next(m, tokens[..start])
    {
      hide WellFormed, SourcesOk, TrueCaches, LogitsAfter, TokensOk, Next, AllTruthful, HitBelow, Truthful;
      ghost var before := promptCache.entries;
      BlocksFit(|tokens|, blockSize, |tokens| / blockSize);
      HitTruthful(m, before, identity, blockSize, tokens, |tokens| / blockSize);
      var hit := promptCache.FindLongest(identity, blockSize, tokens);
      SubsetTruthful(m, identity, before, promptCache.entries);
      if hit.None? {
        return 0, [], 0;
      }
      TruthfulRestores(m, tokens[..hit.value.endPos], hit.value);
      var ok := RestoreSnapshot(hit.value, started);
      if !ok {
        assert false;
      }
      return hit.value.endPos, hit.value.logits, hit.value.token;
    }

    /** A prefill can start: a fresh session, known tokens, and no whole-prompt hit that lacks the boundary
        logits generation needs. */
    ghost predicate CanBegin(tokens: seq<int>, prompted: seq<int>)
      requires Valid()
      reads this, promptCache
    {
      && !closed && !prefillStarted && !prefilled && tokens != []
      && (forall i :: 0 <= i < |tokens| ==> 0 <= tokens[i] < m.vocab)
      && var hit := StartHit(prompted);
      !(maxTokens > 0 && hit.Some? && hit.value.endPos == |prompted| && hit.value.logits == [])
    }

    /** Starts a prefill from the longest cached prefix. `prompted` is `tokens` after the chat template,
        or `tokens` itself for an already prepared prompt. */
    method BeginPrefill(tokens: seq<int>, prompted: seq<int>) returns (ok: bool)
      requires Valid() && CacheTruthful() && (tokens != [] ==> prompted != [])
      modifies this, promptCache`entries
      ensures Valid() && CacheTruthful() && closed == old(closed)
      ensures ok <==> old(CanBegin(tokens, prompted))
      ensures ok ==> fresh(state) && fresh(state.cache)
      ensures ok && !prefilled ==> Prefilling() && prepared == prompted && cursor == Reused(old(StartHit(prompted)))
      ensures ok && prefilled ==>
                Ready() && prompt == prompted && Now() == Initial(Cfg())
                && Reused(old(StartHit(prompted))) == |prompted|
      ensures !ok ==> prefillStarted == old(prefillStarted) && prefilled == old(prefilled)
    {
      hide WellFormed, SourcesOk, TrueCaches, LogitsAfter, TokensOk, Next, HitBelow, OnTrack, Initial, CacheTruthful;
      if closed || prefillStarted || prefilled || tokens == [] {
        return false;
      }
      var known := CheckVocabulary(tokens);
      if !known {
        return false;
      }
      var started, start, logits, token := StartState(prompted, StartHit(prompted));
      InstallState(started, prompted, start);
      if start == |prompted| {
        assert prompted[..start] == prompted;
        ok := CompletePrefill(logits, token);
        if !ok {
          prepared, cursor, prefillStarted := [], 0, false;
          return false;
        }
      }
      return true;
    }

    method InstallState(started: TokenState, prompted: seq<int>, start: nat)
      modifies this
      ensures state == started && prepared == prompted && cursor == start && prefillStarted && !prefilled
              && closed == old(closed)
      ensures generated == 0 && pendingLogits == None && pendingToken == 0 && !finished && finish == Running
    {
      state, prepared, cursor := started, prompted, start;
      generated, pendingLogits, pendingToken := 0, None, 0;
      prefillStarted, prefilled := true, false;
      finished, finish := false, Running;
    }

    /** Prefills with the given limits in turn, stopping when the prompt is finished. Whatever the limits
        and whichever path each chunk takes, the session ends in the one prefilled state. */
    method PrefillInChunks(limits: seq<int>) returns (ok: bool)
      requires Prefilling() && CacheTruthful() && AlwaysExact() && forall i :: 0 <= i < |limits| ==> limits[i] > 0
      modifies this, state`output, state.cache, promptCache`entries
      ensures CacheTruthful() && state == old(state)
      ensures ok <==> TokensOk(m, old(prepared)[..Goal(|old(prepared)|, old(cursor), limits)])
      ensures ok && |old(prepared)| - old(cursor) <= Total(limits) ==>
                Ready() && prompt == old(prepared) && Now() == Initial(Cfg())
      ensures ok && |old(prepared)| - old(cursor) > Total(limits) ==>
                Prefilling() && prepared == old(prepared) && cursor == old(cursor) + Total(limits)
    {
      hide WellFormed, SourcesOk, TrueCaches, LogitsAfter, TokensOk, Next, CacheTruthful, OnTrack, Initial;
      ghost var whole, goal := prepared, Goal(|prepared|, cursor, limits);
      assert limits[..0] == [];
      for i := 0 to |limits|
        invariant Prefilling() && prepared == whole && CacheTruthful() && state == old(state)
        invariant cursor == old(cursor) + Total(limits[..i])
      {
        TotalStep(limits, i);
        TotalPositive(limits, i + 1);
        ghost var from := cursor;
        var step := PrefillNext(limits[i]);
        ghost var end := from + Consumable(limits[i], whole, from);
        assert end <= goal;
        if step.Err? {
          if TokensOk(m, whole[..goal]) {
            PrefixOk(m, whole[..end], whole[..goal]);
          }
          return false;
        }
        if prefilled {
          assert end == |whole| == goal;
          return true;
        }
      }
      assert limits[..|limits|] == limits;
      return true;
    }

    method PrefillChunk(tokens: seq<int>, prompted: seq<int>) returns (ok: bool)
      requires Valid() && CacheTruthful() && (tokens != [] ==> prompted != [])
      modifies this, promptCache`entries
      ensures CacheTruthful()
      ensures AlwaysExact() ==> (ok <==> old(CanBegin(tokens, prompted)) && TokensOk(m, prompted))
      ensures ok && AlwaysExact() ==> Ready() && prompt == prompted && Now() == Initial(Cfg())
    {
      hide WellFormed, SourcesOk, TrueCaches, LogitsAfter, TokensOk, Next, CacheTruthful, OnTrack, Initial;
      ok := BeginPrefill(tokens, prompted);
      if ok && prefilled {
        TrackTokens(Cfg(), Now());
      }
      if ok && !prefilled {
        assert prompted[..|prompted|] == prompted;
        var step := PrefillNext(|prepared| - cursor);
        ok := step.Ok?;
      }
    }

    // -------------------------------------------------------------------------------------------
    // Decode

    /** The token to emit next: the pending boundary token, or the one the model produces after the
        last output token. */
    method NextToken() returns (ok: bool, tok: int, logits: seq<real>)
      requires Ready() && !finished
      modifies this`pendingLogits, this`pendingToken, state.cache
      ensures ok <==> CanStep(Cfg(), old(Now()))
      ensures output != [] && (ok ==> tok == Next(m, output) && logits == LogitsAfter(m, output))
      ensures ok ==> Now() == AfterNext(Cfg(), old(Now()))
      ensures !ok ==> pendingLogits == old(pendingLogits) && pendingToken == old(pendingToken)
      ensures OnlyAppended(old(Now()).kv, Now().kv)
    {
      hide WellFormed, SourcesOk, OnTrack, TrueCaches, LogitsAfter, TokensOk, Greedy, Next, OnlyAppended;
      OnTrackFacts(Cfg(), Now());
      NothingAppended(state.cache[..]);
      tok, logits := pendingToken, [];
      if pendingLogits.Some? {
        logits := pendingLogits.value;
        pendingLogits, pendingToken := None, 0;
        return true, tok, logits;
      }
      var input := output[|output| - 1];
      var pos := |output| - 1;
      assert output[..pos] + [input] == output;
      var run := state.RunToken(input, output[..pos], pos);
      if run.Failed? {
        return false, tok, logits;
      }
      return true, run.token, run.logits;
    }

    /** One step of an unfinished session. */
    method EmitNext() returns (ok: bool, r: DecodeResult)
      requires Ready() && !finished
      modifies this`output, this`generated, this`finished, this`finish, this`pendingLogits, this`pendingToken,
               state`output, state.cache
      ensures Valid() && state.output == output
      ensures ok <==> CanStep(Cfg(), old(Now()))
      ensures ok ==> Now() == Step(Cfg(), old(Now()))
      ensures ok ==> output == old(output) + [Next(m, old(output))]
      ensures ok ==>
                r == DecodeResult(Next(m, old(output)), LogitsAfter(m, old(output)), |output|, generated, finished,
                                  finish)
      ensures !ok ==> Now().(kv := old(Now()).kv) == old(Now()) && OnlyAppended(old(Now()).kv, Now().kv)
    {
      StepEmitsNext(Cfg(), Now());
      hide WellFormed, SourcesOk, OnTrack, TrackFacts, TrueCaches, LogitsAfter, TokensOk, Next, OnlyAppended, CanStep,
        Step, AfterNext, Emit;
      var tok, logits;
      ok, tok, logits := NextToken();
      if ok {
        r := CommitDecodeStep(tok, logits);
      } else {
        r := DecodeResult(0, [], 0, 0, false, Running);
      }
    }

    method DecodeStep() returns (r: Result<DecodeResult>)
      requires Callable()
      modifies this, state, state.cache
      ensures Valid() && state == old(state) && prompt == old(prompt) && prefilled == old(prefilled)
              && closed == old(closed)
      ensures r.Ok? <==> old(Ready()) && CanStep(Cfg(), old(Now()))
      ensures r.Ok? ==> Ready() && Now() == Step(Cfg(), old(Now()))
      ensures r.Ok? && old(finished) ==> r.value == DecodeResult(0, [], |output|, generated, true, finish)
      ensures r.Ok? && !old(finished) ==>
                && output == old(output) + [Next(m, old(output))]
                && r.value == DecodeResult(Next(m, old(output)), LogitsAfter(m, old(output)), |output|, generated,
                                           finished, finish)
                && finish == if Next(m, old(output)) in stops then StopToken
                             else if generated == maxTokens then Length else Running
      ensures r.Err? && old(Ready()) ==>
                Now().(kv := old(Now()).kv) == old(Now()) && OnlyAppended(old(Now()).kv, Now().kv)
                && state.output == output
    {
      if closed || !prefilled {
        return Err;
      }
      if finished {
        return Ok(DecodeResult(0, [], |output|, generated, true, finish));
      }
      hide WellFormed, SourcesOk, OnTrack, TrueCaches, LogitsAfter, TokensOk, Greedy, Next, OnlyAppended, Step,
        TrackFacts, CanStep;
      StepFinish(Cfg(), Now());
      if CanStep(Cfg(), Now()) {
        StepStaysOnTrack(Cfg(), Now());
      }
      var ok, result := EmitNext();
      if !ok {
        return Err;
      }
      return Ok(result);
    }

    /** Appends a decided token and sets the finish state. */
    method CommitDecodeStep(tok: int, logits: seq<real>) returns (r: DecodeResult)
      requires Valid()
      modifies this`output, this`generated, this`finished, this`finish, state`output
      ensures Valid() && output == old(output) + [tok] && state.output == output
      ensures Now() == Emit(Cfg(), old(Now()), tok)
      ensures r == DecodeResult(tok, logits, |output|, generated, finished, finish)
    {
      output := output + [tok];
      state.output := output;
      generated := generated + 1;
      if tok in stops {
        finished, finish := true, StopToken;
      } else if generated >= maxTokens {
        finished, finish := true, Length;
      }
      return DecodeResult(tok, logits, |output|, generated, finished, finish);
    }

    // -------------------------------------------------------------------------------------------
    // Checkpoint and restore

    method Checkpoint() returns (r: Result<SessionCheckpoint>)
      requires Valid()
      ensures r.Ok? <==> !closed && prefilled
      ensures r.Ok? ==> r.value == CheckpointOf(id, Now())
    {
      if closed || !prefilled {
        return Err;
      }
      var kvLen := CacheLengths();
      return Ok(SessionCheckpoint(id, |output|, generated, finished, finish,
                                  if pendingLogits.Some? then pendingLogits.value else [], pendingToken, kvLen));
    }

    /** Truncates layer by layer; a layer shorter than recorded stops it midway. */
    method TruncateCaches(kvLen: seq<nat>) returns (ok: bool)
      requires |kvLen| == state.cache.Length
      modifies state.cache
      ensures ok <==> forall l :: 0 <= l < |kvLen| ==> kvLen[l] <= |old(state.cache[..])[l]|
      ensures ok ==> forall l :: 0 <= l < |kvLen| ==> state.cache[l] == old(state.cache[..])[l][..kvLen[l]]
    {
      ghost var kv := state.cache[..];
      for l := 0 to state.cache.Length
        invariant forall i :: 0 <= i < l ==> kvLen[i] <= |kv[i]| && state.cache[i] == kv[i][..kvLen[i]]
        invariant forall i :: l <= i < state.cache.Length ==> state.cache[i] == kv[i]
      {
        if kvLen[l] > |state.cache[l]| {
          return false;
        }
        state.cache[l] := state.cache[l][..kvLen[l]];
      }
      return true;
    }

    /** Truncates output and caches to the recorded lengths; only lengths are checked. */
    method Restore(cp: SessionCheckpoint) returns (ok: bool)
      requires Valid() && prefilled && |cp.kvLen| == |m.layers|
      modifies this, state, state.cache
      ensures Valid() && state == old(state) && prompt == old(prompt) && prefilled == old(prefilled)
              && closed == old(closed)
      ensures ok <==> !closed && cp.sessionId == id && Restorable(prompt, cp, old(Now()))
      ensures ok ==> Now() == Restored(cp, old(Now())) && state.output == output
      ensures !ok ==> Now().(kv := old(Now()).kv) == old(Now())
    {
      hide WellFormed, SourcesOk;
      if closed || cp.sessionId != id {
        return false;
      }
      if cp.outputLen < |prompt| || cp.outputLen > |output| || cp.generated != cp.outputLen - |prompt| {
        return false;
      }
      var fits := TruncateCaches(cp.kvLen);
      if !fits {
        return false;
      }
      output := output[..cp.outputLen];
      state.output := output;
      generated, finished, finish := cp.generated, cp.finished, cp.finish;
      pendingLogits := if pendingLogits.None? && cp.pendingLogits == [] then None else Some(cp.pendingLogits);
      pendingToken := cp.pendingToken;
      return true;
    }

    // -------------------------------------------------------------------------------------------
    // Draft verification

    method CheckVocabulary(tokens: seq<int>) returns (ok: bool)
      ensures ok <==> forall i :: 0 <= i < |tokens| ==> 0 <= tokens[i] < m.vocab
    {
      for i := 0 to |tokens|
        invariant forall j :: 0 <= j < i ==> 0 <= tokens[j] < m.vocab
      {
        if tokens[i] < 0 || tokens[i] >= m.vocab {
          return false;
        }
      }
      return true;
    }

    /** Runs up to `n` plain steps, collecting their tokens; stops at an error or an early finish. */
    method StageTokens(n: nat) returns (ok: bool, tokens: seq<int>)
      requires Ready() && !finished && n > 0 && output != []
      modifies this, state, state.cache
      ensures Valid() && state == old(state) && prompt == old(prompt) && prefilled && !closed && state.output == output
      ensures old(output) <= output && OnlyAppended(old(Now()).kv, Now().kv)
      ensures old(pendingLogits).None? ==> pendingLogits.None?
      ensures ok <==> StepsOk(Cfg(), old(Now()), n) && !Steps(Cfg(), old(Now()), n - 1).finished
      ensures ok ==> Ready() && Now() == Steps(Cfg(), old(Now()), n)
      ensures ok ==> output == old(output) + tokens && |tokens| == n && NonNegative(tokens)
    {
      hide WellFormed, SourcesOk, OnTrack, TrueCaches, LogitsAfter, TokensOk, Next, OnlyAppended, Step;
      tokens := [];
      ghost var v0 := Now();
      TrackPrefix(Cfg(), v0, v0);
      for i := 0 to n
        invariant Ready() && state == old(state) && prompt == old(prompt) && !finished
        invariant StepsOk(Cfg(), v0, i) && Now() == Steps(Cfg(), v0, i)
        invariant output == old(output) + tokens && |tokens| == i && NonNegative(tokens)
        invariant i > 0 ==> !Steps(Cfg(), v0, i - 1).finished
        invariant OnlyAppended(v0.kv, Now().kv) && (v0.pendingLogits.None? ==> pendingLogits.None?)
      {
        ghost var v := Now();
        var step := DecodeStep();
        if step.Err? {
          AppendedTwice(v0.kv, v.kv, Now().kv);
          StepsBlocked(Cfg(), v0, i, n);
          return false, tokens;
        }
        assert Now() == Steps(Cfg(), v0, i + 1);
        TrackPrefix(Cfg(), v0, Now());
        NextInVocabulary(m, v.output);
        tokens := tokens + [step.value.token];
        if step.value.finished {
          if i + 1 < n {
            FinishedStays(Cfg(), v0, i + 1, n - 1);
          }
          return i + 1 == n, tokens;
        }
      }
      return true, tokens;
    }

    /** Truncates back to the checkpointed state `v0`, which staging only built upon. */
    method Rewind(cp: SessionCheckpoint, ghost v0: View)
      requires Valid() && !closed && prefilled && state.output == output && OnTrack(Cfg(), v0)
      requires cp == CheckpointOf(id, v0)
      requires v0.output <= output && OnlyAppended(v0.kv, Now().kv) && (v0.pendingLogits.None? ==> pendingLogits.None?)
      modifies this, state, state.cache
      ensures state == old(state) && prompt == old(prompt) && Ready() && Now() == v0
    {
      hide SourcesOk, OnTrack, TrueCaches, Restored, OnlyAppended;
      RollBack(Cfg(), id, v0, Now());
      hide WellFormed;
      var ok := Restore(cp);
    }

    /** Repeats the first `|want|` staged steps; they yield the staged tokens again. */
    method Replay(want: seq<int>, ghost v0: View, ghost staged: seq<int>)
      requires Ready() && Now() == v0 && output != [] && want <= staged && staged != []
      requires StepsOk(Cfg(), v0, |staged|) && !Steps(Cfg(), v0, |staged| - 1).finished
      requires Steps(Cfg(), v0, |staged|).output == v0.output + staged
      modifies this, state, state.cache
      ensures state == old(state) && prompt == old(prompt)
      ensures Ready() && Now() == Steps(Cfg(), v0, |want|) && output == v0.output + want
    {
      hide WellFormed, SourcesOk, OnTrack, TrueCaches, LogitsAfter, TokensOk, Next, OnlyAppended, Step;
      ghost var cfg := Cfg();
      assert v0.output + want[..0] == v0.output;
      for i := 0 to |want|
        invariant Ready() && state == old(state) && Cfg() == cfg && output != []
        invariant Now() == Steps(cfg, v0, i) && output == v0.output + want[..i]
      {
        StepsReplay(cfg, v0, i, staged);
        var step := DecodeStep();
        assert Now() == Steps(cfg, v0, i + 1);
        assert output[|output| - 1] == staged[i];
        if step.Err? || step.value.token != want[i] {
          assert false;
        }
        assert want[..i + 1] == want[..i] + [want[i]];
      }
      assert want[..|want|] == want;
    }

    /** Stages plain steps behind a checkpoint, accepts the longest matching draft prefix plus one bonus
        token, rewinds, and replays only the accepted tokens. */
    method VerifyStaged(drafted: seq<int>) returns (r: Result<MTPAcceptance>)
      requires Ready() && !finished && output != [] && NonNegative(drafted) && 0 < |drafted| < MAX_INT
      modifies this, state, state.cache
      ensures state == old(state) && prompt == old(prompt) && Ready()
      ensures r.Ok? <==> Stageable(Cfg(), old(Now()), |drafted| + 1)
      ensures r.Ok? ==>
                Verified(Cfg(), old(Now()), drafted, r.value)
                && Now() == Steps(Cfg(), old(Now()), |r.value.outputTokens|)
      ensures r.Err? ==> Now() == old(Now())
    {
      ghost var cfg, v0 := Cfg(), Now();
      hide WellFormed, SourcesOk, OnTrack, TrueCaches, LogitsAfter, TokensOk, Next, OnlyAppended, Step, CheckpointOf,
        StepsOk;
      var cp := Checkpoint();
      var staged, tokens := StageTokens(|drafted| + 1);
      if !staged {
        Rewind(cp.value, v0);
        return Err;
      }
      r := AcceptDraft(drafted, tokens);
      Rewind(cp.value, v0);
      Replay(r.value.outputTokens, v0, tokens);
    }

    /** Greedy verification of a draft: on success the session has moved by exactly as many plain steps
        as tokens were accepted, on any error it has not moved at all. */
    method Verify(drafted: seq<int>) returns (r: Result<MTPAcceptance>)
      requires Callable()
      modifies this, state, state.cache
      ensures state == old(state) && prompt == old(prompt) && Callable()
      ensures r.Ok? <==>
              old(Ready()) && DraftOk(Cfg(), old(Now()), drafted) && Stageable(Cfg(), old(Now()), |drafted| + 1)
      ensures r.Ok? ==>
                Verified(Cfg(), old(Now()), drafted, r.value)
                && Now() == Steps(Cfg(), old(Now()), |r.value.outputTokens|)
      ensures r.Err? ==> Now() == old(Now())
    {
      hide WellFormed, SourcesOk, OnTrack, TrueCaches, LogitsAfter, TokensOk, Next, OnlyAppended, Step, Steps, StepsOk,
        Stageable, Verified;
      if closed || !prefilled || finished {
        return Err;
      }
      var admitted := Admits(drafted);
      if !admitted {
        return Err;
      }
      r := VerifyStaged(drafted);
    }

    /** The guards on a draft for an unfinished session: its length, its tokens, and room for the bonus token. */
    method Admits(drafted: seq<int>) returns (ok: bool)
      requires Ready() && !finished
      ensures output != [] && (ok <==> DraftOk(Cfg(), Now(), drafted))
      ensures ok ==> NonNegative(drafted) && 0 < |drafted| < MAX_INT
    {
      hide WellFormed, SourcesOk, OnTrack, TrueCaches, LogitsAfter, TokensOk, Next;
      OnTrackFacts(Cfg(), Now());
      var known := CheckVocabulary(drafted);
      return |drafted| != 0 && |drafted| <= MAX_DRAFT_COUNT && known
             && !(maxTokens > 0 && generated + |drafted| + 1 > maxTokens);
    }

    // -------------------------------------------------------------------------------------------
    // Forced tokens

    /** Prefilled, with every output token's row cached: where forced-token branches start and stay. */
    ghost predicate Branching()
      reads this, state, state.cache
    {
      && Valid() && !closed && prefilled && state.output == output && output != []
      && state.cache[..] == TrueCaches(m, output) && TokensOk(m, output)
    }

    /** Appends a chosen token and returns the logits after it. When the model rejects the token,
        output and caches are as before, but pending boundary logits are gone. */
    method AppendToken(token: int) returns (r: Result<DecodeResult>)
      requires Valid() && (!closed && prefilled ==> Branching())
      modifies this, state, state.cache
      ensures Valid() && state == old(state) && prompt == old(prompt) && prefilled == old(prefilled)
              && closed == old(closed)
      ensures r.Ok? <==>
              old(Branching()) && !old(finished) && 0 <= token < m.vocab && TokensOk(m, old(output) + [token])
      ensures r.Ok? ==> Branching() && Now() == Appended(Cfg(), old(Now()), token)
      ensures r.Ok? ==> r.value == DecodeResult(token, LogitsAfter(m, output), |output|, generated, finished, finish)
      ensures r.Ok? ==>
                && output == old(output) + [token] && generated == old(generated) + 1 && pendingLogits.None?
                && finished == (token in stops || generated >= maxTokens)
                && finish == if token in stops then StopToken else if generated >= maxTokens then Length
                             else old(finish)
      ensures r.Err? && old(Branching()) ==>
                Branching()
                && Now() == if old(finished) || !(0 <= token < m.vocab) then old(Now()) else Unpended(old(Now()))
    {
      hide WellFormed, SourcesOk, TrueCaches, LogitsAfter, TokensOk, Next, OnlyAppended, Emit, Appended;
      AppendedFields(Cfg(), Now(), token);
      if closed || !prefilled || finished || token < 0 || token >= m.vocab {
        return Err;
      }
      var ok, step := ForceToken(token);
      if !ok {
        return Err;
      }
      return Ok(step);
    }

    method ForceToken(token: int) returns (ok: bool, r: DecodeResult)
      requires Branching() && !finished
      modifies this`output, this`generated, this`finished, this`finish, this`pendingLogits, this`pendingToken,
               state`output, state.cache
      ensures Branching()
      ensures ok <==> TokensOk(m, old(output) + [token])
      ensures Now() == if ok then Appended(Cfg(), old(Now()), token) else Unpended(old(Now()))
      ensures ok ==> r == DecodeResult(token, LogitsAfter(m, output), |output|, generated, finished, finish)
    {
      hide WellFormed, SourcesOk, TrueCaches, LogitsAfter, TokensOk, Next, Emit, Appended;
      ghost var v0 := Now();
      AppendedEmits(Cfg(), v0, token);
      var logits;
      ok, logits := RunForced(token);
      if ok {
        r := CommitDecodeStep(token, logits);
        assert Now() == Appended(Cfg(), v0, token);
        assert output == v0.output + [token] && Now().kv == TrueCaches(m, output);
      } else {
        r := DecodeResult(0, [], 0, 0, false, Running);
        assert Now() == Unpended(v0) && output == v0.output;
      }
      hide Unpended;
    }

    /** Runs `token` after the current output with the output extended by it; a rejected token leaves
        the caches as they were. */
    method RunForced(token: int) returns (ok: bool, logits: seq<real>)
      requires Branching()
      modifies this`pendingLogits, this`pendingToken, state`output, state.cache
      ensures Valid() && state.output == output
      ensures ok <==> TokensOk(m, output + [token])
      ensures ok ==> logits == LogitsAfter(m, output + [token])
      ensures Now() == Unpended(old(Now())).(kv := if ok then TrueCaches(m, output + [token]) else old(Now()).kv)
    {
      hide WellFormed, SourcesOk, TrueCaches, LogitsAfter, TokensOk, Next;
      pendingLogits, pendingToken := None, 0;
      ghost var kv := state.cache[..];
      var kvBefore := CacheLengths();
      state.output := output + [token];
      var run := state.RunToken(token, output, |output|);
      state.output := output;
      if run.Failed? {
        ghost var staged := state.cache[..];
        assert forall l :: 0 <= l < |kv| ==> staged[l][..kvBefore[l]] == kv[l];
        var trimmed := TruncateCaches(kvBefore);
        assert state.cache[..] == kv;
        return false, [];
      }
      return true, run.logits;
    }

    method CacheLengths() returns (kvLen: seq<nat>)
      ensures |kvLen| == state.cache.Length && forall l :: 0 <= l < |kvLen| ==> kvLen[l] == |state.cache[l]|
    {
      kvLen := [];
      for l := 0 to state.cache.Length
        invariant |kvLen| == l && forall i :: 0 <= i < l ==> kvLen[i] == |state.cache[i]|
      {
        kvLen := kvLen + [|state.cache[l]|];
      }
    }

    // -------------------------------------------------------------------------------------------
    // Independent branches

    /** Checks the number of branches, each branch, and the longest one against the model's context. */
    method AdmitBranches(branches: seq<seq<int>>, maxContext: int) returns (ok: bool)
      ensures ok <==> BranchListOk(m, maxTokens, |output|, maxContext, branches)
      ensures ok ==> forall b :: 0 <= b < |branches| ==> branches[b] != []
    {
      if |branches| == 0 || |branches| > 256 {
        return false;
      }
      var maxDepth := 0;
      ghost var deepest := 0;
      for b := 0 to |branches|
        invariant forall i :: 0 <= i < b ==> BranchOk(m, maxTokens, branches[i]) && |branches[i]| <= maxDepth
        invariant if b == 0 then maxDepth == 0 else 0 <= deepest < b && |branches[deepest]| == maxDepth
      {
        if |branches[b]| == 0 || |branches[b]| > maxTokens {
          return false;
        }
        var known := CheckVocabulary(branches[b]);
        if !known {
          return false;
        }
        if |branches[b]| > maxDepth {
          maxDepth, deepest := |branches[b]|, b;
        }
      }
      return maxContext <= 0 || |output| + maxDepth <= maxContext;
    }

    /** Scores forced-token continuations without touching the session: every branch gets the logits that
        decoding the whole sequence would give. It works exactly where every output token's row is cached,
        so not after a plain decode step, which leaves the newest token's row for the next one. */
    method ScoreIndependentBranches(branches: seq<seq<int>>, maxContext: int) returns (r: Option<seq<seq<real>>>)
      requires Valid() && (!closed && prefilled ==> Ready() || Branching())
      ensures r.Some? <==> Branching() && BranchListOk(m, maxTokens, |output|, maxContext, branches)
                           && forall b :: 0 <= b < |branches| ==> TokensOk(m, output + branches[b])
      ensures r.Some? ==>
                |r.value| == |branches|
                && forall b :: 0 <= b < |branches| ==>
                                 branches[b] != [] && r.value[b] == LogitsAfter(m, output + branches[b])
    {
      if closed || !prefilled {
        return None;
      }
      hide WellFormed, OnTrack, TrueCaches, LogitsAfter, TokensOk, BranchLogits, BranchesOk;
      var admitted := AdmitBranches(branches, maxContext);
      if !admitted {
        return None;
      }
      FullRows();
      if Branching() {
        forall b | 0 <= b < |branches|
          ensures branches[b] != []
          ensures ValidRun(m, BranchRun(m, state.cache[..], |output|, branches[b]))
          ensures BranchLogits(m, state.cache[..], |output|, branches[b]) == LogitsAfter(m, output + branches[b])
          ensures TokensOk(m, output + branches[b]) <==> RunOk(m, BranchRun(m, state.cache[..], |output|, branches[b]))
        {
          assert BranchOk(m, maxTokens, branches[b]);
          BranchContinues(m, output, branches[b]);
          Extend(m, output, branches[b]);
        }
      }
      forall b | 0 <= b < |branches|
        ensures branches[b] != []
      {
        assert BranchOk(m, maxTokens, branches[b]);
      }
      r := RunBranchBatch(m, |output|, state.cache, branches);
    }

    /** The trunk is usable exactly when every output token's row is cached. On track that is before the
        first decode step, and never after one: branches are refused from then on. */
    lemma FullRows()
      requires Valid() && !closed && prefilled && (Ready() || Branching())
      ensures output != [] && (TrunkOk(m, |output|, state.cache[..]) <==> Branching())
      ensures Ready() ==> (Branching() <==> generated == 0 || |m.layers| == 0)
    {
      hide WellFormed, SourcesOk, TrueCaches, TokensOk, TrunkOk, OnTrack;
      if Ready() {
        TrackRows(Cfg(), Now());
      } else {
        TrunkRows(m, output, output, state.cache[..]);
      }
    }

    // -------------------------------------------------------------------------------------------
    // Close

    /** Releases everything; a closed session refuses every call and says why. */
    method Close()
      requires Valid()
      modifies this
      ensures Valid() && closed && !Ready() && !Branching() && !Prefilling()
      ensures !old(closed) ==>
                finished && finish == Closed && output == [] && prompt == [] && prepared == [] && pendingLogits == None
                && cursor == 0 && !prefillStarted
      ensures old(closed) ==> unchanged(this)
    {
      if closed {
        return;
      }
      closed, finished, finish := true, true, Closed;
      prompt, output, prepared, pendingLogits := [], [], [], None;
      cursor, prefillStarted := 0, false;
    }
  }

  /** Two tokens tried from one trunk on a live session: the checkpoint taken behind the first is accepted
      behind the second, and the session is not where it was taken. */
  method TryTwoTokens(s: DecodeSession, a: int, b: int) returns (accepted: bool)
    requires s.Branching() && BranchView(s.Cfg(), s.Now()) && !s.finished && a != b
    requires 0 <= a < s.m.vocab && 0 <= b < s.m.vocab && TokensOk(s.m, s.output + [a]) && TokensOk(s.m, s.output + [b])
    modifies s, s.state, s.state.cache
    ensures accepted && s.Now() != Appended(s.Cfg(), old(s.Now()), a)
  {
    ghost var cfg, v := s.Cfg(), s.Now();
    StaleCheckpoint(cfg, s.id, v, a, b);
    MarkReached(cfg, v, a);
    MarkRecovered(cfg, s.id, v, Appended(cfg, v, a));
    hide WellFormed, SourcesOk, TrueCaches, LogitsAfter, TokensOk, Next, BranchView, Appended, Restored, Restorable,
      CheckpointOf;
    var trunk := s.Checkpoint();
    var first := s.AppendToken(a);
    var cp := s.Checkpoint();
    var back := s.Restore(trunk.value);
    var second := s.AppendToken(b);
    accepted := s.Restore(cp.value);
  }

  lemma MarkReached(cfg: Config, v: View, token: int)
    requires BranchView(cfg, v)
    ensures GrownFrom(cfg, v, Appended(cfg, v, token))
  {
    AppendedStaysBranch(cfg, v, token);
    hide Appended, TrueCaches;
  }

}
