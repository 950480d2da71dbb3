/** One multi-token-prediction cycle: draft, verify in one layer-major pass, and commit exactly the
    accepted prefix and the bonus token, or leave the decode state untouched. */
module MtpSteps {
  import opened Transformer
  import opened Decoding
  import opened Schedules
  import opened Acceptance
  import opened Wrappers
  import opened DecodeStates
  import opened MtpGraph

  /** The drafter: number of query-only layers, backbone width, and what it drafts. */
  datatype Drafter = Drafter(layers: nat, backbone: int, draft: (int, Vec, Option<ExternalKV>, int) -> Option<seq<int>>)

  /** Every owning layer holds exactly `n` rows. */
  ghost predicate RowsMatch(m: Model, kv: seq<seq<KV>>, n: int) {
    |kv| == |m.layers| && forall l :: 0 <= l < |kv| ==> |kv[l]| == if m.layers[l].hasKV then n else 0
  }

  /** The verifier pass: the previous token again, then the draft, after `start` cached rows. */
  function VerifierRun(m: Model, input: int, drafted: seq<int>, start: nat, kv: seq<seq<KV>>): Run {
    RunOf(m, [input] + drafted, start, kv)
  }

  /** The rows of a verifier pass: the input token and then the drafts, at consecutive positions on top of the
      existing caches, each with its own embedding and per-layer inputs. */
  lemma VerifierRows(m: Model, input: int, drafted: seq<int>, start: nat, kv: seq<seq<KV>>, r: nat)
    requires r <= |drafted|
    ensures var run := VerifierRun(m, input, drafted, start, kv);
            var token := if r == 0 then input else drafted[r - 1];
            && run.start == start && run.history == kv && |run.inputs| == |run.extra| == |drafted| + 1
            && run.inputs[r] == m.embed(token) && run.extra[r] == m.tokenInputs(token)
  {
  }

  /** The verifier's own greedy token after each of its rows. */
  ghost function Outputs(m: Model, run: Run): (out: seq<int>)
    requires ValidRun(m, run)
    ensures |out| == |run.inputs| && NonNegative(out)
  {
    seq(|run.inputs|, r requires 0 <= r < |run.inputs| => OutputAt(m, run, r))
  }

  ghost function OutputAt(m: Model, run: Run, r: nat): nat
    requires ValidRun(m, run) && r < |run.inputs|
  {
    m.argmax(m.logits(HiddenAt(m, run, |m.layers|, r)))
  }

  datatype VerifierResult = VerifierResult(inputToken: int, drafted: seq<int>, verifierTokens: seq<int>,
                                           outputs: seq<int>, rows: seq<Vec>, acceptance: MTPAcceptance)

  /** `a` is the greedy acceptance of `drafted` against `outputs`. */
  ghost predicate Accepts(drafted: seq<int>, outputs: seq<int>, a: MTPAcceptance) {
    && a.Valid() && a.draftedCount == |drafted| && |outputs| == |drafted| + 1
    && LongestMatch(drafted, outputs, a.acceptedPrefixLen)
    && a.acceptedTokens == drafted[..a.acceptedPrefixLen]
    && a.outputTokens == outputs[..a.acceptedPrefixLen + 1]
  }

  /** Greedy acceptance is a function of the draft and the verifier's tokens. */
  lemma AcceptanceUnique(drafted: seq<int>, outputs: seq<int>, a: MTPAcceptance, b: MTPAcceptance)
    requires Accepts(drafted, outputs, a) && Accepts(drafted, outputs, b)
    ensures a == b
  {
    LongestMatchUnique(drafted, outputs, a.acceptedPrefixLen, b.acceptedPrefixLen);
    assert a.bonusToken == a.outputTokens[a.acceptedPrefixLen] == b.bonusToken;
  }

  method CheckRows(m: Model, cache: array<seq<KV>>, n: int) returns (ok: bool)
    ensures ok <==> RowsMatch(m, cache[..], n)
  {
    if cache.Length != |m.layers| {
      return false;
    }
    for l := 0 to cache.Length
      invariant forall i :: 0 <= i < l ==> |cache[i]| == if m.layers[i].hasKV then n else 0
    {
      if |cache[l]| != if m.layers[l].hasKV then n else 0 {
        assert cache[..][l] == cache[l];
        return false;
      }
    }
    return true;
  }

  /** Layer-major verification. Caches that do not hold exactly `start` rows are refused untouched. */
  method VerifierForward(m: Model, input: int, drafted: seq<int>, start: nat, cache: array<seq<KV>>, lowered: bool)
    returns (r: Result<VerifierResult>)
    requires SourcesOk(m) && WellFormed(m) && NonNegative(drafted) && |drafted| < MAX_INT
    modifies cache
    ensures OnlyAppended(old(cache[..]), cache[..])
    ensures var run := VerifierRun(m, input, drafted, start, old(cache[..]));
            && (r.Ok? <==> RowsMatch(m, old(cache[..]), start) && ValidRun(m, run) && RunOk(m, run))
            && (r.Ok? ==> Forwarded(m, input, drafted, run, cache[..], r.value))
  {
    hide WellFormed, SourcesOk, RunOk, Caches, HiddenAt;
    var matching := CheckRows(m, cache, start);
    if !matching {
      return Err;
    }
    var run := VerifierRun(m, input, drafted, start, cache[..]);
    var ok, rows := BatchForward(m, run, cache, lowered);
    if !ok {
      return Err;
    }
    var outputs := Argmaxes(m, rows);
    assert outputs == Outputs(m, run);
    var acceptance := AcceptDraft(drafted, outputs);
    if acceptance.Err? {
      assert false;
    }
    return Ok(VerifierResult(input, drafted, [input] + drafted, outputs, rows, acceptance.value));
  }

  method Argmaxes(m: Model, rows: seq<Vec>) returns (out: seq<int>)
    requires WellFormed(m)
    ensures |out| == |rows| && NonNegative(out)
    ensures forall i :: 0 <= i < |rows| ==> out[i] == m.argmax(m.logits(rows[i])) < m.vocab
  {
    out := [];
    for i := 0 to |rows|
      invariant |out| == i && NonNegative(out)
      invariant forall j :: 0 <= j < i ==> out[j] == m.argmax(m.logits(rows[j])) < m.vocab
    {
      out := out + [m.argmax(m.logits(rows[i]))];
    }
  }

  /** What a successful verifier pass leaves: every row staged, and the verdict on the draft. */
  ghost predicate Forwarded(m: Model, input: int, drafted: seq<int>, run: Run, kv: seq<seq<KV>>, v: VerifierResult) {
    && ValidRun(m, run) && |run.inputs| == |drafted| + 1
    && kv == Caches(m, run, |drafted| + 1)
    && v.inputToken == input && v.drafted == drafted && v.verifierTokens == [input] + drafted
    && v.outputs == Outputs(m, run) && v.rows == FinalRows(m, run)
    && Accepts(drafted, v.outputs, v.acceptance)
  }

  // ---------------------------------------------------------------------------------------------
  // Commit

  /** Rows kept of a staged pass are the rows a pass over the kept tokens alone would have staged. */
  lemma KeptRows(m: Model, run: Run, keep: nat)
    requires ValidRun(m, run) && keep <= |run.inputs|
    ensures Caches(m, FirstRows(run, keep), keep) == Caches(m, run, keep)
    ensures RowsMatch(m, Caches(m, run, keep), run.start + keep)
    ensures OnlyAppended(run.history, Caches(m, run, keep))
    ensures forall l :: 0 <= l < |m.layers| ==>
                          var all := Caches(m, run, |run.inputs|)[l];
                          var n := |run.history[l]| + if m.layers[l].hasKV then keep else 0;
                          n <= |all| && all[..n] == Caches(m, run, keep)[l]
  {
    hide HiddenAt, CacheAt;
    SplitRun(m, run, keep);
    forall l | 0 <= l < |m.layers|
      ensures run.history[l] <= Caches(m, run, keep)[l]
      ensures m.layers[l].hasKV ==> CacheAt(m, run, l, |run.inputs|)[..run.start + keep] == CacheAt(m, run, l, keep)
      ensures !m.layers[l].hasKV ==> |run.history[l]| == 0
    {
      if m.layers[l].hasKV {
        CachePrefix(m, run, l, keep, |run.inputs|);
        CachePrefix(m, run, l, 0, keep);
        StartOfCache(m, run, l);
      }
    }
  }

  lemma StartOfCache(m: Model, run: Run, l: nat)
    requires ValidRun(m, run) && l < |m.layers| && m.layers[l].hasKV
    ensures CacheAt(m, run, l, 0) == run.history[l] && |run.history[l]| == run.start
  {
  }

  /** The verifier's result is consistent in itself and belongs to the graph. */
  ghost predicate Belongs(m: Model, graph: ExecutionGraph, v: VerifierResult) {
    && v.verifierTokens == [v.inputToken] + v.drafted && TokensKnown(m, v.verifierTokens)
    && (v.rows == [] || |v.rows| == |v.verifierTokens|) && NonNegative(v.outputs)
    && Accepts(v.drafted, v.outputs, v.acceptance)
    && v.inputToken == graph.inputToken && v.drafted == graph.drafted && graph.Valid()
  }

  predicate TokensKnown(m: Model, tokens: seq<int>) {
    forall i :: 0 <= i < |tokens| ==> 0 <= tokens[i] < m.vocab
  }

  /** Every check of a commit passes: the checkpoint is the graph's start, the result belongs to the graph,
      and the rows to keep are staged. */
  ghost predicate Committable(m: Model, cp: CPUDecodeCheckpoint, graph: ExecutionGraph, v: VerifierResult,
                              output: seq<int>, kv: seq<seq<KV>>)
    requires |cp.kvLen| == |kv| == |m.layers|
  {
    && cp.outputLen <= |output| && cp.outputLen == graph.startPos && Belongs(m, graph, v)
    && forall l :: 0 <= l < |kv| ==> Kept(m, cp.kvLen, v.acceptance.acceptedPrefixLen + 1, l) <= |kv[l]|
  }

  /** The checks made on the result before anything is committed. */
  method CheckResult(m: Model, graph: ExecutionGraph, v: VerifierResult) returns (r: Result<CommitPlan>)
    requires |v.drafted| < MAX_INT
    ensures r.Ok? <==> Belongs(m, graph, v)
    ensures r.Ok? ==>
              r.value.outputTokens == v.acceptance.outputTokens
              && r.value.keepTokens == v.acceptance.acceptedPrefixLen + 1
    ensures r.Ok? ==> r.value.keepTokens == |r.value.outputTokens| == |r.value.positions|
    ensures r.Ok? ==> r.value.positions == graph.verifier.positions[..r.value.keepTokens]
  {
    hide ExecutionGraph.Valid, MTPAcceptance.Valid, LongestMatch;
    if v.verifierTokens != [v.inputToken] + v.drafted || |v.outputs| != |v.verifierTokens| {
      return Err;
    }
    for i := 0 to |v.verifierTokens|
      invariant TokensKnown(m, v.verifierTokens[..i])
    {
      if v.verifierTokens[i] < 0 || v.verifierTokens[i] >= m.vocab {
        return Err;
      }
    }
    assert v.verifierTokens[..|v.verifierTokens|] == v.verifierTokens;
    if v.rows != [] && |v.rows| != |v.verifierTokens| {
      return Err;
    }
    forall i | 0 <= i < |v.drafted|
      ensures v.drafted[i] >= 0
    {
      assert v.verifierTokens[i + 1] == v.drafted[i];
    }
    var want := AcceptDraft(v.drafted, v.outputs);
    VerdictChecked(v, want);
    if want != Ok(v.acceptance) {
      return Err;
    }
    if v.inputToken != graph.inputToken || v.drafted != graph.drafted {
      return Err;
    }
    r := NewCommitPlan(graph, v.acceptance);
  }

  lemma VerdictChecked(v: VerifierResult, want: Result<MTPAcceptance>)
    requires want.Ok? <==> NonNegative(v.drafted) && NonNegative(v.outputs) && |v.outputs| == |v.drafted| + 1
    requires want.Ok? ==> Accepts(v.drafted, v.outputs, want.value)
    ensures want == Ok(v.acceptance) <==>
            NonNegative(v.drafted) && NonNegative(v.outputs) && Accepts(v.drafted, v.outputs, v.acceptance)
  {
    if want.Ok? && Accepts(v.drafted, v.outputs, v.acceptance) {
      AcceptanceUnique(v.drafted, v.outputs, v.acceptance, want.value);
    }
  }

  /** Commits a verified draft through its graph. Every mismatch is refused before anything changes; only a
      missing cache row, found midway, can leave some layers truncated, and never the output changed. */
  method CommitGraphAccepted(s: CPUDecodeState, cp: CPUDecodeCheckpoint, graph: ExecutionGraph, v: VerifierResult)
    returns (r: Result<CommitPlan>)
    requires s.cache.Length == |s.m.layers| == |cp.kvLen| && |v.drafted| < MAX_INT
    modifies s`output, s.cache
    ensures r.Ok? <==> Committable(s.m, cp, graph, v, old(s.output), old(s.cache[..]))
    ensures r.Ok? ==> s.output == old(s.output)[..cp.outputLen] + v.acceptance.outputTokens
    ensures r.Ok? ==> forall l :: 0 <= l < |cp.kvLen| ==>
                                    s.cache[l] ==
                                    old(s.cache[..])[l][..Kept(s.m, cp.kvLen, v.acceptance.acceptedPrefixLen + 1, l)]
    ensures r.Ok? ==>
              r.value.outputTokens == v.acceptance.outputTokens
              && r.value.keepTokens == |r.value.outputTokens| == |r.value.positions|
    ensures r.Ok? ==> r.value.positions == graph.verifier.positions[..r.value.keepTokens]
    ensures r.Err? ==> s.output == old(s.output)
    ensures r.Err? && !Belongs(s.m, graph, v) ==> s.cache[..] == old(s.cache[..])
    ensures r.Err? ==> forall l :: 0 <= l < |cp.kvLen| ==> s.cache[l] <= old(s.cache[..])[l]
  {
    hide Belongs;
    if cp.outputLen > |s.output| || cp.outputLen != graph.startPos {
      return Err;
    }
    r := CheckResult(s.m, graph, v);
    if r.Err? {
      return;
    }
    var ok := s.KeepAppended(cp.kvLen, r.value.keepTokens);
    if !ok {
      return Err;
    }
    s.output := s.output[..cp.outputLen] + r.value.outputTokens;
  }

  /** For a graph and a verdict that belong together every check passes, and the rows kept are those of the
      accepted tokens and the bonus position. */
  lemma CommitFits(m: Model, cp: CPUDecodeCheckpoint, graph: ExecutionGraph, v: VerifierResult, run: Run,
                   output: seq<int>, kv: seq<seq<KV>>)
    requires graph.Valid() && graph.startPos == |output| && graph.inputToken < m.vocab
             && InVocab(graph.drafted, m.vocab)
    requires Forwarded(m, graph.inputToken, graph.drafted, run, kv, v) && cp == CheckpointAt(|output|, run.history)
    ensures |cp.kvLen| == |kv| == |m.layers| && Committable(m, cp, graph, v, output, kv)
    ensures var keep := v.acceptance.acceptedPrefixLen + 1;
            keep <= |run.inputs| && forall l :: 0 <= l < |kv| ==>
                                                  Kept(m, cp.kvLen, keep, l) <= |kv[l]|
                                                  && kv[l][..Kept(m, cp.kvLen, keep, l)] == Caches(m, run, keep)[l]
  {
    hide HiddenAt, Caches, FinalRows, Outputs;
    KeptRows(m, run, v.acceptance.acceptedPrefixLen + 1);
  }

  /** The commit of a pass just verified: it is not refused. */
  method CommitVerified(s: CPUDecodeState, cp: CPUDecodeCheckpoint, graph: ExecutionGraph, v: VerifierResult,
                        ghost run: Run) returns (plan: CommitPlan)
    requires s.cache.Length == |s.m.layers| && graph.Valid()
             && Forwarded(s.m, graph.inputToken, graph.drafted, run, s.cache[..], v)
    requires graph.inputToken < s.m.vocab && InVocab(graph.drafted, s.m.vocab)
    requires cp == CheckpointAt(|s.output|, run.history) && graph.startPos == |s.output|
    modifies s`output, s.cache
    ensures s.output == old(s.output) + v.acceptance.outputTokens
    ensures s.cache[..] == Caches(s.m, run, v.acceptance.acceptedPrefixLen + 1)
    ensures plan.outputTokens == v.acceptance.outputTokens && plan.keepTokens == |plan.outputTokens| == |plan.positions|
    ensures plan.positions == graph.verifier.positions[..plan.keepTokens]
  {
    DraftBound(graph, v);
    hide Forwarded, Caches, Committable, Belongs, ExecutionGraph.Valid;
    CommitFits(s.m, cp, graph, v, run, s.output, s.cache[..]);
    var commit := CommitGraphAccepted(s, cp, graph, v);
    if commit.Err? {
      assert false;
    }
    assert s.cache[..] == Caches(s.m, run, v.acceptance.acceptedPrefixLen + 1);
    return commit.value;
  }

  lemma DraftBound(graph: ExecutionGraph, v: VerifierResult)
    requires graph.Valid() && v.drafted == graph.drafted
    ensures |v.drafted| < MAX_INT
  {
  }

  // ---------------------------------------------------------------------------------------------
  // One cycle

  datatype GraphStep = GraphStep(graph: ExecutionGraph, verifier: VerifierResult, commit: CommitPlan, stats: MTPStats,
                                 nextToken: int, nextActivation: Vec)

  /** Everything that must hold for `count` tokens to be drafted, verified and counted. */
  ghost predicate VerifyOk(m: Model, d: Drafter, prev: int, activation: Vec, external: Option<ExternalKV>, count: int,
                           stats: MTPStats, output: seq<int>, kv: seq<seq<KV>>) {
    var drafts := d.draft(prev, activation, external, count);
    && stats.HasCapacity(count) && drafts.Some? && |drafts.value| == count
    && GraphInputsOk(m.vocab, d.backbone, d.layers, prev, external, drafts.value, |output|)
    && RowsMatch(m, kv, |output|) && VerdictOk(m, VerifierRun(m, prev, drafts.value, |output|, kv), drafts.value, stats)
  }

  /** No row is rejected and the verified counter has room for what is accepted. */
  ghost predicate VerdictOk(m: Model, run: Run, drafted: seq<int>, stats: MTPStats) {
    ValidRun(m, run) && RunOk(m, run) && stats.verified <= MAX_INT - MatchLength(drafted, Outputs(m, run))
  }

  /** Draft, build the graph, verify, count. A failure puts the caches back. */
  method DraftAndVerify(s: CPUDecodeState, d: Drafter, prev: int, activation: Vec, external: Option<ExternalKV>,
                        count: int, stats: MTPStats)
    returns (r: Result<(ExecutionGraph, VerifierResult, MTPStats)>)
    requires SourcesOk(s.m) && WellFormed(s.m) && s.cache.Length == |s.m.layers|
    modifies s.cache
    ensures r.Ok? <==> VerifyOk(s.m, d, prev, activation, external, count, stats, s.output, old(s.cache[..]))
    ensures r.Ok? ==> d.draft(prev, activation, external, count) == Some(r.value.0.drafted)
    ensures r.Err? ==> s.cache[..] == old(s.cache[..])
    ensures r.Ok? ==>
              && r.value.0.Valid() && r.value.0.inputToken == prev < s.m.vocab && r.value.0.startPos == |s.output|
              && |r.value.0.drafted| == count > 0 && InVocab(r.value.0.drafted, s.m.vocab)
    ensures r.Ok? ==> RowsMatch(s.m, old(s.cache[..]), |s.output|)
    ensures r.Ok? ==>
              Forwarded(s.m, prev, r.value.0.drafted,
                        VerifierRun(s.m, prev, r.value.0.drafted, |s.output|, old(s.cache[..])), s.cache[..], r.value.1)
    ensures r.Ok? ==> && stats.NonNegativeCounters() && r.value.2.NonNegativeCounters()
                      && r.value.2 == stats.Plus(count, r.value.1.acceptance.acceptedPrefixLen)
  {
    hide WellFormed, SourcesOk, RunOk, Caches, HiddenAt, FinalRows, Outputs, OnlyAppended;
    if count <= 0 || count > MAX_DRAFT_COUNT || !stats.HasCapacity(count) {
      return Err;
    }
    var drafts := d.draft(prev, activation, external, count);
    if drafts.None? || |drafts.value| != count {
      return Err;
    }
    var graph := NewExecutionGraph(s.m.vocab, d.backbone, d.layers, prev, external, drafts.value, |s.output|);
    if graph.Err? {
      return Err;
    }
    var cp := s.Checkpoint();
    var v := VerifierForward(s.m, prev, drafts.value, |s.output|, s.cache, true);
    if v.Err? {
      RestoreCaches(s, cp, old(s.cache[..]));
      return Err;
    }
    CapacityCovers(stats, v.value.acceptance);
    LongestMatchUnique(drafts.value, v.value.outputs, v.value.acceptance.acceptedPrefixLen,
                       MatchLength(drafts.value, v.value.outputs));
    var recorded := Record(stats, v.value.acceptance);
    if recorded.Err? {
      RestoreCaches(s, cp, old(s.cache[..]));
      return Err;
    }
    return Ok((graph.value, v.value, recorded.value));
  }

  method RestoreCaches(s: CPUDecodeState, cp: CPUDecodeCheckpoint, ghost kv: seq<seq<KV>>)
    requires s.cache.Length == |s.m.layers| == |kv| && cp.kvLen == CheckpointAt(0, kv).kvLen
             && OnlyAppended(kv, s.cache[..])
    modifies s.cache
    ensures s.cache[..] == kv
  {
    ghost var staged := s.cache[..];
    assert forall l :: 0 <= l < |kv| ==> staged[l][..cp.kvLen[l]] == kv[l];
    var ok := s.KeepAppended(cp.kvLen, 0);
    if !ok {
      assert false;
    }
  }

  /** What one successful cycle did. */
  ghost predicate Stepped(m: Model, prev: int, remaining: int, stats: MTPStats, before: seq<int>, kv: seq<seq<KV>>,
                          after: seq<int>, kv': seq<seq<KV>>, st: GraphStep) {
    var g, v := st.graph, st.verifier;
    var run := VerifierRun(m, prev, g.drafted, |before|, kv);
    && g.Valid() && g.inputToken == prev < m.vocab && g.startPos == |before| && 0 < |g.drafted| < remaining
    && InVocab(g.drafted, m.vocab)
    && RowsMatch(m, kv, |before|) && ValidRun(m, run)
    && v.inputToken == prev && v.drafted == g.drafted && v.verifierTokens == [prev] + g.drafted
    && v.outputs == Outputs(m, run) && |v.outputs| == |g.drafted| + 1
    && Accepts(g.drafted, v.outputs, v.acceptance)
    && st.commit.outputTokens == v.acceptance.outputTokens
    && st.commit.keepTokens == |st.commit.outputTokens| == |st.commit.positions| == v.acceptance.acceptedPrefixLen + 1
    && st.commit.positions == g.verifier.positions[..st.commit.keepTokens]
    && after == before + st.commit.outputTokens
    && kv' == Caches(m, run, v.acceptance.acceptedPrefixLen + 1)
    && st.stats == stats.Plus(|g.drafted|, v.acceptance.acceptedPrefixLen) && stats.NonNegativeCounters()
    && st.stats.NonNegativeCounters()
    && st.nextToken == after[|after| - 1]
    && st.nextActivation == HiddenAt(m, run, |m.layers|, v.acceptance.acceptedPrefixLen)
  }

  /** When a cycle happens: the draft leaves room for its bonus token and can be verified and counted. */
  ghost predicate CycleOk(m: Model, d: Drafter, prev: int, activation: Vec, external: Option<ExternalKV>,
                          remaining: int, draftCount: int, policy: AdaptivePolicy, stats: MTPStats, output: seq<int>,
                          kv: seq<seq<KV>>) {
    var count := DraftCount(remaining, draftCount, policy, stats);
    0 < count < remaining && VerifyOk(m, d, prev, activation, external, count, stats, output, kv)
  }

  /** A caller's count, or the policy's when it gives none. */
  function DraftCount(remaining: int, draftCount: int, policy: AdaptivePolicy, stats: MTPStats): int {
    if draftCount == 0 then policy.NextDraftCount(remaining, stats) else draftCount
  }

  /** One cycle either happens completely or changes neither output nor caches. */
  method RunMTPGraphDecodeStep(s: CPUDecodeState, d: Drafter, prev: int, activation: Vec, external: Option<ExternalKV>,
                               remaining: int, draftCount: int, policy: AdaptivePolicy, stats: MTPStats)
    returns (r: Result<GraphStep>)
    requires SourcesOk(s.m) && WellFormed(s.m) && s.cache.Length == |s.m.layers|
    modifies s`output, s.cache
    ensures r.Ok? <==>
            CycleOk(s.m, d, prev, activation, external, remaining, draftCount, policy, stats, old(s.output),
                    old(s.cache[..]))
    ensures r.Err? ==> s.output == old(s.output) && s.cache[..] == old(s.cache[..])
    ensures r.Ok? ==>
              d.draft(prev, activation, external, DraftCount(remaining, draftCount, policy, stats)) ==
              Some(r.value.graph.drafted)
    ensures r.Ok? ==>
              Stepped(s.m, prev, remaining, stats, old(s.output), old(s.cache[..]), s.output, s.cache[..], r.value)
  {
    hide WellFormed, SourcesOk, RunOk, Caches, HiddenAt, Outputs, AdaptivePolicy.NextDraftCount, VerifyOk, Committable,
      Belongs;
    var count := if draftCount == 0 then policy.NextDraftCount(remaining, stats) else draftCount;
    if remaining <= 0 || count <= 0 || count >= remaining {
      return Err;
    }
    ghost var kv, before := s.cache[..], s.output;
    var cp := s.Checkpoint();
    var step := DraftAndVerify(s, d, prev, activation, external, count, stats);
    if step.Err? {
      return Err;
    }
    var (graph, v, recorded) := step.value;
    var commit := CommitVerified(s, cp, graph, v, VerifierRun(s.m, prev, graph.drafted, |before|, kv));
    var idx := v.acceptance.acceptedPrefixLen;
    return Ok(GraphStep(graph, v, commit, recorded, commit.outputTokens[idx], v.rows[idx]));
  }

  /** After a cycle the caches hold one row per output token again, on top of what was there. */
  lemma SteppedRows(m: Model, prev: int, remaining: int, stats: MTPStats, before: seq<int>, kv: seq<seq<KV>>,
                    after: seq<int>, kv': seq<seq<KV>>, st: GraphStep)
    requires Stepped(m, prev, remaining, stats, before, kv, after, kv', st)
    ensures RowsMatch(m, kv', |after|) && OnlyAppended(kv, kv')
    ensures 0 < |after| - |before| <= remaining
  {
    KeptRows(m, VerifierRun(m, prev, st.graph.drafted, |before|, kv), st.verifier.acceptance.acceptedPrefixLen + 1);
  }
}
