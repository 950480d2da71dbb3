/** The multi-token-prediction generation loop and the executable check of its own result. */
module MtpGeneration {
  import opened Transformer
  import opened Decoding
  import opened Acceptance
  import opened Wrappers
  import opened DecodeStates
  import opened MtpGraph
  import opened MtpSteps

  datatype StepSummary = StepSummary(
    inputToken: int,
    drafted: seq<int>,
    verifierTokens: seq<int>,
    verifierOutputs: seq<int>,
    verifierPositions: seq<int>,
    positions: seq<int>,
    acceptedPrefixLen: int,
    bonusToken: int,
    outputTokens: seq<int>,
    allDraftsAccepted: bool)

  datatype GenerationResult = GenerationResult(
    output: seq<int>,
    vocab: int,
    requested: int,
    initialStats: MTPStats,
    stats: MTPStats,
    finalToken: int,
    finalOutputLen: int,
    steps: seq<CommitPlan>,
    summaries: seq<StepSummary>,
    graphOutputTokens: int,
    greedyTailTokens: int)

  // ---------------------------------------------------------------------------------------------
  // The check

  /** Verifier positions start at the stream cursor and are contiguous. */
  predicate Contiguous(positions: seq<int>, cursor: int) {
    forall j :: 0 <= j < |positions| ==> ContiguousAt(positions, cursor, j)
  }

  predicate ContiguousAt(positions: seq<int>, cursor: int, j: nat)
    requires j < |positions|
  {
    positions[j] >= 0 && positions[j] == if j == 0 then cursor else positions[j - 1] + 1
  }

  /** Everything checked about one step, given the output token before it and its cursor. */
  predicate SummaryOk(s: StepSummary, c: CommitPlan, input: int, cursor: int, vocab: int) {
    && c.keepTokens > 0 && |c.outputTokens| == c.keepTokens == |c.positions|
    && InVocab([s.inputToken], vocab) && s.inputToken == input
    && InVocab(s.drafted, vocab) && InVocab(s.verifierTokens, vocab) && InVocab(s.verifierOutputs, vocab)
    && InVocab(s.outputTokens, vocab)
    && s.positions == c.positions && s.outputTokens == c.outputTokens
    && s.verifierTokens == [s.inputToken] + s.drafted
    && 0 <= s.acceptedPrefixLen <= |s.drafted|
    && |s.outputTokens| == s.acceptedPrefixLen + 1 && s.bonusToken >= 0
    && s.outputTokens[s.acceptedPrefixLen] == s.bonusToken
    && s.outputTokens[..s.acceptedPrefixLen] == s.drafted[..s.acceptedPrefixLen]
    && s.allDraftsAccepted == (s.acceptedPrefixLen == |s.drafted|)
    && |s.verifierPositions| == |s.drafted| + 1 && Contiguous(s.verifierPositions, cursor)
    && |s.positions| <= |s.verifierPositions| && s.positions == s.verifierPositions[..|s.positions|]
    && |s.verifierOutputs| == |s.drafted| + 1
    && LongestMatch(s.drafted, s.verifierOutputs, s.acceptedPrefixLen)
    && s.bonusToken == s.verifierOutputs[s.acceptedPrefixLen]
  }

  /** Tokens committed by the first `n` steps. */
  function Committed(steps: seq<CommitPlan>, n: nat): seq<int>
    requires n <= |steps|
  {
    if n == 0 then [] else Committed(steps, n - 1) + steps[n - 1].outputTokens
  }

  function DraftedBy(summaries: seq<StepSummary>, n: nat): int
    requires n <= |summaries|
  {
    if n == 0 then 0 else DraftedBy(summaries, n - 1) + |summaries[n - 1].drafted|
  }

  function AcceptedBy(summaries: seq<StepSummary>, n: nat): int
    requires n <= |summaries|
  {
    if n == 0 then 0 else AcceptedBy(summaries, n - 1) + summaries[n - 1].acceptedPrefixLen
  }

  predicate StatsForward(total: MTPStats, initial: MTPStats) {
    && total.NonNegativeCounters() && initial.NonNegativeCounters()
    && total.steps >= initial.steps && total.drafted >= initial.drafted && total.verified >= initial.verified
    && total.bonus >= initial.bonus && total.output >= initial.output
  }

  predicate StepAt(r: GenerationResult, promptLen: nat, i: nat)
    requires i < |r.steps| == |r.summaries|
  {
    var cursor := promptLen + |Committed(r.steps, i)|;
    0 < cursor <= |r.output| && SummaryOk(r.summaries[i], r.steps[i], r.output[cursor - 1], cursor, r.vocab)
  }

  predicate HeaderOk(r: GenerationResult, promptLen: int) {
    && 0 <= promptLen <= |r.output| && r.graphOutputTokens >= 0 && r.greedyTailTokens >= 0 && r.requested >= 0
    && r.vocab >= 0
    && (r.output != [] ==> r.vocab != 0) && InVocab(r.output, r.vocab) && |r.summaries| == |r.steps|
    && StatsForward(r.stats, r.initialStats)
  }

  /** Counters, output stream and final state agree with the steps. */
  predicate TotalsOk(r: GenerationResult, promptLen: nat)
    requires promptLen <= |r.output| && |r.summaries| == |r.steps|
  {
    var n := |r.steps|;
    var tokens := Committed(r.steps, n);
    && r.stats.steps - r.initialStats.steps == n && r.stats.bonus - r.initialStats.bonus == n
    && r.stats.drafted - r.initialStats.drafted == DraftedBy(r.summaries, n)
    && r.stats.verified - r.initialStats.verified == AcceptedBy(r.summaries, n)
    && |tokens| == r.graphOutputTokens
    && promptLen + |tokens| <= |r.output| && r.output[promptLen..promptLen + |tokens|] == tokens
    && |r.output| - promptLen == r.requested == r.graphOutputTokens + r.greedyTailTokens
    && r.stats.output - r.initialStats.output == r.graphOutputTokens
    && (r.output != [] ==> r.finalOutputLen != 0)
    && (r.finalOutputLen != 0 ==>
          0 <= r.finalOutputLen <= |r.output| && r.finalOutputLen == promptLen + r.graphOutputTokens)
    && (r.finalOutputLen > 0 ==> r.finalToken == r.output[r.finalOutputLen - 1])
  }

  predicate ResultOk(r: GenerationResult, promptLen: int) {
    HeaderOk(r, promptLen) && (forall i :: 0 <= i < |r.steps| ==> StepAt(r, promptLen, i)) && TotalsOk(r, promptLen)
  }

  method CheckVocab(tokens: seq<int>, vocab: int) returns (ok: bool)
    ensures ok <==> InVocab(tokens, vocab)
  {
    for i := 0 to |tokens|
      invariant InVocab(tokens[..i], vocab)
    {
      if tokens[i] < 0 || (vocab > 0 && tokens[i] >= vocab) {
        return false;
      }
    }
    assert tokens[..|tokens|] == tokens;
    return true;
  }

  /** The checks made before the steps are looked at. */
  method CheckHeader(r: GenerationResult, promptLen: int) returns (ok: bool)
    ensures ok <==> HeaderOk(r, promptLen)
  {
    if promptLen < 0 || promptLen > |r.output| || r.graphOutputTokens < 0 || r.greedyTailTokens < 0 || r.requested < 0 {
      return false;
    }
    if r.vocab < 0 || (r.output != [] && r.vocab == 0) {
      return false;
    }
    var known := CheckVocab(r.output, r.vocab);
    if !known || |r.summaries| != |r.steps| {
      return false;
    }
    var total, initial := r.stats, r.initialStats;
    if total.steps < 0 || total.drafted < 0 || total.verified < 0 || total.bonus < 0 || total.output < 0 {
      return false;
    }
    if initial.steps < 0 || initial.drafted < 0 || initial.verified < 0 || initial.bonus < 0 || initial.output < 0 {
      return false;
    }
    return total.steps >= initial.steps && total.drafted >= initial.drafted && total.verified >= initial.verified
           && total.bonus >= initial.bonus && total.output >= initial.output;
  }

  /** One scan with a moving cursor and accumulators. */
  method Validate(r: GenerationResult, promptLen: int) returns (ok: bool)
    ensures ok <==> ResultOk(r, promptLen)
  {
    var header := CheckHeader(r, promptLen);
    if !header {
      return false;
    }
    hide SummaryOk, HeaderOk, InVocab, StatsForward;
    var tokens, cursor, drafted, accepted := [], promptLen, 0, 0;
    for i := 0 to |r.steps|
      invariant tokens == Committed(r.steps, i) && cursor == promptLen + |tokens|
      invariant drafted == DraftedBy(r.summaries, i) && accepted == AcceptedBy(r.summaries, i)
      invariant forall j :: 0 <= j < i ==> StepAt(r, promptLen, j)
    {
      if cursor <= 0 || cursor > |r.output|
         || !SummaryOk(r.summaries[i], r.steps[i], r.output[cursor - 1], cursor, r.vocab) {
        assert !StepAt(r, promptLen, i);
        return false;
      }
      SummaryLengths(r.summaries[i], r.steps[i], r.output[cursor - 1], cursor, r.vocab);
      tokens := tokens + r.steps[i].outputTokens;
      cursor := cursor + |r.summaries[i].outputTokens|;
      drafted := drafted + |r.summaries[i].drafted|;
      accepted := accepted + r.summaries[i].acceptedPrefixLen;
    }
    if r.stats.steps - r.initialStats.steps != |r.summaries| || r.stats.drafted - r.initialStats.drafted != drafted ||
       r.stats.verified - r.initialStats.verified != accepted
       || r.stats.bonus - r.initialStats.bonus != |r.summaries| ||
       |tokens| != r.graphOutputTokens {
      return false;
    }
    if |tokens| > 0 && (promptLen + |tokens| > |r.output| || r.output[promptLen..promptLen + |tokens|] != tokens) {
      return false;
    }
    if |r.output| - promptLen != r.requested || r.requested != r.graphOutputTokens + r.greedyTailTokens ||
       r.stats.output - r.initialStats.output != r.graphOutputTokens {
      return false;
    }
    if |r.output| > 0 && r.finalOutputLen == 0 {
      return false;
    }
    if r.finalOutputLen != 0 {
      if r.finalOutputLen != promptLen + r.graphOutputTokens || r.finalOutputLen < 0 || r.finalOutputLen > |r.output| {
        return false;
      }
      if r.finalOutputLen > 0 && r.finalToken != r.output[r.finalOutputLen - 1] {
        return false;
      }
    }
    return true;
  }

  lemma SummaryLengths(s: StepSummary, c: CommitPlan, input: int, cursor: int, vocab: int)
    requires SummaryOk(s, c, input, cursor, vocab)
    ensures s.outputTokens == c.outputTokens
  {
  }

  function PositionsFrom(cursor: int, n: nat): seq<int> {
    seq(n, i => cursor + i)
  }

  /** The summary and commit of a cycle with this input, draft and verifier output. */
  ghost predicate IsSummary(s: StepSummary, c: CommitPlan, input: int, drafted: seq<int>, outputs: seq<int>,
                            cursor: int, vocab: int) {
    && |outputs| == |drafted| + 1 && cursor >= 0
    && (forall t :: t in [input] + drafted + outputs ==> 0 <= t && (vocab > 0 ==> t < vocab))
    && exists n: nat :: LongestMatch(drafted, outputs, n)
                        && c == CommitPlan(n + 1, PositionsFrom(cursor, n + 1), outputs[..n + 1])
                        && s == StepSummary(input, drafted, [input] + drafted, outputs,
                                            PositionsFrom(cursor, |outputs|), PositionsFrom(cursor, n + 1), n,
                                            outputs[n], outputs[..n + 1], n == |drafted|)
  }

  /** A step passes the check exactly when it is that one summary and commit for some draft and some verifier
      output: everything else in it is determined. */
  lemma SummaryMeans(s: StepSummary, c: CommitPlan, input: int, cursor: int, vocab: int)
    ensures SummaryOk(s, c, input, cursor, vocab) <==>
            IsSummary(s, c, input, s.drafted, s.verifierOutputs, cursor, vocab)
  {
    if SummaryOk(s, c, input, cursor, vocab) {
      SummaryIs(s, c, input, cursor, vocab);
    }
    if IsSummary(s, c, input, s.drafted, s.verifierOutputs, cursor, vocab) {
      IsPasses(s, c, input, cursor, vocab);
    }
  }

  lemma SummaryIs(s: StepSummary, c: CommitPlan, input: int, cursor: int, vocab: int)
    requires SummaryOk(s, c, input, cursor, vocab)
    ensures IsSummary(s, c, input, s.drafted, s.verifierOutputs, cursor, vocab)
  {
    var n: nat := s.acceptedPrefixLen;
    forall j | 0 <= j < |s.verifierPositions|
      ensures s.verifierPositions[j] == cursor + j
    {
      ContiguousFrom(s.verifierPositions, cursor, j);
    }
    assert ContiguousAt(s.verifierPositions, cursor, 0);
    assert s.verifierPositions == PositionsFrom(cursor, |s.verifierOutputs|);
    assert s.positions == PositionsFrom(cursor, n + 1);
    assert s.outputTokens == s.outputTokens[..n] + [s.outputTokens[n]] == s.verifierOutputs[..n + 1];
    forall t | t in [input] + s.drafted + s.verifierOutputs
      ensures 0 <= t && (vocab > 0 ==> t < vocab)
    {
      assert [input][0] == input;
    }
  }

  lemma VocabWithin(tokens: seq<int>, all: seq<int>, vocab: int)
    requires forall t :: t in tokens ==> t in all
    requires forall t :: t in all ==> 0 <= t && (vocab > 0 ==> t < vocab)
    ensures InVocab(tokens, vocab)
  {
    assert forall i :: 0 <= i < |tokens| ==> tokens[i] in tokens;
  }

  lemma IsPasses(s: StepSummary, c: CommitPlan, input: int, cursor: int, vocab: int)
    requires IsSummary(s, c, input, s.drafted, s.verifierOutputs, cursor, vocab)
    ensures SummaryOk(s, c, input, cursor, vocab)
  {
    var all := [input] + s.drafted + s.verifierOutputs;
    assert forall t :: t in s.drafted || t in s.verifierOutputs || t == input ==> t in all;
    VocabWithin([s.inputToken], all, vocab);
    VocabWithin(s.drafted, all, vocab);
    VocabWithin(s.verifierTokens, all, vocab);
    VocabWithin(s.verifierOutputs, all, vocab);
    VocabWithin(s.outputTokens, all, vocab);
    forall j | 0 <= j < |s.verifierPositions|
      ensures ContiguousAt(s.verifierPositions, cursor, j)
    {
    }
    var n: nat := s.acceptedPrefixLen;
    assert s.outputTokens[..n] == s.verifierOutputs[..n];
    assert s.bonusToken in s.verifierOutputs;
  }

  lemma {:induction false} ContiguousFrom(positions: seq<int>, cursor: int, j: nat)
    requires Contiguous(positions, cursor) && j < |positions|
    ensures positions[j] == cursor + j
  {
    assert ContiguousAt(positions, cursor, j);
    if j > 0 {
      ContiguousFrom(positions, cursor, j - 1);
    }
  }

  /** What a validated result means for the stream: every committed token sits at its own position, and
      it is the verifier's greedy token for that row. */
  lemma ValidatedStream(r: GenerationResult, promptLen: nat, i: nat, j: nat)
    requires ResultOk(r, promptLen) && i < |r.steps| && j < |r.steps[i].outputTokens|
    ensures StepAt(r, promptLen, i)
    ensures var pos := promptLen + |Committed(r.steps, i)| + j;
            && pos < |r.output| && r.steps[i].positions[j] == pos
            && r.output[pos] == r.steps[i].outputTokens[j] == r.summaries[i].verifierOutputs[j]
  {
    assert StepAt(r, promptLen, i);
    var s, c := r.summaries[i], r.steps[i];
    var cursor := promptLen + |Committed(r.steps, i)|;
    ContiguousFrom(s.verifierPositions, cursor, j);
    CommittedAt(r.steps, i, |r.steps|, j);
    var tokens := Committed(r.steps, |r.steps|);
    assert r.output[promptLen..promptLen + |tokens|][|Committed(r.steps, i)| + j] ==
           tokens[|Committed(r.steps, i)| + j];
    if j < s.acceptedPrefixLen {
      assert s.outputTokens[..s.acceptedPrefixLen][j] == s.drafted[..s.acceptedPrefixLen][j] ==
             s.verifierOutputs[..s.acceptedPrefixLen][j];
    }
  }

  lemma {:induction false} CommittedAt(steps: seq<CommitPlan>, i: nat, n: nat, j: nat)
    requires i < n <= |steps| && j < |steps[i].outputTokens|
    ensures |Committed(steps, i)| + j < |Committed(steps, n)|
    ensures Committed(steps, n)[|Committed(steps, i)| + j] == steps[i].outputTokens[j]
  {
    if i < n - 1 {
      CommittedAt(steps, i, n - 1, j);
    }
  }

  // ---------------------------------------------------------------------------------------------
  // Generation

  datatype PromptContext = PromptContext(tokens: seq<int>, previousToken: int, activation: Vec, kv: seq<seq<KV>>,
                                         seqLen: int)

  /** A prompt context fit to start from: consistent lengths and one cached row per prompt token. */
  ghost predicate ContextOk(m: Model, ctx: PromptContext) {
    && ctx.tokens != [] && ctx.seqLen == |ctx.tokens| && ctx.previousToken == ctx.tokens[|ctx.tokens| - 1]
    && RowsMatch(m, ctx.kv, ctx.seqLen)
  }

  method StateFromContext(m: Model, ctx: PromptContext, maxTokens: int, batched: bool)
    returns (ok: bool, s: CPUDecodeState)
    requires |ctx.kv| == |m.layers|
    ensures fresh(s) && fresh(s.cache) && s.m == m && s.cache.Length == |m.layers|
    ensures ok <==> ContextOk(m, ctx) && 0 <= maxTokens <= MAX_INT - |ctx.tokens|
    ensures ok ==> s.output == ctx.tokens && s.cache[..] == ctx.kv
  {
    s := new CPUDecodeState(m, batched, ctx.tokens);
    if maxTokens < 0 || ctx.tokens == [] || ctx.seqLen != |ctx.tokens|
       || ctx.previousToken != ctx.tokens[|ctx.tokens| - 1] || maxTokens > MAX_INT - |ctx.tokens| {
      return false, s;
    }
    for l := 0 to |m.layers|
      invariant s.output == ctx.tokens && s.cache.Length == |m.layers|
      invariant forall i :: 0 <= i < l ==>
                              s.cache[i] == ctx.kv[i] && |ctx.kv[i]| == if m.layers[i].hasKV then ctx.seqLen else 0
      invariant forall i :: l <= i < |m.layers| ==> s.cache[i] == []
    {
      if |ctx.kv[l]| != if m.layers[l].hasKV then ctx.seqLen else 0 {
        return false, s;
      }
      s.cache[l] := ctx.kv[l];
    }
    return true, s;
  }

  /** The drafter's view of the decode K/V: shared layers show their source layer's rows. */
  function DecodeView(m: Model, kv: seq<seq<KV>>): seq<seq<KV>> {
    seq(|kv|, l requires 0 <= l < |kv| =>
      if l < |m.layers| && !m.layers[l].hasKV && 0 <= m.layers[l].kvSource < |kv| then kv[m.layers[l].kvSource]
      else kv[l])
  }

  function ViewNow(m: Model, base: Option<seq<int>>, output: seq<int>, kv: seq<seq<KV>>): Option<ExternalKV> {
    if base.None? then None else Some(ExternalKV(DecodeView(m, kv), base.value, |output|))
  }

  /** Before every cycle the drafter sees each layer with a usable source at full length, and what it sees are
      the rows the layer's own attention reads: its own, or those of the layer its configuration names. */
  lemma ViewRows(m: Model, kv: seq<seq<KV>>, n: int, l: nat)
    requires RowsMatch(m, kv, n) && l < |m.layers| && SourceOk(m, l)
    ensures DecodeView(m, kv)[l] == kv[if m.layers[l].hasKV then l else m.layers[l].kvSource]
    ensures |DecodeView(m, kv)[l]| == n
  {
  }

  /** What a drafter is given: nothing without a base view, otherwise the layers it asked for and a view of every
      cache, one row per output token. */
  lemma ViewGiven(m: Model, base: Option<seq<int>>, output: seq<int>, kv: seq<seq<KV>>, l: nat)
    requires RowsMatch(m, kv, |output|) && l < |m.layers| && SourceOk(m, l)
    ensures match base
            case None => ViewNow(m, base, output, kv) == None
            case Some(sources) =>
              var e := ViewNow(m, base, output, kv);
              && e.Some? && e.value.sourceLayers == sources && |e.value.view| == |m.layers|
              && e.value.seqLen == |output| == |e.value.view[l]|
              && e.value.view[l] == kv[if m.layers[l].hasKV then l else m.layers[l].kvSource]
  {
  }

  function Summary(st: GraphStep): StepSummary {
    StepSummary(st.graph.inputToken, st.graph.drafted, st.graph.verifier.verifierTokens, st.verifier.outputs,
                st.graph.verifier.positions,
                st.commit.positions, st.verifier.acceptance.acceptedPrefixLen, st.verifier.acceptance.bonusToken,
                st.commit.outputTokens,
                st.verifier.acceptance.allDraftsAccepted)
  }

  lemma OutputsInVocab(m: Model, run: Run)
    requires WellFormed(m) && ValidRun(m, run)
    ensures InVocab(Outputs(m, run), m.vocab)
  {
    hide HiddenAt;
    var out := Outputs(m, run);
    forall r | 0 <= r < |out|
      ensures 0 <= out[r] < m.vocab
    {
      var h := HiddenAt(m, run, |m.layers|, r);
      assert out[r] == OutputAt(m, run, r);
      assert |m.logits(h)| == m.vocab;
    }
  }

  /** A verdict on the graph's draft and the commit plan made from it pass the check. */
  lemma VerdictPasses(st: GraphStep, prev: int, cursor: int, vocab: int)
    requires var g, v, c := st.graph, st.verifier, st.commit;
             && g.Valid() && g.inputToken == prev < vocab && g.startPos == cursor && InVocab(g.drafted, vocab)
             && InVocab(v.outputs, vocab)
             && Accepts(g.drafted, v.outputs, v.acceptance)
             && c.outputTokens == v.acceptance.outputTokens && c.keepTokens == |c.outputTokens| == |c.positions|
             && c.positions == g.verifier.positions[..c.keepTokens]
    ensures SummaryOk(Summary(st), st.commit, prev, cursor, vocab)
    ensures InVocab(st.commit.outputTokens, vocab)
  {
    var g, a, s := st.graph, st.verifier.acceptance, Summary(st);
    assert s.outputTokens[..a.acceptedPrefixLen] == s.drafted[..a.acceptedPrefixLen];
    assert a.bonusToken == a.outputTokens[a.acceptedPrefixLen];
  }

  /** A successful cycle yields a summary that passes the check at its cursor. */
  lemma SummaryPasses(m: Model, prev: int, remaining: int, stats: MTPStats, before: seq<int>, kv: seq<seq<KV>>,
                      after: seq<int>, kv': seq<seq<KV>>, st: GraphStep)
    requires WellFormed(m) && Stepped(m, prev, remaining, stats, before, kv, after, kv', st)
    ensures SummaryOk(Summary(st), st.commit, prev, |before|, m.vocab)
    ensures InVocab(st.commit.outputTokens, m.vocab)
  {
    hide Outputs, Caches, HiddenAt, RowsMatch, ValidRun, InVocab, SummaryOk, Accepts, WellFormed, ExecutionGraph.Valid;
    OutputsInVocab(m, VerifierRun(m, prev, st.graph.drafted, |before|, kv));
    VerdictPasses(st, prev, |before|, m.vocab);
  }

  /** Loop state: the output stream, the steps so far and the counters agree; caches are full. */
  ghost predicate Running(m: Model, prompt: seq<int>, maxTokens: nat, initial: MTPStats, output: seq<int>,
                          kv: seq<seq<KV>>, stats: MTPStats, state: int, steps: seq<CommitPlan>,
                          summaries: seq<StepSummary>) {
    && |summaries| == |steps| && Streaming(m, prompt, maxTokens, output, kv, state, steps)
    && Counting(initial, stats, steps, summaries)
    && forall i :: 0 <= i < |steps| ==> StreamStep(m, prompt, output, steps, summaries, i)
  }

  ghost predicate Streaming(m: Model, prompt: seq<int>, maxTokens: nat, output: seq<int>, kv: seq<seq<KV>>, state: int,
                            steps: seq<CommitPlan>) {
    && prompt != [] && output == prompt + Committed(steps, |steps|) && |output| <= |prompt| + maxTokens
    && RowsMatch(m, kv, |output|) && state == output[|output| - 1] && InVocab(output[|prompt|..], m.vocab)
  }

  ghost predicate Counting(initial: MTPStats, stats: MTPStats, steps: seq<CommitPlan>, summaries: seq<StepSummary>)
    requires |summaries| == |steps|
  {
    && (steps != [] ==> initial.NonNegativeCounters() && stats.NonNegativeCounters())
    && (steps == [] ==> stats == initial)
    && StatsAre(stats, initial, |steps|, DraftedBy(summaries, |steps|), AcceptedBy(summaries, |steps|),
                |Committed(steps, |steps|)|)
  }

  ghost predicate StatsAre(stats: MTPStats, initial: MTPStats, n: int, drafted: int, accepted: int, output: int) {
    && accepted >= 0 && stats.steps == initial.steps + n && stats.bonus == initial.bonus + n
    && stats.drafted == initial.drafted + drafted
    && stats.verified == initial.verified + accepted && stats.output == initial.output + output
  }

  ghost predicate StreamStep(m: Model, prompt: seq<int>, output: seq<int>, steps: seq<CommitPlan>,
                             summaries: seq<StepSummary>, i: nat)
    requires i < |steps| == |summaries|
  {
    var cursor := |prompt| + |Committed(steps, i)|;
    0 < cursor <= |output| && SummaryOk(summaries[i], steps[i], output[cursor - 1], cursor, m.vocab)
  }

  lemma {:induction false} CommittedPrefix(steps: seq<CommitPlan>, more: seq<CommitPlan>, n: nat)
    requires n <= |steps|
    ensures Committed(steps + more, n) == Committed(steps, n)
  {
    if n > 0 {
      CommittedPrefix(steps, more, n - 1);
    }
  }

  lemma {:induction false} CountsPrefix(summaries: seq<StepSummary>, more: seq<StepSummary>, n: nat)
    requires n <= |summaries|
    ensures DraftedBy(summaries + more, n) == DraftedBy(summaries, n)
            && AcceptedBy(summaries + more, n) == AcceptedBy(summaries, n)
  {
    if n > 0 {
      CountsPrefix(summaries, more, n - 1);
    }
  }

  /** One cycle keeps the loop state. */
  lemma RunningStep(m: Model, prompt: seq<int>, maxTokens: nat, initial: MTPStats, output: seq<int>, kv: seq<seq<KV>>,
                    stats: MTPStats, state: int, steps: seq<CommitPlan>, summaries: seq<StepSummary>, output': seq<int>,
                    kv': seq<seq<KV>>, st: GraphStep)
    requires WellFormed(m) && Running(m, prompt, maxTokens, initial, output, kv, stats, state, steps, summaries)
             && |output| < |prompt| + maxTokens
    requires Stepped(m, state, |prompt| + maxTokens - |output|, stats, output, kv, output', kv', st)
    ensures Running(m, prompt, maxTokens, initial, output', kv', st.stats, st.nextToken, steps + [st.commit],
                    summaries + [Summary(st)])
    ensures |output| < |output'|
  {
    hide WellFormed, Stepped, RowsMatch, SummaryOk, StreamStep, InVocab, MTPStats.Plus, MTPStats.NonNegativeCounters;
    var remaining := |prompt| + maxTokens - |output|;
    SteppedRows(m, state, remaining, stats, output, kv, output', kv', st);
    SummaryPasses(m, state, remaining, stats, output, kv, output', kv', st);
    SteppedTotals(m, state, remaining, stats, output, kv, output', kv', st);
    StreamGrows(m, prompt, output, steps, summaries, output', st);
    StreamingStep(m, prompt, maxTokens, output, kv, state, steps, output', kv', st);
    CountingStep(initial, stats, steps, summaries, st);
    hide Streaming, Counting;
  }

  lemma AppendedAfter(a: seq<int>, b: seq<int>, c: seq<int>)
    ensures (a + b) + c == a + (b + c) && ((a + b) + c)[|a|..] == (a + b)[|a|..] + c
  {
  }

  lemma StreamingStep(m: Model, prompt: seq<int>, maxTokens: nat, output: seq<int>, kv: seq<seq<KV>>, state: int,
                      steps: seq<CommitPlan>, output': seq<int>, kv': seq<seq<KV>>, st: GraphStep)
    requires Streaming(m, prompt, maxTokens, output, kv, state, steps)
    requires output' == output + st.commit.outputTokens && |output'| <= |prompt| + maxTokens
             && st.nextToken == output'[|output'| - 1]
    requires RowsMatch(m, kv', |output'|) && InVocab(st.commit.outputTokens, m.vocab)
    ensures Streaming(m, prompt, maxTokens, output', kv', st.nextToken, steps + [st.commit])
  {
    hide RowsMatch, InVocab;
    CommittedPrefix(steps, [st.commit], |steps|);
    AppendedAfter(prompt, Committed(steps, |steps|), st.commit.outputTokens);
    VocabParts(output[|prompt|..], st.commit.outputTokens, m.vocab);
  }

  lemma CountingStep(initial: MTPStats, stats: MTPStats, steps: seq<CommitPlan>, summaries: seq<StepSummary>,
                     st: GraphStep)
    requires |summaries| == |steps| && Counting(initial, stats, steps, summaries)
    requires stats.NonNegativeCounters() && st.stats.NonNegativeCounters()
    requires st.stats == stats.Plus(|Summary(st).drafted|, Summary(st).acceptedPrefixLen)
    requires |st.commit.outputTokens| == Summary(st).acceptedPrefixLen + 1 > 0
    ensures Counting(initial, st.stats, steps + [st.commit], summaries + [Summary(st)])
  {
    CommittedPrefix(steps, [st.commit], |steps|);
    CountsPrefix(summaries, [Summary(st)], |steps|);
  }

  /** The parts of a cycle the loop state needs. */
  lemma SteppedTotals(m: Model, prev: int, remaining: int, stats: MTPStats, before: seq<int>, kv: seq<seq<KV>>,
                      after: seq<int>, kv': seq<seq<KV>>, st: GraphStep)
    requires Stepped(m, prev, remaining, stats, before, kv, after, kv', st)
    ensures after == before + st.commit.outputTokens && 0 <= prev < m.vocab && st.nextToken == after[|after| - 1]
    ensures st.stats == stats.Plus(|Summary(st).drafted|, Summary(st).acceptedPrefixLen) && stats.NonNegativeCounters()
            && st.stats.NonNegativeCounters()
    ensures |st.commit.outputTokens| == Summary(st).acceptedPrefixLen + 1 > 0
  {
  }

  lemma StreamGrows(m: Model, prompt: seq<int>, output: seq<int>, steps: seq<CommitPlan>, summaries: seq<StepSummary>,
                    output': seq<int>, st: GraphStep)
    requires |summaries| == |steps| && output == prompt + Committed(steps, |steps|) && output != [] && output <= output'
    requires forall i :: 0 <= i < |steps| ==> StreamStep(m, prompt, output, steps, summaries, i)
    requires SummaryOk(Summary(st), st.commit, output[|output| - 1], |output|, m.vocab)
    ensures forall i :: 0 <= i <= |steps| ==>
                          StreamStep(m, prompt, output', steps + [st.commit], summaries + [Summary(st)], i)
  {
    hide SummaryOk;
    forall i | 0 <= i <= |steps|
      ensures StreamStep(m, prompt, output', steps + [st.commit], summaries + [Summary(st)], i)
    {
      CommittedPrefix(steps, [st.commit], i);
      if i < |steps| {
        assert StreamStep(m, prompt, output, steps, summaries, i);
      }
    }
  }

  /** A finished loop, with at most one plain greedy token after the last cycle, passes its check. */
  lemma RunningPasses(m: Model, prompt: seq<int>, maxTokens: nat, initial: MTPStats, output: seq<int>, kv: seq<seq<KV>>,
                      stats: MTPStats, state: int, steps: seq<CommitPlan>, summaries: seq<StepSummary>, tail: seq<int>)
    requires Running(m, prompt, maxTokens, initial, output, kv, stats, state, steps, summaries)
    requires |output| + |tail| == |prompt| + maxTokens && InVocab(tail, m.vocab) && m.vocab > 0
    requires initial.NonNegativeCounters()
    ensures var r :=
              ResultOf(m, prompt, maxTokens, initial, output + tail, stats, state, |output|, steps, summaries, |tail|);
            ResultOk(r, |prompt|) <==> InVocab(prompt, m.vocab)
  {
    hide SummaryOk, RowsMatch, InVocab;
    var r := ResultOf(m, prompt, maxTokens, initial, output + tail, stats, state, |output|, steps, summaries, |tail|);
    var n := |steps|;
    assert r.output == prompt + (output[|prompt|..] + tail);
    VocabParts(prompt, output[|prompt|..] + tail, m.vocab);
    VocabParts(output[|prompt|..], tail, m.vocab);
    assert r.output[|prompt|..|prompt| + |Committed(steps, n)|] == Committed(steps, n);
    forall i | 0 <= i < n
      ensures StepAt(r, |prompt|, i)
    {
      assert StreamStep(m, prompt, output, steps, summaries, i);
    }
    CountsGrow(summaries, n);
  }

  lemma VocabParts(a: seq<int>, b: seq<int>, vocab: int)
    ensures InVocab(a + b, vocab) <==> InVocab(a, vocab) && InVocab(b, vocab)
  {
    if InVocab(a + b, vocab) {
      forall i | 0 <= i < |b|
        ensures 0 <= b[i] && (vocab > 0 ==> b[i] < vocab)
      {
        assert (a + b)[|a| + i] == b[i];
      }
      forall i | 0 <= i < |a|
        ensures 0 <= a[i] && (vocab > 0 ==> a[i] < vocab)
      {
        assert (a + b)[i] == a[i];
      }
    }
  }

  lemma {:induction false} CountsGrow(summaries: seq<StepSummary>, n: nat)
    requires n <= |summaries|
    ensures DraftedBy(summaries, n) >= 0
  {
    if n > 0 {
      CountsGrow(summaries, n - 1);
    }
  }

  function ResultOf(m: Model, prompt: seq<int>, maxTokens: nat, initial: MTPStats, output: seq<int>, stats: MTPStats,
                    state: int, finalLen: nat, steps: seq<CommitPlan>, summaries: seq<StepSummary>,
                    tail: nat): GenerationResult {
    GenerationResult(output, m.vocab, maxTokens, initial, stats, state, finalLen, steps, summaries,
                     |Committed(steps, |steps|)|, tail)
  }

  // ---------------------------------------------------------------------------------------------
  // The loop as a function

  /** What one cycle hands to the next. */
  datatype CycleState = CycleState(output: seq<int>, kv: seq<seq<KV>>, prev: int, activation: Vec, stats: MTPStats)

  /** The arguments of a generation that do not change. */
  datatype Setup = Setup(m: Model, d: Drafter, base: Option<seq<int>>, policy: AdaptivePolicy, goal: int)

  ghost function DraftedAt(u: Setup, c: CycleState): Option<seq<int>> {
    u.d.draft(c.prev, c.activation, ViewNow(u.m, u.base, c.output, c.kv),
              u.policy.NextDraftCount(u.goal - |c.output|, c.stats))
  }

  ghost predicate CanCycle(u: Setup, c: CycleState) {
    CycleOk(u.m, u.d, c.prev, c.activation, ViewNow(u.m, u.base, c.output, c.kv), u.goal - |c.output|, 0, u.policy,
            c.stats, c.output, c.kv)
  }

  /** A cycle with the given draft: the longest draft prefix the verifier reproduces and its next token
      are emitted, their rows kept, and the bonus row's token and activation handed on. */
  ghost function After(m: Model, c: CycleState, drafted: seq<int>): CycleState {
    var run := VerifierRun(m, c.prev, drafted, |c.output|, c.kv);
    if !ValidRun(m, run) then c
    else
      var outs := Outputs(m, run);
      var n := MatchLength(drafted, outs);
      CycleState(c.output + outs[..n + 1], Caches(m, run, n + 1), outs[n], HiddenAt(m, run, |m.layers|, n),
                 c.stats.Plus(|drafted|, n))
  }

  /** The state after `n` cycles. */
  ghost function Reached(u: Setup, c0: CycleState, n: nat): CycleState {
    if n == 0 then c0
    else
      var c := Reached(u, c0, n - 1);
      if DraftedAt(u, c).None? then c else After(u.m, c, DraftedAt(u, c).value)
  }

  /** The first `n` cycles are taken. */
  ghost predicate Cycles(u: Setup, c0: CycleState, n: nat) {
    forall i :: 0 <= i < n ==> Cycling(u, Reached(u, c0, i))
  }

  ghost predicate Cycling(u: Setup, c: CycleState) {
    u.goal - |c.output| > 1 && CanCycle(u, c)
  }

  /** Generation gets through: `n` cycles, and a plain greedy token if one is still missing. */
  ghost predicate Completes(u: Setup, c0: CycleState, n: nat) {
    var left := u.goal - |Reached(u, c0, n).output|;
    Cycles(u, c0, n) && left <= 1 && (left == 1 ==> TokensOk(u.m, Reached(u, c0, n).output))
  }

  /** Generation is stuck after `n` cycles. */
  ghost predicate Stuck(u: Setup, c0: CycleState, n: nat) {
    var c := Reached(u, c0, n);
    var left := u.goal - |c.output|;
    Cycles(u, c0, n) && if left > 1 then !CanCycle(u, c) else left == 1 && !TokensOk(u.m, c.output)
  }

  lemma StuckNeverCompletes(u: Setup, c0: CycleState, k: nat, n: nat)
    requires Stuck(u, c0, k)
    ensures !Completes(u, c0, n)
  {
    hide CanCycle, Reached, TokensOk;
    assert n < k ==> Cycling(u, Reached(u, c0, n));
    assert k < n && Cycles(u, c0, n) ==> Cycling(u, Reached(u, c0, k));
  }

  /** The recorded steps are those of the cycles taken: their tokens make up the output, and each verdict
      is on the verifier's own tokens. */
  ghost predicate Recorded(u: Setup, c0: CycleState, steps: seq<CommitPlan>, summaries: seq<StepSummary>, i: nat)
    requires i < |steps| == |summaries|
  {
    var c := Reached(u, c0, i);
    var run := VerifierRun(u.m, c.prev, summaries[i].drafted, |c.output|, c.kv);
    && DraftedAt(u, c) == Some(summaries[i].drafted) && summaries[i].inputToken == c.prev
    && ValidRun(u.m, run) && summaries[i].verifierOutputs == Outputs(u.m, run)
    && Reached(u, c0, i + 1).output == c.output + steps[i].outputTokens
  }

  /** A cycle that happened is the cycle as a function. */
  lemma SteppedIsAfter(m: Model, remaining: int, c: CycleState, after: seq<int>, kv': seq<seq<KV>>, st: GraphStep)
    requires Stepped(m, c.prev, remaining, c.stats, c.output, c.kv, after, kv', st)
    ensures After(m, c, st.graph.drafted) == CycleState(after, kv', st.nextToken, st.nextActivation, st.stats)
    ensures var run := VerifierRun(m, c.prev, Summary(st).drafted, |c.output|, c.kv);
            ValidRun(m, run) && Summary(st).verifierOutputs == Outputs(m, run) && Summary(st).inputToken == c.prev
  {
    hide HiddenAt, Caches, Outputs, RowsMatch, MTPStats.Plus;
    LongestMatchUnique(st.graph.drafted, st.verifier.outputs, st.verifier.acceptance.acceptedPrefixLen,
                       MatchLength(st.graph.drafted, st.verifier.outputs));
  }

  lemma ReachedNext(u: Setup, c0: CycleState, steps: seq<CommitPlan>, summaries: seq<StepSummary>, c: CycleState,
                    next: CycleState, st: GraphStep)
    requires |summaries| == |steps| && c == Reached(u, c0, |steps|) && Cycles(u, c0, |steps|) && Cycling(u, c)
    requires forall i :: 0 <= i < |steps| ==> Recorded(u, c0, steps, summaries, i)
    requires DraftedAt(u, c) == Some(st.graph.drafted) && next.output == c.output + st.commit.outputTokens
    requires Stepped(u.m, c.prev, u.goal - |c.output|, c.stats, c.output, c.kv, next.output, next.kv, st)
    requires next == CycleState(next.output, next.kv, st.nextToken, st.nextActivation, st.stats)
    ensures next == Reached(u, c0, |steps| + 1) && Cycles(u, c0, |steps| + 1)
    ensures forall i :: 0 <= i <= |steps| ==> Recorded(u, c0, steps + [st.commit], summaries + [Summary(st)], i)
  {
    hide Stepped, After, DraftedAt, CanCycle, Outputs, ValidRun, Cycling;
    SteppedIsAfter(u.m, u.goal - |c.output|, c, next.output, next.kv, st);
    assert next == Reached(u, c0, |steps| + 1);
    hide Reached;
    forall i | 0 <= i <= |steps|
      ensures Recorded(u, c0, steps + [st.commit], summaries + [Summary(st)], i)
    {
      if i < |steps| {
        assert Recorded(u, c0, steps, summaries, i);
      }
    }
  }

  /** Generation from a prefilled prompt. It succeeds exactly when the context is consistent, every cycle
      can be taken until at most one token is missing, that token can be decoded, and prompt tokens and
      initial counters are ones the result check accepts. The result then passes its own check, holds
      exactly `maxTokens` new tokens, and is what the cycles and one plain greedy token produce. */
  method GenerateMTPGraph(m: Model, batched: bool, d: Drafter, ctx: PromptContext, base: Option<seq<int>>,
                          maxTokens: int, policy: AdaptivePolicy, initial: MTPStats)
    returns (r: Result<GenerationResult>)
    requires SourcesOk(m) && WellFormed(m) && |ctx.kv| == |m.layers|
    ensures var u, c0 := Setup(m, d, base, policy, |ctx.tokens| + maxTokens),
                         CycleState(ctx.tokens, ctx.kv, ctx.previousToken, ctx.activation, initial);
            && (r.Ok? <==>
                && ContextOk(m, ctx) && 0 <= maxTokens <= MAX_INT - |ctx.tokens|
                && (exists n: nat :: Completes(u, c0, n))
                && InVocab(ctx.tokens, m.vocab) && initial.NonNegativeCounters())
            && (r.Ok? ==> |r.value.summaries| == |r.value.steps| && Delivered(u, c0, r.value))
    ensures r.Ok? ==>
              ResultOk(r.value, |ctx.tokens|) && ctx.tokens <= r.value.output
              && |r.value.output| == |ctx.tokens| + maxTokens
  {
    hide SourcesOk, WellFormed, RowsMatch, ContextOk, Running, Stepped, ResultOk, TokensOk, Next;
    var ok, decode := StateFromContext(m, ctx, maxTokens, batched);
    if !ok {
      return Err;
    }
    ghost var u, c0 := Setup(m, d, base, policy, |ctx.tokens| + maxTokens),
                       CycleState(ctx.tokens, ctx.kv, ctx.previousToken, ctx.activation, initial);
    var cycles, state, activation, stats, steps, summaries :=
      RunCycles(decode, d, ctx, base, maxTokens, policy, initial);
    ghost var n := |steps|;
    assert Progress(u, c0, maxTokens, CycleState(decode.output, decode.cache[..], state, activation, stats), steps,
                    summaries);
    hide Cycles, Reached, Recorded, CanCycle;
    if !cycles {
      forall k: nat ensures !Completes(u, c0, k) {
        StuckNeverCompletes(u, c0, n, k);
      }
      return Err;
    }
    var output, covered := decode.output, |decode.output|;
    RunningLength(m, ctx.tokens, maxTokens, initial, output, decode.cache[..], stats, state, steps, summaries);
    var tail := GreedyTail(decode, |ctx.tokens| + maxTokens);
    if tail.None? {
      forall k: nat ensures !Completes(u, c0, k) {
        StuckNeverCompletes(u, c0, n, k);
      }
      return Err;
    }
    assert Completes(u, c0, n);
    hide Completes;
    var result := ResultOf(m, ctx.tokens, maxTokens, initial, decode.output, stats, state, covered, steps, summaries,
                           |decode.output| - covered);
    if initial.NonNegativeCounters() {
      Positive(m);
      RunningPasses(m, ctx.tokens, maxTokens, initial, output, decode.cache[..], stats, state, steps, summaries,
                    tail.value);
    } else {
      InitialChecked(result, |ctx.tokens|);
    }
    var valid := Validate(result, |ctx.tokens|);
    if !valid {
      return Err;
    }
    return Ok(result);
  }

  /** The result belongs to the cycles taken. */
  ghost predicate Delivered(u: Setup, c0: CycleState, r: GenerationResult)
    requires |r.summaries| == |r.steps|
  {
    var c := Reached(u, c0, |r.steps|);
    && Completes(u, c0, |r.steps|) && r.stats == c.stats && r.finalToken == c.prev && r.finalOutputLen == |c.output|
    && (if |c.output| < u.goal then c.output != [] && r.output == c.output + [Next(u.m, c.output)]
        else r.output == c.output)
    && forall i :: 0 <= i < |r.steps| ==> Recorded(u, c0, r.steps, r.summaries, i)
  }

  /** One plain greedy token, if one is missing. */
  method GreedyTail(decode: CPUDecodeState, goal: int) returns (tail: Option<seq<int>>)
    requires SourcesOk(decode.m) && WellFormed(decode.m) && decode.output != []
             && |decode.output| <= goal <= |decode.output| + 1
    modifies decode`output
    ensures tail.Some? <==> |old(decode.output)| == goal || TokensOk(decode.m, old(decode.output))
    ensures tail.Some? ==> decode.output == old(decode.output) + tail.value && InVocab(tail.value, decode.m.vocab)
    ensures tail.Some? ==>
              tail.value == if |old(decode.output)| < goal then [Next(decode.m, old(decode.output))] else []
  {
    hide TokensOk, Next, SourcesOk;
    if |decode.output| < goal {
      NextInVocabulary(decode.m, decode.output);
      var tailed := decode.DecodeOneGreedy();
      return if tailed then Some([decode.output[|decode.output| - 1]]) else None;
    }
    return Some([]);
  }

  lemma Positive(m: Model)
    requires WellFormed(m)
    ensures m.vocab > 0
  {
  }

  lemma InitialChecked(r: GenerationResult, promptLen: nat)
    requires !r.initialStats.NonNegativeCounters()
    ensures !ResultOk(r, promptLen)
  {
  }

  lemma RunningLength(m: Model, prompt: seq<int>, maxTokens: nat, initial: MTPStats, output: seq<int>, kv: seq<seq<KV>>,
                      stats: MTPStats, state: int, steps: seq<CommitPlan>, summaries: seq<StepSummary>)
    requires Running(m, prompt, maxTokens, initial, output, kv, stats, state, steps, summaries)
    ensures prompt != [] && prompt <= output && |output| <= |prompt| + maxTokens && RowsMatch(m, kv, |output|)
  {
  }

  lemma RunningStart(m: Model, ctx: PromptContext, maxTokens: nat, initial: MTPStats)
    requires ContextOk(m, ctx)
    ensures Running(m, ctx.tokens, maxTokens, initial, ctx.tokens, ctx.kv, initial, ctx.previousToken, [], [])
  {
    assert ctx.tokens + [] == ctx.tokens;
  }

  /** The loop is where `|steps|` cycles lead, and has recorded them. */
  ghost predicate Progress(u: Setup, c0: CycleState, maxTokens: nat, c: CycleState, steps: seq<CommitPlan>,
                           summaries: seq<StepSummary>) {
    && |summaries| == |steps| && u.goal == |c0.output| + maxTokens
    && Running(u.m, c0.output, maxTokens, c0.stats, c.output, c.kv, c.stats, c.prev, steps, summaries)
    && c == Reached(u, c0, |steps|) && Cycles(u, c0, |steps|)
    && forall i :: 0 <= i < |steps| ==> Recorded(u, c0, steps, summaries, i)
  }

  lemma ProgressStep(u: Setup, c0: CycleState, maxTokens: nat, c: CycleState, steps: seq<CommitPlan>,
                     summaries: seq<StepSummary>, output: seq<int>, kv: seq<seq<KV>>, st: GraphStep)
    requires WellFormed(u.m) && Progress(u, c0, maxTokens, c, steps, summaries) && Cycling(u, c)
             && DraftedAt(u, c) == Some(st.graph.drafted)
    requires Stepped(u.m, c.prev, u.goal - |c.output|, c.stats, c.output, c.kv, output, kv, st)
    ensures Progress(u, c0, maxTokens, CycleState(output, kv, st.nextToken, st.nextActivation, st.stats),
                     steps + [st.commit], summaries + [Summary(st)])
    ensures |c.output| < |output|
  {
    hide WellFormed, Running, Stepped, Cycling, DraftedAt, Recorded, Reached, Cycles;
    var next := CycleState(output, kv, st.nextToken, st.nextActivation, st.stats);
    SteppedTotals(u.m, c.prev, u.goal - |c.output|, c.stats, c.output, c.kv, output, kv, st);
    hide MTPStats.Plus;
    StillMissing(u, c);
    RunningStep(u.m, c0.output, maxTokens, c0.stats, c.output, c.kv, c.stats, c.prev, steps, summaries, output, kv, st);
    ReachedNext(u, c0, steps, summaries, c, next, st);
  }

  lemma StuckHere(u: Setup, c0: CycleState, maxTokens: nat, c: CycleState, steps: seq<CommitPlan>,
                  summaries: seq<StepSummary>)
    requires Progress(u, c0, maxTokens, c, steps, summaries) && u.goal - |c.output| > 1 && !CanCycle(u, c)
    ensures Stuck(u, c0, |steps|)
  {
    hide Running, Recorded, Reached, CanCycle, Cycles;
  }

  lemma StillMissing(u: Setup, c: CycleState)
    requires Cycling(u, c)
    ensures |c.output| + 1 < u.goal
  {
  }

  /** One cycle from the current state, with the drafter's view of its caches. */
  method CycleOnce(decode: CPUDecodeState, u: Setup, prev: int, activation: Vec, stats: MTPStats, ghost c: CycleState)
    returns (step: Result<GraphStep>)
    requires SourcesOk(u.m) && WellFormed(u.m) && decode.m == u.m && decode.cache.Length == |u.m.layers|
    requires c == CycleState(decode.output, decode.cache[..], prev, activation, stats)
    modifies decode`output, decode.cache
    ensures step.Ok? <==> CanCycle(u, c)
    ensures step.Err? ==> decode.output == c.output && decode.cache[..] == c.kv
    ensures step.Ok? ==>
              DraftedAt(u, c) == Some(step.value.graph.drafted)
              && Stepped(u.m, c.prev, u.goal - |c.output|, c.stats, c.output, c.kv, decode.output, decode.cache[..],
                         step.value)
  {
    hide SourcesOk, WellFormed, Stepped, ViewNow, CycleOk, AdaptivePolicy.NextDraftCount;
    var external := ViewNow(u.m, u.base, decode.output, decode.cache[..]);
    step := RunMTPGraphDecodeStep(decode, u.d, prev, activation, external, u.goal - |decode.output|, 0, u.policy,
                                  stats);
  }

  /** Cycles until at most one token is left. Before each the caches hold one row per output token on
      every owning layer, which is what the next verifier pass demands. */
  method RunCycles(decode: CPUDecodeState, d: Drafter, ctx: PromptContext, base: Option<seq<int>>, maxTokens: nat,
                   policy: AdaptivePolicy, initial: MTPStats)
    returns (ok: bool, state: int, activation: Vec, stats: MTPStats, steps: seq<CommitPlan>,
             summaries: seq<StepSummary>)
    requires SourcesOk(decode.m) && WellFormed(decode.m) && decode.cache.Length == |decode.m.layers|
    requires ContextOk(decode.m, ctx) && decode.output == ctx.tokens && decode.cache[..] == ctx.kv
    modifies decode`output, decode.cache
    ensures var u, c0 := Setup(decode.m, d, base, policy, |ctx.tokens| + maxTokens),
                         CycleState(ctx.tokens, ctx.kv, ctx.previousToken, ctx.activation, initial);
            && Progress(u, c0, maxTokens, CycleState(decode.output, decode.cache[..], state, activation, stats), steps,
                        summaries)
            && (if ok then u.goal - |decode.output| <= 1 else Stuck(u, c0, |steps|) && u.goal - |decode.output| > 1)
  {
    var u := Setup(decode.m, d, base, policy, |ctx.tokens| + maxTokens);
    state, activation, stats, steps, summaries := ctx.previousToken, ctx.activation, initial, [], [];
    ghost var c0 := CycleState(ctx.tokens, ctx.kv, ctx.previousToken, ctx.activation, initial);
    ghost var c := c0;
    RunningStart(decode.m, ctx, maxTokens, initial);
    hide SourcesOk, WellFormed, RowsMatch, ContextOk, Running, Stepped, CanCycle, DraftedAt, Recorded;
    assert Progress(u, c0, maxTokens, c, steps, summaries);
    hide Progress, Stuck;
    while u.goal - |decode.output| > 1
      invariant c == CycleState(decode.output, decode.cache[..], state, activation, stats)
      invariant Progress(u, c0, maxTokens, c, steps, summaries)
      decreases u.goal - |decode.output|
    {
      var step := CycleOnce(decode, u, state, activation, stats, c);
      if step.Err? {
        StuckHere(u, c0, maxTokens, c, steps, summaries);
        return false, state, activation, stats, steps, summaries;
      }
      var st := step.value;
      ProgressStep(u, c0, maxTokens, c, steps, summaries, decode.output, decode.cache[..], st);
      c := CycleState(decode.output, decode.cache[..], st.nextToken, st.nextActivation, st.stats);
      state, activation, stats := st.nextToken, st.nextActivation, st.stats;
      steps, summaries := steps + [st.commit], summaries + [Summary(st)];
    }
    ok := true;
  }
}
