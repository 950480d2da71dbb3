/** The explicit per-iteration contract of multi-token prediction: which tokens are drafted, verified
    and kept, how many to draft next, and how steps are counted. */
module MtpGraph {
  import opened Transformer
  import opened Acceptance
  import opened Wrappers

  datatype VerifierPlan = VerifierPlan(inputToken: int, drafted: seq<int>, verifierTokens: seq<int>, startPos: int,
                                       positions: seq<int>)

  datatype DrafterStep = DrafterStep(index: int, inputToken: int, width: int, externalLen: int,
                                     externalLayers: seq<int>)

  datatype CommitPlan = CommitPlan(keepTokens: int, positions: seq<int>, outputTokens: seq<int>)

  /** K/V of the main model as the query-only drafter layers see it. */
  datatype ExternalKV = ExternalKV(view: seq<seq<KV>>, sourceLayers: seq<int>, seqLen: int)

  predicate InVocab(tokens: seq<int>, vocab: int) {
    forall i :: 0 <= i < |tokens| ==> 0 <= tokens[i] && (vocab > 0 ==> tokens[i] < vocab)
  }

  // ---------------------------------------------------------------------------------------------
  // Execution graph

  datatype ExecutionGraph = ExecutionGraph(
    inputToken: int,
    drafted: seq<int>,
    startPos: int,
    steps: seq<DrafterStep>,
    verifier: VerifierPlan,
    maxKeep: int,
    externalRequired: bool)
  {
    predicate StepOk(i: nat)
      requires i < |steps| == |drafted|
    {
      var s := steps[i];
      && s.index == i && s.inputToken == (if i > 0 then drafted[i - 1] else inputToken) && s.width > 0
      && s.externalLen >= 0
      && s.width == steps[0].width && s.externalLen == steps[0].externalLen
      && s.externalLayers == steps[0].externalLayers
      && (externalRequired ==> s.externalLen > 0 && s.externalLayers != [])
      && (s.externalLen != 0 || s.externalLayers != [] ==> s.externalLen == startPos)
      && (forall j :: 0 <= j < |s.externalLayers| ==> s.externalLayers[j] >= 0)
    }

    predicate Valid() {
      && inputToken >= 0 && startPos >= 0 && |drafted| <= MAX_DRAFT_COUNT && NonNegative(drafted)
      && maxKeep == |drafted| + 1 && |steps| == |drafted|
      && (forall i :: 0 <= i < |steps| ==> StepOk(i))
      && verifier.inputToken == inputToken && verifier.drafted == drafted
      && verifier.verifierTokens == [inputToken] + drafted && verifier.startPos == startPos
      && |verifier.positions| == |drafted| + 1
      && forall i :: 0 <= i < |verifier.positions| ==> verifier.positions[i] == startPos + i
    }
  }

  /** The one graph of a token, a draft and a start position, with one width and one external view for all its
      drafter steps. */
  ghost predicate IsGraph(g: ExecutionGraph, width: int, len: int, layers: seq<int>) {
    && g.inputToken >= 0 && g.startPos >= 0 && |g.drafted| <= MAX_DRAFT_COUNT && (forall t :: t in g.drafted ==> t >= 0)
    && g.maxKeep == |g.drafted| + 1
    && g.verifier == VerifierPlan(g.inputToken, g.drafted, [g.inputToken] + g.drafted, g.startPos,
                                  seq(|g.drafted| + 1, i => g.startPos + i))
    && |g.steps| == |g.drafted|
    && (g.drafted != [] ==>
          && width > 0 && len >= 0 && (forall l :: l in layers ==> l >= 0)
          && (g.externalRequired ==> len > 0 && layers != [])
          && (len != 0 || layers != [] ==> len == g.startPos))
    && forall i :: 0 <= i < |g.steps| ==>
                     g.steps[i] == DrafterStep(i, if i > 0 then g.drafted[i - 1] else g.inputToken, width, len, layers)
  }

  /** A graph passes its own check exactly when it is that graph for some width and view. */
  lemma GraphMeans(g: ExecutionGraph)
    ensures g.Valid() <==> exists width, len, layers :: IsGraph(g, width, len, layers)
  {
    if g.Valid() {
      assert g.verifier.positions == seq(|g.drafted| + 1, i => g.startPos + i);
      if g.drafted == [] {
        assert IsGraph(g, 1, 0, []);
      } else {
        assert g.StepOk(0);
        forall i | 0 <= i < |g.steps|
          ensures g.steps[i] == DrafterStep(i, if i > 0 then g.drafted[i - 1] else g.inputToken, g.steps[0].width,
                                            g.steps[0].externalLen, g.steps[0].externalLayers)
        {
          assert g.StepOk(i);
        }
        assert IsGraph(g, g.steps[0].width, g.steps[0].externalLen, g.steps[0].externalLayers);
      }
    }
    if width, len, layers :| IsGraph(g, width, len, layers) {
      assert forall i :: 0 <= i < |g.drafted| ==> g.drafted[i] in g.drafted;
      forall i | 0 <= i < |g.steps|
        ensures g.StepOk(i)
      {
        assert g.steps[0] == DrafterStep(0, g.inputToken, width, len, layers);
        assert forall j :: 0 <= j < |layers| ==> layers[j] in layers;
      }
    }
  }

  /** The drafter can read the view: one in-range source per drafter layer, each `seqLen` rows long. */
  predicate ExternalOk(drafterLayers: nat, e: ExternalKV) {
    && e.seqLen > 0 && |e.sourceLayers| == drafterLayers
    && forall i :: 0 <= i < drafterLayers ==>
                     0 <= e.sourceLayers[i] < |e.view| && |e.view[e.sourceLayers[i]]| == e.seqLen
  }

  predicate PlanOk(vocab: int, inputToken: int, drafted: seq<int>, startPos: int) {
    && startPos >= 0 && vocab > 0 && 0 <= inputToken < vocab && InVocab(drafted, vocab)
    && startPos <= MAX_INT - |drafted|
  }

  method NewVerifierPlan(vocab: int, inputToken: int, drafted: seq<int>, startPos: int)
    returns (r: Result<VerifierPlan>)
    ensures r.Ok? <==> PlanOk(vocab, inputToken, drafted, startPos)
    ensures r.Ok? ==> r.value.inputToken == inputToken && r.value.drafted == drafted && r.value.startPos == startPos
    ensures r.Ok? ==> r.value.verifierTokens == [inputToken] + drafted && |r.value.positions| == |drafted| + 1
    ensures r.Ok? ==> forall i :: 0 <= i < |r.value.positions| ==> r.value.positions[i] == startPos + i
  {
    if startPos < 0 || vocab <= 0 || inputToken < 0 || inputToken >= vocab {
      return Err;
    }
    for i := 0 to |drafted|
      invariant InVocab(drafted[..i], vocab)
    {
      if drafted[i] < 0 || drafted[i] >= vocab {
        return Err;
      }
    }
    assert drafted[..|drafted|] == drafted;
    if startPos > MAX_INT - |drafted| {
      return Err;
    }
    var positions: seq<int> := [];
    for i := 0 to |drafted| + 1
      invariant |positions| == i && forall j :: 0 <= j < i ==> positions[j] == startPos + j
    {
      positions := positions + [startPos + i];
    }
    return Ok(VerifierPlan(inputToken, drafted, [inputToken] + drafted, startPos, positions));
  }

  method CheckExternal(drafterLayers: nat, e: ExternalKV) returns (ok: bool)
    ensures ok <==> ExternalOk(drafterLayers, e)
  {
    if e.seqLen <= 0 || |e.sourceLayers| != drafterLayers {
      return false;
    }
    for i := 0 to drafterLayers
      invariant forall j :: 0 <= j < i ==>
                              0 <= e.sourceLayers[j] < |e.view| && |e.view[e.sourceLayers[j]]| == e.seqLen
    {
      var l := e.sourceLayers[i];
      if l < 0 || l >= |e.view| || |e.view[l]| != e.seqLen {
        return false;
      }
    }
    return true;
  }

  predicate GraphInputsOk(vocab: int, backbone: int, drafterLayers: nat, inputToken: int, external: Option<ExternalKV>,
                          drafted: seq<int>, startPos: int) {
    && |drafted| <= MAX_DRAFT_COUNT && backbone > 0 && PlanOk(vocab, inputToken, drafted, startPos)
    && (drafterLayers > 0 && drafted != [] ==> external.Some?)
    && (external.Some? ==>
          ExternalOk(drafterLayers, external.value)
          && (drafted != [] ==>
                external.value.seqLen == startPos))
  }

  /** A graph is built exactly for consistent inputs, and every graph built passes its own check. */
  method NewExecutionGraph(vocab: int, backbone: int, drafterLayers: nat, inputToken: int, external: Option<ExternalKV>,
                           drafted: seq<int>, startPos: int)
    returns (r: Result<ExecutionGraph>)
    ensures r.Ok? <==> GraphInputsOk(vocab, backbone, drafterLayers, inputToken, external, drafted, startPos)
    ensures r.Ok? ==>
              r.value.Valid() && r.value.inputToken == inputToken && r.value.drafted == drafted
              && r.value.startPos == startPos
    ensures r.Ok? ==> r.value.externalRequired == (drafterLayers > 0 && drafted != [])
    ensures r.Ok? ==> forall i :: 0 <= i < |r.value.steps| ==>
                                    var step := r.value.steps[i];
                                    && step.width == backbone
                                    && step.externalLen == (if external.Some? then external.value.seqLen else 0)
                                    && step.externalLayers == if external.Some? then external.value.sourceLayers else []
  {
    var required := drafterLayers > 0 && drafted != [];
    if |drafted| > MAX_DRAFT_COUNT || inputToken < 0 || inputToken >= vocab || backbone <= 0
       || (required && external.None?) {
      return Err;
    }
    if external.Some? {
      var usable := CheckExternal(drafterLayers, external.value);
      if !usable {
        return Err;
      }
    }
    var plan := NewVerifierPlan(vocab, inputToken, drafted, startPos);
    if plan.Err? {
      return Err;
    }
    var steps := DrafterSteps(inputToken, drafted, backbone, external);
    var graph := ExecutionGraph(inputToken, drafted, startPos, steps, plan.value, |drafted| + 1, required);
    if !graph.Valid() {
      if external.None? || drafted == [] || external.value.seqLen == startPos {
        assert forall i :: 0 <= i < |steps| ==> graph.StepOk(i);
        assert false;
      }
      return Err;
    }
    if drafted != [] {
      assert graph.StepOk(0);
    }
    return Ok(graph);
  }

  method DrafterSteps(inputToken: int, drafted: seq<int>, backbone: int, external: Option<ExternalKV>)
    returns (steps: seq<DrafterStep>)
    ensures |steps| == |drafted|
    ensures var len, layers := if external.Some? then external.value.seqLen else 0,
                               if external.Some? then external.value.sourceLayers else [];
            forall i :: 0 <= i < |steps| ==>
                          steps[i] == DrafterStep(i, if i > 0 then drafted[i - 1] else inputToken, backbone, len,
                                                  layers)
  {
    steps := [];
    var len, layers := 0, [];
    if external.Some? {
      len, layers := external.value.seqLen, external.value.sourceLayers;
    }
    for i := 0 to |drafted|
      invariant |steps| == i
      invariant forall j :: 0 <= j < i ==>
                              steps[j] == DrafterStep(j, if j > 0 then drafted[j - 1] else inputToken, backbone, len,
                                                      layers)
    {
      var input := inputToken;
      if i > 0 {
        input := drafted[i - 1];
      }
      steps := steps + [DrafterStep(i, input, backbone, len, layers)];
    }
  }

  /** What to keep of a verifier pass: the accepted prefix and the bonus position, never more. */
  method NewCommitPlan(g: ExecutionGraph, a: MTPAcceptance) returns (r: Result<CommitPlan>)
    ensures r.Ok? <==> g.Valid() && a.Valid() && a.draftedCount == |g.drafted| && a.acceptedTokens <= g.drafted
    ensures r.Ok? ==>
              0 < r.value.keepTokens <= g.maxKeep && r.value.keepTokens == |r.value.positions| == |r.value.outputTokens|
    ensures r.Ok? ==>
              r.value.positions == g.verifier.positions[..r.value.keepTokens] && r.value.outputTokens == a.outputTokens
    ensures r.Ok? ==> forall i :: 0 <= i < r.value.keepTokens - 1 ==> r.value.outputTokens[i] == g.drafted[i]
  {
    if !g.Valid() || !a.Valid() || a.draftedCount != |g.drafted| {
      return Err;
    }
    for i := 0 to |a.acceptedTokens|
      invariant a.acceptedTokens[..i] == g.drafted[..i]
    {
      if a.acceptedTokens[i] != g.drafted[i] {
        return Err;
      }
    }
    assert a.acceptedTokens == g.drafted[..a.acceptedPrefixLen];
    assert forall i :: 0 <= i < a.acceptedPrefixLen ==> a.outputTokens[i] == a.acceptedTokens[i] == g.drafted[i];
    for i := 0 to a.acceptedPrefixLen
    {
      if a.outputTokens[i] != g.drafted[i] {
        assert false;
      }
    }
    var keep := a.KVKeepTokens();
    if keep <= 0 || keep > |g.verifier.positions| {
      assert false;
    }
    return Ok(CommitPlan(keep, g.verifier.positions[..keep], a.outputTokens));
  }

  // ---------------------------------------------------------------------------------------------
  // Counters

  datatype MTPStats = MTPStats(steps: int, drafted: int, verified: int, bonus: int, output: int)
  {
    predicate NonNegativeCounters() {
      steps >= 0 && drafted >= 0 && verified >= 0 && bonus >= 0 && output >= 0
    }

    /** Room for one more step of `count` drafts, whatever the verifier says about them. */
    predicate HasCapacity(count: int) {
      && 0 < count <= MAX_DRAFT_COUNT && NonNegativeCounters()
      && steps <= MAX_INT - 1 && drafted <= MAX_INT - count && bonus <= MAX_INT - 1 && output <= MAX_INT - (count + 1)
    }

    function AcceptanceRate(): real {
      if drafted <= 0 then 0.0 else verified as real / drafted as real
    }

    function Plus(d: int, v: int): MTPStats {
      MTPStats(steps + 1, drafted + d, verified + v, bonus + 1, output + v + 1)
    }
  }

  /** Counts one acceptance; a counter that would overflow refuses the whole record. */
  function Record(s: MTPStats, a: MTPAcceptance): (r: Result<MTPStats>) {
    var steps, drafted, verified := CheckedAdd(s.steps, 1), CheckedAdd(s.drafted, a.draftedCount),
                                    CheckedAdd(s.verified, a.verifiedCount);
    var bonus, output := CheckedAdd(s.bonus, 1), CheckedAdd(s.output, |a.outputTokens|);
    if !a.Valid() || steps.None? || drafted.None? || verified.None? || bonus.None? || output.None? then Err
    else Ok(MTPStats(steps.value, drafted.value, verified.value, bonus.value, output.value))
  }

  /** A verdict is recorded exactly when it is valid and no counter is negative or would pass the largest
      machine integer; what is recorded is one step, its drafts, its accepted drafts, one bonus token and
      everything it emits. */
  lemma RecordMeans(s: MTPStats, a: MTPAcceptance)
    ensures Record(s, a).Ok? <==>
            && a.Valid() && s.steps >= 0 && s.drafted >= 0 && s.verified >= 0 && s.bonus >= 0 && s.output >= 0
            && s.steps < MAX_INT && s.drafted + a.draftedCount <= MAX_INT && s.verified + a.acceptedPrefixLen <= MAX_INT
            && s.bonus < MAX_INT && s.output + |a.outputTokens| <= MAX_INT
    ensures Record(s, a).Ok? ==>
              Record(s, a).value == MTPStats(s.steps + 1, s.drafted + a.draftedCount, s.verified + a.acceptedPrefixLen,
                                             s.bonus + 1, s.output + a.acceptedPrefixLen + 1)
  {
  }

  /** The capacity check made before a step leaves one way for the later record to fail: the verified
      counter, which it does not cover. */
  lemma CapacityCovers(s: MTPStats, a: MTPAcceptance)
    requires s.HasCapacity(a.draftedCount) && a.Valid()
    ensures Record(s, a).Ok? <==> s.verified <= MAX_INT - a.acceptedPrefixLen
    ensures Record(s, a).Ok? ==> Record(s, a).value == s.Plus(a.draftedCount, a.acceptedPrefixLen)
    ensures Record(s, a).Ok? ==> Record(s, a).value.NonNegativeCounters()
  {
    assert a.verifiedCount == a.acceptedPrefixLen && |a.outputTokens| == a.acceptedPrefixLen + 1;
  }

  /** The verdict that accepts `count` drafts, all of token zero. */
  function FullAcceptance(count: nat): MTPAcceptance {
    var zeros := seq(count, _ => 0);
    MTPAcceptance(count, count, count, zeros, 0, zeros + [0], true, -1)
  }

  /** What a caller can check before the step: after the capacity check, every verdict on `count` drafts
      can be recorded if and only if the verified counter has room for all of them. */
  lemma CapacityForAll(s: MTPStats, count: int)
    requires s.HasCapacity(count)
    ensures (forall a: MTPAcceptance :: a.Valid() && a.draftedCount == count ==> Record(s, a).Ok?) <==>
            s.verified <= MAX_INT - count
  {
    if s.verified <= MAX_INT - count {
      forall a: MTPAcceptance | a.Valid() && a.draftedCount == count
        ensures Record(s, a).Ok?
      {
        CapacityCovers(s, a);
      }
    } else {
      CapacityGap(s, count);
    }
  }

  /** Otherwise a verdict that accepts everything passes the check before the step and fails after it. */
  lemma CapacityGap(s: MTPStats, count: int)
    requires s.HasCapacity(count) && s.verified > MAX_INT - count
    ensures FullAcceptance(count).Valid() && FullAcceptance(count).draftedCount == count
            && Record(s, FullAcceptance(count)).Err?
  {
    CapacityCovers(s, FullAcceptance(count));
  }

  /** What the capacity check checks: a draft count within limits for which the verdict that emits most can be
      recorded, the verified counter aside. */
  lemma CapacityMeans(s: MTPStats, count: int)
    ensures s.HasCapacity(count) <==>
            0 < count <= MAX_DRAFT_COUNT && s.verified >= 0
            && Record(s.(verified := 0), FullAcceptance(count)).Ok?
  {
    if 0 < count {
      RecordMeans(s.(verified := 0), FullAcceptance(count));
    }
  }

  // ---------------------------------------------------------------------------------------------
  // Adaptive draft count

  /** 64-bit two's-complement wrap-around. */
  function Wrap64(x: int): (w: int)
    ensures -MAX_INT - 1 <= w <= MAX_INT
    ensures -MAX_INT - 1 <= x <= MAX_INT ==> w == x
  {
    (x + MAX_INT + 1) % (2 * (MAX_INT + 1)) - (MAX_INT + 1)
  }

  /** Division truncating toward zero. */
  function TruncDiv(a: int, b: int): int
    requires b > 0
  {
    if a >= 0 then a / b else -((-a) / b)
  }

  datatype AdaptivePolicy = AdaptivePolicy(minDrafts: int, initialDrafts: int, maxDrafts: int, increase: real,
                                           decrease: real)
  {
    predicate Normal() {
      1 <= minDrafts <= initialDrafts <= maxDrafts <= MAX_DRAFT_COUNT && 0.0 < decrease <= increase
    }

    /** Fills defaults and puts the bounds in order; a policy already in order is left alone. */
    function Normalize(): (p: AdaptivePolicy)
      ensures p.Normal()
      ensures Normal() ==> p == this
      ensures p.maxDrafts == if 1 <= maxDrafts <= MAX_DRAFT_COUNT then maxDrafts else MAX_DRAFT_COUNT
      ensures p.minDrafts == if minDrafts <= 0 then 1 else if minDrafts <= p.maxDrafts then minDrafts else p.maxDrafts
      ensures initialDrafts <= p.minDrafts ==> p.initialDrafts == p.minDrafts
      ensures p.minDrafts < initialDrafts <= p.maxDrafts ==> p.initialDrafts == initialDrafts
      ensures p.maxDrafts < initialDrafts ==> p.initialDrafts == p.maxDrafts
      ensures p.increase == if increase > 0.0 then increase else 0.75
      ensures decrease > p.increase ==> p.decrease == p.increase
      ensures 0.0 < decrease <= p.increase ==> p.decrease == decrease
      ensures decrease <= 0.0 ==> p.decrease == if p.increase < 0.40 then p.increase else 0.40
    {
      var min := if minDrafts <= 0 then 1 else minDrafts;
      var initial := if initialDrafts <= 0 then min else initialDrafts;
      var max := if maxDrafts <= 0 || maxDrafts > MAX_DRAFT_COUNT then MAX_DRAFT_COUNT else maxDrafts;
      var min' := if min > max then max else min;
      var initial' := if initial < min' then min' else initial;
      var initial'' := if initial' > max then max else initial';
      var inc := if increase <= 0.0 then 0.75 else increase;
      var dec := if decrease <= 0.0 then 0.40 else decrease;
      AdaptivePolicy(min', initial'', max, inc, if dec > inc then inc else dec)
    }

    /** How many tokens to draft next: none when at most one token is left, otherwise at least one and
        never more than fits the budget with its bonus token, even when a counter wraps around. */
    function NextDraftCount(remaining: int, stats: MTPStats): (n: int)
      ensures remaining <= 1 ==> n == 0
      ensures remaining > 1 ==> 1 <= n < remaining && n <= Normalize().maxDrafts
      ensures remaining > Normalize().minDrafts ==> n == 0 || n >= Normalize().minDrafts
    {
      if remaining <= 1 then 0
      else
        var p := Normalize();
        var limit := if remaining - 1 > p.maxDrafts then p.maxDrafts else remaining - 1;
        var draft :=
          if stats.steps > 0 && stats.drafted > 0 then
            var mean := TruncDiv(Wrap64(Wrap64(stats.drafted + stats.steps) - 1), stats.steps);
            if stats.AcceptanceRate() >= p.increase then Wrap64(mean + 1)
            else if stats.AcceptanceRate() <= p.decrease then Wrap64(mean - 1)
            else mean
          else p.initialDrafts;
        var draft' := if draft < p.minDrafts then p.minDrafts else draft;
        if draft' > limit then limit else draft'
    }
  }

  /** The count moves by one from the average draft length `g`, rounded up, in the direction of the share of
      drafts that was accepted, and otherwise stays there, as far as the bounds allow. */
  lemma Adapts(p: AdaptivePolicy, remaining: int, stats: MTPStats, g: int)
    requires p.Normal() && p.minDrafts <= g <= p.maxDrafts && remaining > p.maxDrafts
    requires 0 < stats.steps && 0 < stats.drafted && stats.drafted + stats.steps <= MAX_INT
    requires (g - 1) * stats.steps < stats.drafted <= g * stats.steps
    ensures var accepted, drafted := stats.verified as real, stats.drafted as real;
            p.NextDraftCount(remaining, stats) ==
            if accepted >= p.increase * drafted then (if g < p.maxDrafts then g + 1 else g)
            else if accepted <= p.decrease * drafted then (if g > p.minDrafts then g - 1 else g)
            else g
  {
    var s, d := stats.steps, stats.drafted;
    RateAtLeast(stats, p.increase);
    RateAtLeast(stats, p.decrease);
    assert TruncDiv(d + s - 1, s) == g by { Ceiling(d, s, g); }
  }

  lemma RateAtLeast(stats: MTPStats, bound: real)
    requires stats.drafted > 0
    ensures stats.AcceptanceRate() >= bound <==> stats.verified as real >= bound * stats.drafted as real
    ensures stats.AcceptanceRate() <= bound <==> stats.verified as real <= bound * stats.drafted as real
  {
    var d := stats.drafted as real;
    assert stats.AcceptanceRate() * d == stats.verified as real;
    ScaleOrder(stats.AcceptanceRate(), bound, d);
  }

  lemma ScaleOrder(a: real, b: real, d: real)
    requires d > 0.0
    ensures a >= b <==> a * d >= b * d
    ensures a <= b <==> a * d <= b * d
  {
    assert (a - b) * d == a * d - b * d;
  }

  /** Before any step has been counted the initial draft count is used, and a small budget cuts every count to
      one less than what is left. */
  lemma CutToBudget(p: AdaptivePolicy, remaining: int, budget: int, stats: MTPStats)
    requires p.Normal() && 1 < remaining && p.maxDrafts < budget
    ensures stats.steps <= 0 || stats.drafted <= 0 ==> p.NextDraftCount(budget, stats) == p.initialDrafts
    ensures p.NextDraftCount(remaining, stats) ==
            Min(p.NextDraftCount(budget, stats), remaining - 1)
  {
  }

  lemma Ceiling(d: int, s: int, g: int)
    requires s > 0 && (g - 1) * s < d <= g * s
    ensures (d + s - 1) / s == g
  {
    QuotientUnique(d + s - 1, s, g, d + s - 1 - g * s);
  }
}
