/** Draft proposers and the speculative generation loop. */
module Speculative {
  import opened Transformer
  import opened Decoding
  import opened Acceptance
  import opened Wrappers
  import opened DecodeStates

  // ---------------------------------------------------------------------------------------------
  // Proposers

  /** The last `n` tokens of `context` also occur at `i`, earlier. */
  predicate Occurs(context: seq<int>, n: nat, i: int) {
    0 <= i && i + n < |context| && context[i..i + n] == context[|context| - n..]
  }

  /** The latest earlier occurrence of the last `n` tokens, or -1. */
  ghost predicate IsLatest(context: seq<int>, n: nat, best: int) {
    && (best == -1 || Occurs(context, n, best))
    && forall i :: best < i ==> !Occurs(context, n, i)
  }

  /** `out` follows the latest occurrence of the longest suffix that occurs earlier, if any does: the matched
      window and `out` are one stretch of the context, cut to `max` tokens or to the end of the context. The
      suffix is at most `maxNGram` tokens long when that is a length a proper suffix can have. */
  ghost predicate IsLookup(context: seq<int>, max: int, maxNGram: int, out: seq<int>) {
    if max <= 0 || |context| < 2 then out == []
    else
      var cap := if 0 < maxNGram < |context| then maxNGram else |context| - 1;
      || (out == [] && forall n: nat, i :: 1 <= n <= cap ==> !Occurs(context, n, i))
      || (exists n: nat, best: nat :: LongestLookup(context, cap, n, best) && Follows(context, n, best, max, out))
  }

  ghost predicate Follows(context: seq<int>, n: nat, best: nat, max: int, out: seq<int>) {
    && 0 < |out| <= max && n <= |context| && best + n + |out| <= |context|
    && context[best..best + n + |out|] == context[|context| - n..] + out
    && (|out| == max || best + n + |out| == |context|)
  }

  ghost predicate LongestLookup(context: seq<int>, cap: nat, n: nat, best: nat) {
    && 1 <= n <= cap && best + n < |context| && Occurs(context, n, best) && IsLatest(context, n, best)
    && forall k: nat, i :: n < k <= cap ==> !Occurs(context, k, i)
  }

  /** Token-by-token comparison of an earlier window with the suffix. */
  method SuffixAt(context: seq<int>, n: nat, i: nat) returns (same: bool)
    requires i + n < |context|
    ensures same <==> Occurs(context, n, i)
  {
    var start := |context| - n;
    ghost var window, suffix := context[i..i + n], context[start..];
    for j := 0 to n
      invariant forall k :: 0 <= k < j ==> window[k] == suffix[k]
    {
      assert window[j] == context[i + j] && suffix[j] == context[start + j];
      if context[i + j] != context[start + j] {
        return false;
      }
    }
    return true;
  }

  /** The scan for the latest occurrence of one suffix length. */
  method LatestOccurrence(context: seq<int>, n: nat) returns (best: int)
    requires 1 <= n < |context|
    ensures IsLatest(context, n, best)
  {
    best := -1;
    var i := 0;
    while i + n < |context|
      invariant 0 <= i && i + n <= |context| && -1 <= best < i
      invariant best == -1 || Occurs(context, n, best)
      invariant forall k :: best < k < i ==> !Occurs(context, n, k)
    {
      var same := SuffixAt(context, n, i);
      if same {
        best := i;
      }
      i := i + 1;
    }
  }

  /** Prompt lookup: the tokens after the latest earlier occurrence of the longest repeated suffix. */
  method PromptLookupProposal(context: seq<int>, max: int, maxNGram: int) returns (out: seq<int>)
    ensures IsLookup(context, max, maxNGram, out)
    ensures |out| <= if max > 0 then max else 0
  {
    if max <= 0 || |context| < 2 {
      return [];
    }
    var cap := if maxNGram <= 0 || maxNGram > |context| - 1 then |context| - 1 else maxNGram;
    var n := cap;
    while n >= 1
      invariant 0 <= n <= cap
      invariant forall k: nat, i :: n < k <= cap ==> !Occurs(context, k, i)
    {
      var best := LatestOccurrence(context, n);
      if best >= 0 {
        var avail := |context| - (best + n);
        if avail > max {
          avail := max;
        }
        out := context[best + n..best + n + avail];
        assert context[best..best + n + avail] == context[best..best + n] + out;
        assert LongestLookup(context, cap, n, best) && Follows(context, n, best, max, out);
        return;
      }
      n := n - 1;
    }
    return [];
  }

  /** A lookup has one possible answer. */
  lemma LookupUnique(context: seq<int>, max: int, maxNGram: int, a: seq<int>, b: seq<int>)
    requires IsLookup(context, max, maxNGram, a) && IsLookup(context, max, maxNGram, b)
    ensures a == b
  {
    if max > 0 && |context| >= 2 {
      var cap := if 0 < maxNGram < |context| then maxNGram else |context| - 1;
      hide Occurs, IsLookup;
      if a != [] && b != [] {
        FollowsUnique(context, cap, max, a, b);
      }
    }
  }

  lemma FollowsUnique(context: seq<int>, cap: nat, max: int, a: seq<int>, b: seq<int>)
    requires exists n: nat, i: nat :: LongestLookup(context, cap, n, i) && Follows(context, n, i, max, a)
    requires exists n: nat, i: nat :: LongestLookup(context, cap, n, i) && Follows(context, n, i, max, b)
    ensures a == b
  {
    var n: nat, i: nat :| LongestLookup(context, cap, n, i) && Follows(context, n, i, max, a);
    var k: nat, j: nat :| LongestLookup(context, cap, k, j) && Follows(context, k, j, max, b);
    hide Occurs, Follows;
    assert n == k && i == j;
    FollowsAre(context, n, i, max, a, b);
  }

  lemma FollowsAre(context: seq<int>, n: nat, i: nat, max: int, a: seq<int>, b: seq<int>)
    requires Follows(context, n, i, max, a) && Follows(context, n, i, max, b)
    ensures a == b
  {
    assert a == context[i..i + n + |a|][n..] && b == context[i..i + n + |b|][n..];
  }

  /** The built-in proposers, and any other function of the tokens so far and the limit. */
  datatype Proposer = Noop | PromptLookup(nGram: int) | RepeatLast | Custom(propose: (seq<int>, int) -> seq<int>)

  /** What a proposer answers. */
  ghost predicate Proposes(p: Proposer, context: seq<int>, max: int, out: seq<int>) {
    match p
    case Noop => out == []
    case PromptLookup(nGram) => IsLookup(context, max, nGram, out)
    case RepeatLast =>
      |out| == (if max <= 0 || context == [] then 0 else max)
      && forall i :: 0 <= i < |out| ==> context != [] && out[i] == context[|context| - 1]
    case Custom(f) => out == f(context, max)
  }

  method Propose(p: Proposer, context: seq<int>, max: int) returns (out: seq<int>)
    ensures Proposes(p, context, max, out)
    ensures !p.Custom? ==> |out| <= if max > 0 then max else 0
  {
    match p
    case Noop => out := [];
    case PromptLookup(nGram) => out := PromptLookupProposal(context, max, nGram);
    case RepeatLast =>
      out := if max <= 0 || context == [] then [] else seq(max, i => context[|context| - 1]);
    case Custom(f) => out := f(context, max);
  }

  /** The proposer never returns more than it is asked for. */
  ghost predicate Respects(p: Proposer) {
    p.Custom? ==> forall context: seq<int>, max: int :: |p.propose(context, max)| <= if max > 0 then max else 0
  }

  /** A slice length fits a machine integer. */
  ghost predicate Sized(p: Proposer) {
    p.Custom? ==> forall context: seq<int>, max: int :: |p.propose(context, max)| < MAX_INT
  }

  // ---------------------------------------------------------------------------------------------
  // Generation

  datatype SpeculativeConfig = SpeculativeConfig(enabled: bool, blockSize: int, nGram: int, minProposal: int)
  {
    function Normalize(): (c: SpeculativeConfig)
      ensures c.enabled == enabled && c.blockSize == (if blockSize > 0 then blockSize else 8)
      ensures c.nGram == (if nGram > 0 then nGram else 4) && c.minProposal == if minProposal > 0 then minProposal else 2
      ensures c == this <==> blockSize > 0 && nGram > 0 && minProposal > 0
    {
      SpeculativeConfig(enabled, if blockSize <= 0 then 8 else blockSize, if nGram <= 0 then 4 else nGram,
                        if minProposal <= 0 then 2 else minProposal)
    }
  }

  datatype SpeculativeStats = SpeculativeStats(steps: nat, proposalSteps: nat, proposed: nat, accepted: nat,
                                               bonus: nat, fallback: nat)
  {
    function EmittedTokens(): nat {
      accepted + bonus + fallback
    }

    /** Every step ends in a bonus token or a fallback, bonus tokens come only from steps that proposed,
        and only proposed tokens are accepted. */
    predicate Consistent() {
      steps == bonus + fallback && bonus <= proposalSteps <= steps && accepted <= proposed && proposalSteps <= proposed
    }
  }

  /** A proposal of token ids, behind which decoding can go on for one token more. */
  ghost predicate Verifiable(m: Model, context: seq<int>, proposal: seq<int>) {
    NonNegative(proposal) && |Greedy(m, context, |proposal| + 1)| == |context| + |proposal| + 1
  }

  datatype SpeculativeState = SpeculativeState(output: seq<int>, stats: SpeculativeStats)

  /** One iteration towards `end` tokens. A long enough proposal is tried: as much of it as greedy decoding
      reproduces is emitted together with one more greedy token, as far as `end` allows. Without one, or when
      it cannot be verified, the iteration emits one greedy token, or none if the output is rejected. */
  ghost predicate Iterates(m: Model, c: SpeculativeConfig, p: Proposer, end: nat, s: SpeculativeState,
                           proposal: seq<int>, t: SpeculativeState) {
    var o, before := s.output, s.stats;
    var tried := |proposal| >= c.minProposal;
    var stats := if tried then before.(steps := before.steps + 1, proposalSteps := before.proposalSteps + 1,
                               proposed := before.proposed + |proposal|)
                 else before.(steps := before.steps + 1);
    && |o| < end && Proposes(p, o, Min(c.blockSize, end - |o| - 1), proposal)
    && if tried && Verifiable(m, o, proposal) then
         var n := MatchLength(proposal, Greedy(m, o, |proposal| + 1)[|o|..]);
         t == SpeculativeState(Greedy(m, o, Min(n + 1, end - |o|)),
                               stats.(accepted := before.accepted + n, bonus := before.bonus + 1))
       else t == SpeculativeState(Greedy(m, o, 1), stats.(fallback := before.fallback + 1))
  }

  /** Iterations one after another, from the prompt to state `s`; every one but the last has emitted something. */
  ghost predicate SpeculativeRun(m: Model, c: SpeculativeConfig, p: Proposer, end: nat, prepared: seq<int>,
                                 trace: seq<SpeculativeState>, proposals: seq<seq<int>>, s: SpeculativeState) {
    && |trace| == |proposals| + 1 && trace[0] == SpeculativeState(prepared, SpeculativeStats(0, 0, 0, 0, 0, 0))
    && trace[|proposals|] == s
    && (forall i :: 0 <= i < |proposals| ==> Iterates(m, c, p, end, trace[i], proposals[i], trace[i + 1]))
    && (forall i :: 0 <= i < |proposals| - 1 ==> |trace[i + 1].output| > |trace[i].output|)
  }

  ghost predicate LastGrew(trace: seq<SpeculativeState>) {
    |trace| > 1 ==> |trace[|trace| - 1].output| > |trace[|trace| - 2].output|
  }

  lemma RunStarts(m: Model, c: SpeculativeConfig, p: Proposer, end: nat, prepared: seq<int>, s: SpeculativeState)
    requires s == SpeculativeState(prepared, SpeculativeStats(0, 0, 0, 0, 0, 0))
    ensures SpeculativeRun(m, c, p, end, prepared, [s], [], s) && LastGrew([s])
  {
  }

  lemma RunGrows(m: Model, c: SpeculativeConfig, p: Proposer, end: nat, prepared: seq<int>,
                 trace: seq<SpeculativeState>, proposals: seq<seq<int>>, s: SpeculativeState, proposal: seq<int>,
                 t: SpeculativeState)
    requires SpeculativeRun(m, c, p, end, prepared, trace, proposals, s) && LastGrew(trace)
    requires Iterates(m, c, p, end, s, proposal, t)
    ensures SpeculativeRun(m, c, p, end, prepared, trace + [t], proposals + [proposal], t)
    ensures |t.output| > |s.output| ==> LastGrew(trace + [t])
  {
    hide Iterates;
  }

  lemma AcceptedIteration(m: Model, c: SpeculativeConfig, p: Proposer, end: nat, s: SpeculativeState,
                          proposal: seq<int>, n: nat, t: SpeculativeState)
    requires |s.output| < end && Proposes(p, s.output, Min(c.blockSize, end - |s.output| - 1), proposal)
    requires |proposal| >= c.minProposal && Verifiable(m, s.output, proposal)
    requires n == MatchLength(proposal, Greedy(m, s.output, |proposal| + 1)[|s.output|..])
    requires t.output == Greedy(m, s.output, Min(n + 1, end - |s.output|))
    requires t.stats == SpeculativeStats(s.stats.steps + 1, s.stats.proposalSteps + 1, s.stats.proposed + |proposal|,
                                         s.stats.accepted + n, s.stats.bonus + 1, s.stats.fallback)
    ensures Iterates(m, c, p, end, s, proposal, t)
  {
    hide Greedy, Proposes, NonNegative, MatchLength;
  }

  lemma FallbackIteration(m: Model, c: SpeculativeConfig, p: Proposer, end: nat, s: SpeculativeState,
                          proposal: seq<int>, t: SpeculativeState)
    requires |s.output| < end && Proposes(p, s.output, Min(c.blockSize, end - |s.output| - 1), proposal)
    requires |proposal| < c.minProposal || !Verifiable(m, s.output, proposal)
    requires t.output == Greedy(m, s.output, 1)
    requires var tried := |proposal| >= c.minProposal;
             t.stats == SpeculativeStats(s.stats.steps + 1, s.stats.proposalSteps + (if tried then 1 else 0),
                                         s.stats.proposed + (if tried then |proposal| else 0), s.stats.accepted,
                                         s.stats.bonus, s.stats.fallback + 1)
    ensures Iterates(m, c, p, end, s, proposal, t)
  {
    hide Greedy, Proposes, NonNegative, MatchLength;
  }

  /** One decode by plain greedy generation. */
  method Fallback(state: CPUDecodeState, ghost prepared: seq<int>, ghost maxTokens: nat, ghost n: nat)
    returns (ok: bool)
    requires SourcesOk(state.m) && prepared != [] && n < maxTokens
    requires state.output == Greedy(state.m, prepared, n) && |state.output| == |prepared| + n
    modifies state`output
    ensures state.output == Greedy(state.m, old(state.output), 1)
    ensures ok ==> state.output == Greedy(state.m, prepared, n + 1) && |state.output| == |prepared| + n + 1
    ensures !ok ==> state.output == Greedy(state.m, prepared, n) == Greedy(state.m, prepared, maxTokens)
  {
    hide SourcesOk, TokensOk, Next, Greedy;
    var m := state.m;
    ghost var before := state.output;
    GreedySplit(m, prepared, n, 1);
    GreedyStep(m, before);
    ok := state.GenerateGreedy(1);
    if !ok {
      GreedyShort(m, prepared, n, maxTokens);
    }
  }

  lemma GreedyStep(m: Model, tokens: seq<int>)
    requires tokens != []
    ensures Greedy(m, tokens, 1) == if TokensOk(m, tokens) then tokens + [Next(m, tokens)] else tokens
  {
    GreedyNext(m, tokens, 0);
  }

  /** Verifies a proposal and commits what was accepted; a draft longer than asked for may overshoot. */
  method VerifyProposal(state: CPUDecodeState, proposal: seq<int>, ghost prepared: seq<int>, ghost n: nat)
    returns (ok: bool, acceptedLen: nat)
    requires SourcesOk(state.m) && WellFormed(state.m) && prepared != [] && |proposal| < MAX_INT
    requires state.output == Greedy(state.m, prepared, n) && |state.output| == |prepared| + n
    modifies state`output
    ensures ok <==> Verifiable(state.m, old(state.output), proposal)
    ensures ok ==>
              acceptedLen == MatchLength(proposal, Greedy(state.m, old(state.output), |proposal| + 1)[
                                         |old(state.output)|..]) <= |proposal|
    ensures ok ==> state.output == Greedy(state.m, old(state.output), acceptedLen + 1)
    ensures ok ==>
              state.output == Greedy(state.m, prepared, n + acceptedLen + 1)
              && |state.output| == |prepared| + n + acceptedLen + 1
    ensures !ok ==> state.output == old(state.output)
  {
    hide SourcesOk, WellFormed, TokensOk, Next, Greedy;
    var checkpoint := |state.output|;
    var acceptance := state.VerifyGreedyBlock(proposal);
    if acceptance.Err? {
      return false, 0;
    }
    ghost var before := state.output;
    acceptedLen := acceptance.value.acceptedPrefixLen;
    LongestMatchUnique(proposal, Greedy(state.m, before, |proposal| + 1)[|before|..], acceptedLen,
                       MatchLength(proposal, Greedy(state.m, before, |proposal| + 1)[|before|..]));
    GreedySplit(state.m, prepared, n, acceptedLen + 1);
    assert before[..checkpoint] == before;
    ok := state.CommitAcceptedOutputOnly(checkpoint, acceptance.value);
    if !ok {
      assert false;
    }
  }

  /** What the loop has emitted and counted after `n` new tokens. */
  ghost predicate Counted(respects: bool, stats: SpeculativeStats, n: nat) {
    && stats.EmittedTokens() >= n && (respects ==> stats.EmittedTokens() == n)
    && stats.Consistent()
  }

  /** Speculative generation returns exactly the greedy continuation, whatever is proposed. On a run
      no row of which is rejected, accepted, bonus and fallback tokens add up to `maxTokens`. */
  method GenerateSpeculativeWithStats(m: Model, batched: bool, prepared: seq<int>, maxTokens: int,
                                      cfg: SpeculativeConfig, p: Proposer)
    returns (out: seq<int>, stats: SpeculativeStats, ghost trace: seq<SpeculativeState>,
             ghost proposals: seq<seq<int>>)
    requires SourcesOk(m) && WellFormed(m) && prepared != [] && Sized(p)
    ensures cfg.enabled && maxTokens > MAX_INT - |prepared| ==> out == prepared
    ensures 0 < maxTokens && !(cfg.enabled && maxTokens > MAX_INT - |prepared|) ==>
              out == Greedy(m, prepared, maxTokens)
    ensures maxTokens <= 0 ==> out == prepared
    ensures stats.Consistent()
    ensures !(cfg.enabled && 0 < maxTokens <= MAX_INT - |prepared|) ==> stats == SpeculativeStats(0, 0, 0, 0, 0, 0)
    ensures cfg.enabled && 0 < maxTokens <= MAX_INT - |prepared| ==>
              SpeculativeRun(m, cfg.Normalize(), p, |prepared| + maxTokens, prepared, trace, proposals,
                             SpeculativeState(out, stats))
    ensures Respects(p) && cfg.enabled && 0 < maxTokens <= MAX_INT - |prepared| ==>
              stats.EmittedTokens() == if |out| == |prepared| + maxTokens then maxTokens else |out| - |prepared| + 1
  {
    hide SourcesOk, WellFormed, TokensOk, Next, Greedy, Respects, Sized, NonNegative;
    stats, trace, proposals := SpeculativeStats(0, 0, 0, 0, 0, 0), [], [];
    if !cfg.enabled || maxTokens <= 0 {
      out := GeneratePrepared(m, batched, prepared, maxTokens);
      return;
    }
    var c := cfg.Normalize();
    if maxTokens > MAX_INT - |prepared| {
      return prepared, stats, [], [];
    }
    out, stats, trace, proposals := Speculate(m, batched, prepared, maxTokens, c, p);
  }

  /** The speculative loop proper. */
  method Speculate(m: Model, batched: bool, prepared: seq<int>, maxTokens: nat, c: SpeculativeConfig, p: Proposer)
    returns (out: seq<int>, stats: SpeculativeStats, ghost trace: seq<SpeculativeState>,
             ghost proposals: seq<seq<int>>)
    requires SourcesOk(m) && WellFormed(m) && prepared != [] && 0 < maxTokens <= MAX_INT - |prepared| && Sized(p)
    requires c.blockSize > 0 && c.minProposal > 0
    ensures out == Greedy(m, prepared, maxTokens) && |out| >= |prepared|
    ensures SpeculativeRun(m, c, p, |prepared| + maxTokens, prepared, trace, proposals, SpeculativeState(out, stats))
    ensures Counted(Respects(p), stats, if |out| == |prepared| + maxTokens then maxTokens else |out| - |prepared| + 1)
  {
    stats := SpeculativeStats(0, 0, 0, 0, 0, 0);
    NothingCounted(Respects(p));
    hide *;
    RunStarts(m, c, p, |prepared| + maxTokens, prepared, SpeculativeState(prepared, stats));
    trace, proposals := [SpeculativeState(prepared, stats)], [];
    var state := new CPUDecodeState(m, batched, prepared);
    GreedyZero(m, prepared);
    while |state.output| < |prepared| + maxTokens
      invariant |prepared| <= |state.output| <= |prepared| + maxTokens
      invariant state.output == Greedy(m, prepared, |state.output| - |prepared|)
      invariant Counted(Respects(p), stats, |state.output| - |prepared|)
      invariant SpeculativeRun(m, c, p, |prepared| + maxTokens, prepared, trace, proposals,
                               SpeculativeState(state.output, stats)) && LastGrew(trace)
      decreases |prepared| + maxTokens - |state.output|
    {
      var stepped;
      stepped, stats, trace, proposals := TracedStep(state, prepared, maxTokens, c, p, stats, trace, proposals);
      if !stepped {
        return state.output, stats, trace, proposals;
      }
    }
    return state.output, stats, trace, proposals;
  }

  lemma NothingCounted(respects: bool)
    ensures Counted(respects, SpeculativeStats(0, 0, 0, 0, 0, 0), 0)
  {
  }

  /** Tries a proposal; what overshoots the last token is cut off. */
  method TryProposal(state: CPUDecodeState, proposal: seq<int>, prepared: seq<int>, maxTokens: nat, ghost n: nat)
    returns (ok: bool, acceptedLen: nat)
    requires SourcesOk(state.m) && WellFormed(state.m) && prepared != [] && |proposal| < MAX_INT
    requires state.output == Greedy(state.m, prepared, n) && |state.output| == |prepared| + n && n < maxTokens
    modifies state`output
    ensures ok <==> Verifiable(state.m, old(state.output), proposal)
    ensures ok ==>
              acceptedLen == MatchLength(proposal, Greedy(state.m, old(state.output), |proposal| + 1)[
                                         |old(state.output)|..]) <= |proposal|
    ensures ok ==>
              var end := Min(n + acceptedLen + 1, maxTokens);
              && state.output == Greedy(state.m, prepared, end) && |state.output| == |prepared| + end
              && state.output == Greedy(state.m, old(state.output), end - n)
    ensures !ok ==> state.output == old(state.output)
  {
    hide SourcesOk, WellFormed, TokensOk, Next, Greedy, NonNegative, Verifiable, MatchLength;
    ghost var o := state.output;
    ok, acceptedLen := VerifyProposal(state, proposal, prepared, n);
    if ok && |state.output| > |prepared| + maxTokens {
      GreedyPrefix(state.m, prepared, maxTokens, n + acceptedLen + 1);
      GreedyPrefix(state.m, o, maxTokens - n, acceptedLen + 1);
      state.output := state.output[..|prepared| + maxTokens];
    }
  }

  /** One iteration: propose, then verify and commit, or fall back to one plain token. */
  method SpeculativeStep(state: CPUDecodeState, prepared: seq<int>, maxTokens: nat, c: SpeculativeConfig, p: Proposer,
                         before: SpeculativeStats)
    returns (ok: bool, stats: SpeculativeStats, ghost proposed: seq<int>)
    requires SourcesOk(state.m) && WellFormed(state.m) && prepared != [] && maxTokens <= MAX_INT - |prepared|
             && Sized(p)
    requires c.blockSize > 0 && c.minProposal > 0
    requires |prepared| <= |state.output| < |prepared| + maxTokens
    requires state.output == Greedy(state.m, prepared, |state.output| - |prepared|)
    modifies state`output
    ensures ok ==> |old(state.output)| < |state.output| <= |prepared| + maxTokens
    ensures ok ==> state.output == Greedy(state.m, prepared, |state.output| - |prepared|)
    ensures !ok ==> state.output == Greedy(state.m, prepared, maxTokens) && |state.output| == |old(state.output)|
    ensures Respects(p) ==> |proposed| < |prepared| + maxTokens - |old(state.output)|
    ensures Iterates(state.m, c, p, |prepared| + maxTokens, SpeculativeState(old(state.output), before), proposed,
                     SpeculativeState(state.output, stats))
  {
    hide *;
    ghost var n := |state.output| - |prepared|;
    stats := before.(steps := before.steps + 1);
    var remaining := |prepared| + maxTokens - |state.output|;
    var block := if c.blockSize > remaining - 1 then remaining - 1 else c.blockSize;
    Smaller(c.blockSize, remaining - 1);
    var proposal := Propose(p, state.output, block);
    ProposalLength(p, state.output, block, proposal);
    proposed := proposal;
    ghost var o := state.output;
    var verified, acceptedLen := false, 0;
    if |proposal| >= c.minProposal {
      stats := stats.(proposalSteps := stats.proposalSteps + 1, proposed := stats.proposed + |proposal|);
      verified, acceptedLen := TryProposal(state, proposal, prepared, maxTokens, n);
    }
    if verified {
      Smaller(n + acceptedLen + 1, maxTokens);
      Smaller(acceptedLen + 1, remaining);
      stats := stats.(accepted := stats.accepted + acceptedLen, bonus := stats.bonus + 1);
      AcceptedIteration(state.m, c, p, |prepared| + maxTokens, SpeculativeState(o, before), proposal, acceptedLen,
                        SpeculativeState(state.output, stats));
      return true, stats, proposed;
    }
    stats := stats.(fallback := stats.fallback + 1);
    ok := Fallback(state, prepared, maxTokens, n);
    FallbackIteration(state.m, c, p, |prepared| + maxTokens, SpeculativeState(o, before), proposal,
                      SpeculativeState(state.output, stats));
  }

  lemma Smaller(a: int, b: int)
    ensures Min(a, b) == if a > b then b else a
  {
  }

  /** One iteration at the end of a run. */
  method TracedStep(state: CPUDecodeState, prepared: seq<int>, maxTokens: nat, c: SpeculativeConfig, p: Proposer,
                    before: SpeculativeStats, ghost past: seq<SpeculativeState>, ghost tried: seq<seq<int>>)
    returns (ok: bool, stats: SpeculativeStats, ghost trace: seq<SpeculativeState>, ghost proposals: seq<seq<int>>)
    requires SourcesOk(state.m) && WellFormed(state.m) && prepared != [] && maxTokens <= MAX_INT - |prepared|
             && Sized(p)
    requires c.blockSize > 0 && c.minProposal > 0
    requires |prepared| <= |state.output| < |prepared| + maxTokens
    requires state.output == Greedy(state.m, prepared, |state.output| - |prepared|)
    requires Counted(Respects(p), before, |state.output| - |prepared|)
    requires SpeculativeRun(state.m, c, p, |prepared| + maxTokens, prepared, past, tried,
                            SpeculativeState(state.output, before)) && LastGrew(past)
    modifies state`output
    ensures ok ==> |old(state.output)| < |state.output| <= |prepared| + maxTokens
    ensures ok ==> state.output == Greedy(state.m, prepared, |state.output| - |prepared|)
    ensures !ok ==> state.output == Greedy(state.m, prepared, maxTokens) && |state.output| == |old(state.output)|
    ensures Counted(Respects(p), stats, |state.output| - |prepared| + if ok then 0 else 1)
    ensures SpeculativeRun(state.m, c, p, |prepared| + maxTokens, prepared, trace, proposals,
                           SpeculativeState(state.output, stats)) && (ok ==> LastGrew(trace))
  {
    hide *;
    ghost var s := SpeculativeState(state.output, before);
    ghost var proposal;
    ok, stats, proposal := SpeculativeStep(state, prepared, maxTokens, c, p, before);
    ghost var t := SpeculativeState(state.output, stats);
    RunGrows(state.m, c, p, |prepared| + maxTokens, prepared, past, tried, s, proposal, t);
    IterationCounted(state.m, c, p, |prepared| + maxTokens, s, proposal, t, |s.output| - |prepared|);
    trace, proposals := past + [t], tried + [proposal];
  }

  /** An accepted proposal counts its accepted tokens and the bonus token. */
  lemma AcceptedCounted(respects: bool, before: SpeculativeStats, after: SpeculativeStats, n: nat, proposal: nat,
                        accepted: nat, room: nat)
    requires Counted(respects, before, n) && 0 < proposal && accepted <= proposal && (respects ==> proposal < room)
    requires after == SpeculativeStats(before.steps + 1, before.proposalSteps + 1, before.proposed + proposal,
                                       before.accepted + accepted, before.bonus + 1, before.fallback)
    ensures Counted(respects, after, n + Min(accepted + 1, room))
  {
  }

  /** Any other iteration counts one fallback. */
  lemma FallbackCounted(respects: bool, before: SpeculativeStats, after: SpeculativeStats, n: nat, proposal: nat)
    requires Counted(respects, before, n)
    requires after == before.(steps := before.steps + 1, fallback := before.fallback + 1) ||
             (proposal > 0 && after == before.(steps := before.steps + 1, proposalSteps := before.proposalSteps + 1,
                                       proposed := before.proposed + proposal,
                                       fallback := before.fallback + 1))
    ensures Counted(respects, after, n + 1)
  {
  }

  lemma EmittedLength(m: Model, o: seq<int>, proposal: seq<int>, n: nat)
    requires Verifiable(m, o, proposal) && n <= |proposal| + 1
    ensures |Greedy(m, o, n)| == |o| + n
  {
    hide Greedy, NonNegative;
    GreedyPrefix(m, o, n, |proposal| + 1);
  }

  /** The counters keep agreeing, and add up to the tokens emitted when no proposal is too long. */
  lemma IterationCounted(m: Model, c: SpeculativeConfig, p: Proposer, end: nat, s: SpeculativeState,
                         proposal: seq<int>, t: SpeculativeState, n: nat)
    requires c.blockSize > 0 && c.minProposal > 0 && s.output != [] && Counted(Respects(p), s.stats, n)
    requires Iterates(m, c, p, end, s, proposal, t)
    requires Respects(p) ==> |proposal| <= end - |s.output| - 1
    ensures var grown := |t.output| - |s.output|;
            grown >= 0 && Counted(Respects(p), t.stats, n + if grown > 0 then grown else 1)
  {
    hide Greedy, Next, TokensOk, NonNegative, Respects, Counted, Proposes, Verifiable, LongestMatch;
    var o := s.output;
    if |proposal| >= c.minProposal && Verifiable(m, o, proposal) {
      var k := MatchLength(proposal, Greedy(m, o, |proposal| + 1)[|o|..]);
      MatchBound(proposal, Greedy(m, o, |proposal| + 1)[|o|..]);
      EmittedLength(m, o, proposal, Min(k + 1, end - |o|));
      AcceptedCounted(Respects(p), s.stats, t.stats, n, |proposal|, k, end - |o|);
    } else {
      GreedyStep(m, o);
      FallbackCounted(Respects(p), s.stats, t.stats, n, |proposal|);
    }
  }

  lemma MatchBound(a: seq<int>, b: seq<int>)
    ensures MatchLength(a, b) <= |a|
  {
  }

  lemma ProposalLength(p: Proposer, context: seq<int>, max: nat, proposal: seq<int>)
    requires Proposes(p, context, max, proposal) && (!p.Custom? ==> |proposal| <= max)
    requires Sized(p) && 0 <= max < MAX_INT
    ensures |proposal| < MAX_INT
    ensures Respects(p) ==> |proposal| <= max
  {
  }
}
