/** The observable state of a resumable decode session as a value, its transitions, and the facts
    every run keeps. */
module SessionSpec {
  import opened Transformer
  import opened Decoding
  import opened Acceptance
  import opened Wrappers

  datatype FinishReason = Running | Length | StopToken | Closed

  datatype Config = Config(m: Model, maxTokens: nat, stops: set<int>, prompt: seq<int>)

  /** `pendingLogits` mirrors a slice: None is nil, Some([]) is empty but not nil. */
  datatype View = View(
    output: seq<int>,
    generated: int,
    pendingLogits: Option<seq<real>>,
    pendingToken: int,
    finished: bool,
    finish: FinishReason,
    kv: seq<seq<KV>>)

  /** State right after the whole prompt has been prefilled. */
  ghost function Initial(cfg: Config): (v: View)
    requires cfg.prompt != []
    ensures v.output == cfg.prompt
  {
    if cfg.maxTokens > 0 then
      View(cfg.prompt, 0, Some(LogitsAfter(cfg.m, cfg.prompt)), Next(cfg.m, cfg.prompt), false, Running,
           TrueCaches(cfg.m, cfg.prompt))
    else
      View(cfg.prompt, 0, None, 0, true, Length, TrueCaches(cfg.m, cfg.prompt))
  }

  /** One decode step: emit the pending boundary token, or run the last output token and emit the
      greedy token after it. A finished session does not move. */
  ghost function Step(cfg: Config, v: View): View
    requires v.output != []
  {
    if v.finished then v
    else
      var tok := if v.pendingLogits.Some? then v.pendingToken else Next(cfg.m, v.output);
      var n := v.generated + 1;
      View(v.output + [tok], n, None, 0,
           tok in cfg.stops || n >= cfg.maxTokens,
           if tok in cfg.stops then StopToken else if n >= cfg.maxTokens then Length else v.finish,
           if v.pendingLogits.Some? then v.kv else TrueCaches(cfg.m, v.output))
  }

  /** Appending a decided token and setting the finish state. */
  function Emit(cfg: Config, v: View, tok: int): View {
    var n := v.generated + 1;
    v.(output := v.output + [tok], generated := n,
    finished := v.finished || tok in cfg.stops || n >= cfg.maxTokens,
                finish := if tok in cfg.stops then StopToken else if n >= cfg.maxTokens then Length else v.finish)
  }

  /** What producing the next token leaves: pending values consumed, or one more run row cached. */
  ghost function AfterNext(cfg: Config, v: View): View {
    v.(pendingLogits := None, pendingToken := 0, kv := if v.pendingLogits.Some? then v.kv
    else TrueCaches(cfg.m, v.output))
  }

  ghost predicate CanStep(cfg: Config, v: View) {
    v.finished || v.pendingLogits.Some? || TokensOk(cfg.m, v.output)
  }

  ghost function Steps(cfg: Config, v: View, n: nat): (r: View)
    requires v.output != []
    ensures v.output <= r.output && v.generated <= r.generated
  {
    if n == 0 then v else Step(cfg, Steps(cfg, v, n - 1))
  }

  ghost predicate StepsOk(cfg: Config, v: View, n: nat)
    requires v.output != []
  {
    n == 0 || (StepsOk(cfg, v, n - 1) && CanStep(cfg, Steps(cfg, v, n - 1)))
  }

  /** The state is the one `generated` plain decode steps produce from the prefilled prompt. */
  ghost predicate OnTrack(cfg: Config, v: View) {
    && cfg.prompt != [] && TokensOk(cfg.m, cfg.prompt) && v.generated >= 0
    && StepsOk(cfg, Initial(cfg), v.generated)
    && v == Steps(cfg, Initial(cfg), v.generated)
  }

  /** What every such state satisfies. */
  ghost predicate TrackFacts(cfg: Config, v: View) {
    && cfg.prompt != [] && cfg.prompt <= v.output && 0 <= v.generated == |v.output| - |cfg.prompt| <= cfg.maxTokens
    && (v.pendingLogits.Some? <==> v.generated == 0 && cfg.maxTokens > 0)
    && (v.pendingLogits.Some? ==>
          v.pendingLogits.value == LogitsAfter(cfg.m, v.output) && v.pendingToken == Next(cfg.m, v.output))
    && (v.pendingLogits.None? ==> v.pendingToken == 0)
    && v.kv == TrueCaches(cfg.m, if v.generated == 0 then v.output else v.output[..|v.output| - 1])
    && TokensOk(cfg.m, if v.generated == 0 then v.output else v.output[..|v.output| - 1])
    && v.output == Greedy(cfg.m, cfg.prompt, v.generated)
    && (v.finished <==> v.generated == cfg.maxTokens || StopsAt(cfg, v))
    && v.finish == if !v.finished then Running else if StopsAt(cfg, v) then StopToken else Length
  }

  /** The last token is a generated one and a stop token. */
  ghost predicate StopsAt(cfg: Config, v: View) {
    v.generated > 0 && v.output != [] && v.output[|v.output| - 1] in cfg.stops
  }

  lemma InitialFacts(cfg: Config)
    requires cfg.prompt != [] && TokensOk(cfg.m, cfg.prompt)
    ensures TrackFacts(cfg, Initial(cfg)) && OnTrack(cfg, Initial(cfg))
  {
    hide TrueCaches, LogitsAfter, TokensOk;
  }

  lemma StepFacts(cfg: Config, v: View)
    requires TrackFacts(cfg, v) && CanStep(cfg, v) && !v.finished
    ensures TrackFacts(cfg, Step(cfg, v))
    ensures Step(cfg, v).output == v.output + [Next(cfg.m, v.output)]
  {
    hide TrueCaches, LogitsAfter, TokensOk, Next;
    var w := Step(cfg, v);
    assert w.output[..|w.output| - 1] == v.output;
    GreedySplit(cfg.m, cfg.prompt, v.generated, 1);
    assert Greedy(cfg.m, w.output, 0) == w.output;
  }

  /** Every on-track state satisfies the facts, and stepping stays on track. */
  lemma {:induction false} TrackInvariant(cfg: Config, n: nat)
    requires cfg.prompt != [] && TokensOk(cfg.m, cfg.prompt) && StepsOk(cfg, Initial(cfg), n)
    ensures var v := Steps(cfg, Initial(cfg), n); TrackFacts(cfg, v) && OnTrack(cfg, v)
    ensures !Steps(cfg, Initial(cfg), n).finished ==> Steps(cfg, Initial(cfg), n).generated == n
  {
    hide TrackFacts, Initial, TrueCaches, TokensOk, Next;
    if n == 0 {
      InitialFacts(cfg);
    } else {
      TrackInvariant(cfg, n - 1);
      var v := Steps(cfg, Initial(cfg), n - 1);
      if !v.finished {
        StepFacts(cfg, v);
      }
    }
  }

  /** Why plain decoding has finished after `n` steps: its last token is a stop token, or else the budget is
      used up. */
  lemma StepsFinish(cfg: Config, n: nat)
    requires cfg.prompt != [] && TokensOk(cfg.m, cfg.prompt) && StepsOk(cfg, Initial(cfg), n)
    ensures var v := Steps(cfg, Initial(cfg), n);
            var stopped := v.generated > 0 && v.output != [] && v.output[|v.output| - 1] in cfg.stops;
            && (v.finished <==> v.generated == cfg.maxTokens || stopped)
            && v.finish == if !v.finished then Running else if stopped then StopToken else Length
  {
    hide Steps, Initial, StepsOk, TokensOk, TrackFacts, OnTrack;
    TrackInvariant(cfg, n);
    FactsFinish(cfg, Steps(cfg, Initial(cfg), n));
  }

  lemma FactsFinish(cfg: Config, v: View)
    requires TrackFacts(cfg, v)
    ensures var stopped := v.generated > 0 && v.output != [] && v.output[|v.output| - 1] in cfg.stops;
            && (v.finished <==> v.generated == cfg.maxTokens || stopped)
            && v.finish == if !v.finished then Running else if stopped then StopToken else Length
  {
    hide TrueCaches, TokensOk, Greedy, LogitsAfter, Next;
  }

  lemma OnTrackFacts(cfg: Config, v: View)
    requires OnTrack(cfg, v)
    ensures TrackFacts(cfg, v)
  {
    TrackInvariant(cfg, v.generated);
  }

  lemma TrackTokens(cfg: Config, v: View)
    requires OnTrack(cfg, v)
    ensures TokensOk(cfg.m, cfg.prompt)
  {
  }

  /** A step of an unfinished on-track session emits the greedy token. */
  lemma StepEmitsNext(cfg: Config, v: View)
    requires OnTrack(cfg, v) && !v.finished
    ensures v.output != [] && Step(cfg, v) == Emit(cfg, AfterNext(cfg, v), Next(cfg.m, v.output))
  {
    OnTrackFacts(cfg, v);
  }

  lemma StepFinish(cfg: Config, v: View)
    requires OnTrack(cfg, v) && !v.finished
    ensures v.output != []
    ensures Step(cfg, v).finish == if Next(cfg.m, v.output) in cfg.stops then StopToken
                                   else if v.generated + 1 == cfg.maxTokens then Length else Running
  {
    hide OnTrack, TrueCaches, LogitsAfter, TokensOk, Next, Greedy;
    OnTrackFacts(cfg, v);
  }

  lemma StepStaysOnTrack(cfg: Config, v: View)
    requires OnTrack(cfg, v) && CanStep(cfg, v)
    ensures OnTrack(cfg, Step(cfg, v))
  {
    hide TrackFacts, Initial, TrueCaches, TokensOk, Next, CanStep;
    assert v.output != [];
    assert v.finished ==> Step(cfg, v) == v;
    hide Step;
    if !v.finished {
      var n: nat := v.generated + 1;
      assert StepsOk(cfg, Initial(cfg), n) && Steps(cfg, Initial(cfg), n) == Step(cfg, v);
      hide OnTrack;
      TrackInvariant(cfg, n);
    }
  }

  lemma {:induction false} StepsStayOnTrack(cfg: Config, v: View, n: nat)
    requires OnTrack(cfg, v) && v.output != [] && StepsOk(cfg, v, n)
    ensures OnTrack(cfg, Steps(cfg, v, n))
  {
    if n > 0 {
      StepsStayOnTrack(cfg, v, n - 1);
      StepStaysOnTrack(cfg, Steps(cfg, v, n - 1));
    }
  }

  // ---------------------------------------------------------------------------------------------
  // Checkpoints

  /** Lengths and scalars only: no token and no K/V row is copied. */
  datatype SessionCheckpoint = SessionCheckpoint(
    sessionId: nat,
    outputLen: nat,
    generated: int,
    finished: bool,
    finish: FinishReason,
    pendingLogits: seq<real>,
    pendingToken: int,
    kvLen: seq<nat>)

  function CheckpointOf(id: nat, v: View): SessionCheckpoint {
    SessionCheckpoint(id, |v.output|, v.generated, v.finished, v.finish,
                      if v.pendingLogits.Some? then v.pendingLogits.value else [], v.pendingToken,
                      seq(|v.kv|, l requires 0 <= l < |v.kv| => |v.kv[l]|))
  }

  /** The guards of a restore. */
  ghost predicate Restorable(prompt: seq<int>, cp: SessionCheckpoint, v: View) {
    && |prompt| <= cp.outputLen <= |v.output| && cp.generated == cp.outputLen - |prompt|
    && |cp.kvLen| == |v.kv| && forall l :: 0 <= l < |v.kv| ==> cp.kvLen[l] <= |v.kv[l]|
  }

  /** What a restore leaves: truncated output and caches, and the recorded scalars. The restored
      pending logits reuse the session's slice, so they stay non-nil when it was non-nil. */
  function Restored(cp: SessionCheckpoint, v: View): View
    requires cp.outputLen <= |v.output|
    requires |cp.kvLen| == |v.kv| && forall l :: 0 <= l < |v.kv| ==> cp.kvLen[l] <= |v.kv[l]|
  {
    View(v.output[..cp.outputLen], cp.generated,
         if v.pendingLogits.None? && cp.pendingLogits == [] then None else Some(cp.pendingLogits),
         cp.pendingToken, cp.finished, cp.finish,
         seq(|v.kv|, l requires 0 <= l < |v.kv| => v.kv[l][..cp.kvLen[l]]))
  }

  /** A length-only restore recovers the checkpointed state exactly when that state's output and
      caches are still prefixes of the current ones and nil pending logits stay nil. */
  lemma RestoreRecovers(prompt: seq<int>, id: nat, v0: View, v: View)
    requires Restorable(prompt, CheckpointOf(id, v0), v)
    ensures Restored(CheckpointOf(id, v0), v) == v0 <==>
            && v0.output <= v.output && OnlyAppended(v0.kv, v.kv)
            && (v0.pendingLogits.None? ==> v.pendingLogits.None?)
            && (v0.pendingLogits == Some([]) ==> v.pendingLogits.Some?)
  {
    var r := Restored(CheckpointOf(id, v0), v);
    if v0.output <= v.output && OnlyAppended(v0.kv, v.kv) {
      assert r.output == v0.output;
      forall l | 0 <= l < |v.kv|
        ensures r.kv[l] == v0.kv[l]
      {
        assert v0.kv[l] <= v.kv[l];
      }
      assert r.kv == v0.kv;
    }
    if r == v0 {
      forall l | 0 <= l < |v.kv|
        ensures v0.kv[l] <= v.kv[l]
      {
        assert r.kv[l] == v0.kv[l];
      }
    }
  }

  /** Two on-track states of one session: the shorter output is a prefix of the longer, and so are
      its caches, so whatever is staged on top can be rolled back. */
  lemma TrackPrefix(cfg: Config, v0: View, v: View)
    requires OnTrack(cfg, v0) && OnTrack(cfg, v) && v0.generated <= v.generated
    ensures v0.output <= v.output && OnlyAppended(v0.kv, v.kv) && (v0.pendingLogits.None? ==> v.pendingLogits.None?)
  {
    OnTrackFacts(cfg, v0);
    OnTrackFacts(cfg, v);
    hide OnTrack;
    FactsPrefix(cfg, v0, v);
  }

  lemma FactsPrefix(cfg: Config, v0: View, v: View)
    requires TrackFacts(cfg, v0) && TrackFacts(cfg, v) && v0.generated <= v.generated
    ensures v0.output <= v.output && OnlyAppended(v0.kv, v.kv) && (v0.pendingLogits.None? ==> v.pendingLogits.None?)
  {
    hide TrueCaches, Greedy, TokensOk, LogitsAfter, Next, OnlyAppended;
    GreedySplit(cfg.m, cfg.prompt, v0.generated, v.generated - v0.generated);
    assert v0.output <= v.output;
    var a := if v0.generated == 0 then v0.output else v0.output[..|v0.output| - 1];
    var b := if v.generated == 0 then v.output else v.output[..|v.output| - 1];
    TrueCachesPrefix(cfg.m, a, b);
  }

  lemma TrueCachesPrefix(m: Model, a: seq<int>, b: seq<int>)
    requires a <= b
    ensures OnlyAppended(TrueCaches(m, a), TrueCaches(m, b))
  {
    hide HiddenAt, KVAt;
    var rest := b[|a|..];
    assert a + rest == b;
    Extend(m, a, rest);
    var run := RunOf(m, rest, |a|, TrueCaches(m, a));
    forall l | 0 <= l < |m.layers| && m.layers[l].hasKV {
      CachePrefix(m, run, l, 0, |rest|);
    }
  }

  /** Restoring an own checkpoint no longer than the current output returns the checkpointed state,
      in every run of plain steps, verified drafts, checkpoints and restores. */
  lemma RestoreOwnCheckpoint(cfg: Config, id: nat, v0: View, v: View)
    requires WellFormed(cfg.m) && OnTrack(cfg, v0) && OnTrack(cfg, v) && |v0.output| <= |v.output|
    ensures Restorable(cfg.prompt, CheckpointOf(id, v0), v)
    ensures Restored(CheckpointOf(id, v0), v) == v0
  {
    hide OnTrack, TrackFacts, TrueCaches, Restored, WellFormed, OnlyAppended;
    TrackLengths(cfg, v0);
    TrackLengths(cfg, v);
    TrackPrefix(cfg, v0, v);
    RollBack(cfg, id, v0, v);
  }

  lemma TrackLengths(cfg: Config, v: View)
    requires OnTrack(cfg, v)
    ensures v.generated == |v.output| - |cfg.prompt|
  {
    OnTrackFacts(cfg, v);
  }

  /** `w` is what restoring the checkpoint of `v0` makes of `v`. */
  ghost predicate Returned(cfg: Config, id: nat, v0: View, v: View, w: View) {
    Restorable(cfg.prompt, CheckpointOf(id, v0), v) && w == Restored(CheckpointOf(id, v0), v)
  }

  // ---------------------------------------------------------------------------------------------
  // Runs of steps

  lemma {:induction false} StepsOkBefore(cfg: Config, v: View, k: nat, n: nat)
    requires v.output != [] && k <= n && StepsOk(cfg, v, n)
    ensures StepsOk(cfg, v, k)
  {
    hide CanStep, Step;
    if k < n {
      StepsOkBefore(cfg, v, k, n - 1);
    }
  }

  lemma StepsBlocked(cfg: Config, v: View, k: nat, n: nat)
    requires v.output != [] && k < n && !CanStep(cfg, Steps(cfg, v, k))
    ensures !StepsOk(cfg, v, n)
  {
    hide CanStep, Step, Steps;
    if StepsOk(cfg, v, n) {
      StepsOkBefore(cfg, v, k + 1, n);
    }
  }

  /** A finished session stays as it is. */
  lemma {:induction false} FinishedStays(cfg: Config, v: View, k: nat, n: nat)
    requires v.output != [] && k <= n && Steps(cfg, v, k).finished
    ensures Steps(cfg, v, n) == Steps(cfg, v, k)
    ensures StepsOk(cfg, v, k) ==> StepsOk(cfg, v, n)
  {
    hide TrueCaches, Next, TokensOk;
    if k < n {
      FinishedStays(cfg, v, k, n - 1);
    }
  }

  /** Rolling staged tokens back: the restore is accepted and returns the staged-from state, even
      when a failed step left extra cache rows. */
  lemma RollBack(cfg: Config, id: nat, v0: View, w: View)
    requires WellFormed(cfg.m) && OnTrack(cfg, v0)
    requires v0.output <= w.output && OnlyAppended(v0.kv, w.kv) && (v0.pendingLogits.None? ==> w.pendingLogits.None?)
    ensures Restorable(cfg.prompt, CheckpointOf(id, v0), w)
    ensures Restored(CheckpointOf(id, v0), w) == v0
  {
    hide OnTrack, TrueCaches, LogitsAfter, TokensOk, Greedy, WellFormed, Restored;
    OnTrackFacts(cfg, v0);
    NextInVocabulary(cfg.m, v0.output);
    RestoreRecovers(cfg.prompt, id, v0, w);
  }

  // ---------------------------------------------------------------------------------------------
  // Draft verification

  /** The guards of draft verification. */
  predicate DraftOk(cfg: Config, v: View, drafted: seq<int>) {
    && !v.finished && 0 < |drafted| <= MAX_DRAFT_COUNT
    && (forall i :: 0 <= i < |drafted| ==> 0 <= drafted[i] < cfg.m.vocab)
    && v.generated + |drafted| + 1 <= cfg.maxTokens
  }

  /** `n` plain steps succeed and none finishes the session before the last. */
  ghost predicate Stageable(cfg: Config, v: View, n: nat)
    requires v.output != []
  {
    n > 0 && StepsOk(cfg, v, n) && !Steps(cfg, v, n - 1).finished
  }

  /** The acceptance of `drafted` against the tokens plain steps would emit. */
  ghost predicate Verified(cfg: Config, v: View, drafted: seq<int>, a: MTPAcceptance)
    requires v.output != []
  {
    var plain := Steps(cfg, v, |drafted| + 1).output[|v.output|..];
    && a.Valid() && a.draftedCount == |drafted| && |plain| == |drafted| + 1
    && LongestMatch(drafted, plain, a.acceptedPrefixLen)
    && a.outputTokens == plain[..a.acceptedPrefixLen + 1]
  }

  lemma StepGrows(cfg: Config, v: View)
    requires v.output != []
    ensures v.output <= Step(cfg, v).output && |Step(cfg, v).output| <= |v.output| + 1
  {
    hide TrueCaches, Next;
  }

  lemma {:induction false} StepsGrow(cfg: Config, v: View, k: nat, n: nat)
    requires v.output != [] && k <= n
    ensures Steps(cfg, v, k).output <= Steps(cfg, v, n).output
    ensures |Steps(cfg, v, n).output| <= |Steps(cfg, v, k).output| + n - k
    decreases n
  {
    hide Step;
    if k < n {
      StepsGrow(cfg, v, k, n - 1);
      StepGrows(cfg, Steps(cfg, v, n - 1));
    }
  }

  /** Step `i` of a staged run that emitted `staged` can be taken again and emits `staged[i]`. */
  lemma StepsReplay(cfg: Config, v: View, i: nat, staged: seq<int>)
    requires v.output != [] && i < |staged| && Stageable(cfg, v, |staged|)
    requires Steps(cfg, v, |staged|).output == v.output + staged
    ensures var w := Steps(cfg, v, i); CanStep(cfg, w) && !w.finished
    ensures Steps(cfg, v, i + 1).output == v.output + staged[..i + 1]
  {
    hide Step, CanStep;
    StepsOkBefore(cfg, v, i + 1, |staged|);
    if Steps(cfg, v, i).finished {
      FinishedStays(cfg, v, i, |staged| - 1);
    }
    StepsGrow(cfg, v, i + 1, |staged|);
    StepsGrow(cfg, v, 0, i + 1);
    assert |Steps(cfg, v, i + 1).output| == |v.output| + i + 1;
    assert Steps(cfg, v, i + 1).output == (v.output + staged)[..|v.output| + i + 1];
  }

  // ---------------------------------------------------------------------------------------------
  // Forced tokens

  /** Pending boundary values dropped. */
  function Unpended(v: View): View {
    v.(pendingLogits := None, pendingToken := 0)
  }

  /** A chosen token run and appended: unlike a decode step, its own row is cached. */
  ghost function Appended(cfg: Config, v: View, token: int): View {
    Emit(cfg, Unpended(v).(kv := TrueCaches(cfg.m, v.output + [token])), token)
  }

  lemma AppendedEmits(cfg: Config, v: View, t: int)
    ensures Appended(cfg, v, t) == Emit(cfg, Unpended(v).(kv := TrueCaches(cfg.m, v.output + [t])), t)
  {
  }

  lemma AppendedFields(cfg: Config, v: View, token: int)
    ensures var w := Appended(cfg, v, token);
            && w.output == v.output + [token] && w.output[|w.output| - 1] == token
            && w.generated == v.generated + 1 && w.pendingLogits.None?
            && (w.finished <==> v.finished || token in cfg.stops || w.generated >= cfg.maxTokens)
            && w.finish == if token in cfg.stops then StopToken
                           else if w.generated >= cfg.maxTokens then Length else v.finish
  {
    hide TrueCaches;
  }

  ghost predicate BranchView(cfg: Config, v: View) {
    && cfg.prompt != [] && cfg.prompt <= v.output && v.generated == |v.output| - |cfg.prompt|
    && v.kv == TrueCaches(cfg.m, v.output) && v.pendingLogits != Some([])
  }

  /** A trunk checkpoint recovers the trunk from any state of a forced-token branch exactly when the
      trunk's tokens are still there: restoring past a rewritten token does not bring it back. */
  lemma RestoreTrunk(cfg: Config, id: nat, trunk: View, v: View)
    requires BranchView(cfg, trunk) && BranchView(cfg, v) && |trunk.output| <= |v.output|
    requires trunk.pendingLogits.None? ==> v.pendingLogits.None?
    ensures Restorable(cfg.prompt, CheckpointOf(id, trunk), v)
    ensures Restored(CheckpointOf(id, trunk), v) == trunk <==> trunk.output <= v.output
  {
    hide TrueCaches, OnlyAppended, Restored;
    RestoreRecovers(cfg.prompt, id, trunk, v);
    if trunk.output <= v.output {
      TrueCachesPrefix(cfg.m, trunk.output, v.output);
    }
  }

  lemma AppendedStaysBranch(cfg: Config, v: View, token: int)
    requires BranchView(cfg, v)
    ensures BranchView(cfg, Appended(cfg, v, token))
    ensures Appended(cfg, v, token).output == v.output + [token] && Appended(cfg, v, token).pendingLogits.None?
  {
    hide TrueCaches;
  }

  /** Two tokens tried from one trunk: the checkpoint behind the first is accepted behind the second, and
      does not bring the first back. */
  lemma StaleCheckpoint(cfg: Config, id: nat, v: View, a: int, b: int)
    requires BranchView(cfg, v) && a != b
    ensures var x, y := Appended(cfg, v, a), Appended(cfg, v, b);
            Restorable(cfg.prompt, CheckpointOf(id, x), y) && Restored(CheckpointOf(id, x), y) != x
  {
    hide BranchView, Appended, Restored, Restorable, CheckpointOf;
    AppendedStaysBranch(cfg, v, a);
    AppendedStaysBranch(cfg, v, b);
    RestoreTrunk(cfg, id, Appended(cfg, v, a), Appended(cfg, v, b));
    assert Appended(cfg, v, a).output[|v.output|] != Appended(cfg, v, b).output[|v.output|];
  }

  // ---------------------------------------------------------------------------------------------
  // Forced-token runs under stack discipline

  /** A session and the marks it may return to, innermost last. */
  datatype ForcedState = ForcedState(now: View, marks: seq<View>)

  /** A token appended (to an unfinished session), a token rejected, a checkpoint taken, or a return to mark
      `k`, which gives up the marks taken after it. */
  datatype ForcedCall = Force(token: int) | Reject | Mark | Return(k: nat)

  ghost predicate ForcedStep(cfg: Config, id: nat, s: ForcedState, call: ForcedCall, t: ForcedState) {
    match call
    case Force(token) => !s.now.finished && t == ForcedState(Appended(cfg, s.now, token), s.marks)
    case Reject => t == ForcedState(Unpended(s.now), s.marks)
    case Mark => t == ForcedState(s.now, s.marks + [s.now])
    case Return(k) => k < |s.marks| && t.marks == s.marks[..k + 1] && Returned(cfg, id, s.marks[k], s.now, t.now)
  }

  /** `w` has grown out of `v`. */
  ghost predicate GrownFrom(cfg: Config, v: View, w: View) {
    && BranchView(cfg, v) && BranchView(cfg, w) && v.output <= w.output
    && (v.pendingLogits.None? ==> w.pendingLogits.None?)
  }

  /** Every mark is a true branch state, and each has grown out of the marks below it. */
  ghost predicate Disciplined(cfg: Config, s: ForcedState) {
    BranchView(cfg, s.now) && forall i :: 0 <= i < |s.marks| ==>
                                            GrownFrom(cfg, s.marks[i], s.now) && GrownAbove(cfg, s.marks, i)
  }

  ghost predicate GrownAbove(cfg: Config, marks: seq<View>, i: nat)
    requires i < |marks|
  {
    forall j :: i < j < |marks| ==> GrownFrom(cfg, marks[i], marks[j])
  }

  /** A return under the discipline is accepted and gives back exactly the marked state. */
  lemma MarkRecovered(cfg: Config, id: nat, v: View, w: View)
    requires GrownFrom(cfg, v, w)
    ensures Restorable(cfg.prompt, CheckpointOf(id, v), w) && Restored(CheckpointOf(id, v), w) == v
  {
    hide BranchView, Restored, Restorable, CheckpointOf;
    RestoreTrunk(cfg, id, v, w);
  }

  /** Appending and rejecting only grow a state. */
  lemma StillGrown(cfg: Config, v: View, w: View, call: ForcedCall, next: View)
    requires GrownFrom(cfg, v, w) && (call.Force? || call.Reject?)
    requires next == if call.Force? then Appended(cfg, w, call.token) else Unpended(w)
    ensures GrownFrom(cfg, v, next)
  {
    if call.Force? {
      AppendedStaysBranch(cfg, w, call.token);
      hide Appended;
    }
    hide TrueCaches;
  }

  lemma StillBranch(cfg: Config, v: View)
    requires BranchView(cfg, v)
    ensures BranchView(cfg, Unpended(v)) && GrownFrom(cfg, v, v)
  {
    hide TrueCaches;
  }

  lemma DisciplineKept(cfg: Config, id: nat, s: ForcedState, call: ForcedCall, t: ForcedState)
    requires Disciplined(cfg, s) && ForcedStep(cfg, id, s, call, t)
    ensures Disciplined(cfg, t)
    ensures call.Return? ==> t.now == s.marks[call.k]
  {
    hide BranchView, GrownFrom, Appended, Unpended, Restored, Restorable, CheckpointOf;
    StillBranch(cfg, s.now);
    match call
    case Force(token) =>
      AppendedStaysBranch(cfg, s.now, token);
      forall i | 0 <= i < |s.marks|
        ensures GrownFrom(cfg, t.marks[i], t.now)
      {
        StillGrown(cfg, s.marks[i], s.now, call, t.now);
      }
    case Reject =>
      forall i | 0 <= i < |s.marks|
        ensures GrownFrom(cfg, t.marks[i], t.now)
      {
        StillGrown(cfg, s.marks[i], s.now, call, t.now);
      }
    case Mark =>
      forall i | 0 <= i < |t.marks|
        ensures GrownFrom(cfg, t.marks[i], t.now) && GrownAbove(cfg, t.marks, i)
      {
        if i < |s.marks| {
          assert GrownAbove(cfg, s.marks, i);
        }
      }
    case Return(k) =>
      MarkRecovered(cfg, id, s.marks[k], s.now);
      Grows(cfg, s.marks[k], s.now);
      forall i | 0 <= i < |t.marks|
        ensures GrownFrom(cfg, t.marks[i], t.now) && GrownAbove(cfg, t.marks, i)
      {
        assert GrownAbove(cfg, s.marks, i);
      }
  }

  lemma Grows(cfg: Config, v: View, w: View)
    requires GrownFrom(cfg, v, w)
    ensures BranchView(cfg, v) && GrownFrom(cfg, v, v)
  {
    StillBranch(cfg, v);
  }

  ghost predicate ForcedRun(cfg: Config, id: nat, run: seq<ForcedState>, calls: seq<ForcedCall>) {
    && |run| == |calls| + 1 && BranchView(cfg, run[0].now) && run[0].marks == []
    && forall i :: 0 <= i < |calls| ==> ForcedStep(cfg, id, run[i], calls[i], run[i + 1])
  }

  /** In every forced-token run that returns to its checkpoints in stack order, every state has exactly the
      true row of every output token cached, and every return gives back exactly the marked state. */
  lemma {:induction false} ForcedInvariant(cfg: Config, id: nat, run: seq<ForcedState>, calls: seq<ForcedCall>, i: nat)
    requires ForcedRun(cfg, id, run, calls) && i < |run|
    ensures Disciplined(cfg, run[i])
    ensures i > 0 && calls[i - 1].Return? ==>
              calls[i - 1].k < |run[i - 1].marks| && run[i].now == run[i - 1].marks[calls[i - 1].k]
    decreases i
  {
    hide BranchView, Disciplined;
    if i == 0 {
      NoMarks(cfg, run[0]);
    } else {
      ForcedInvariant(cfg, id, run, calls, i - 1);
      assert ForcedStep(cfg, id, run[i - 1], calls[i - 1], run[i - 1 + 1]);
      DisciplineKept(cfg, id, run[i - 1], calls[i - 1], run[i]);
    }
  }

  /** Why a state is finished: its last token is a stop token, or else the budget is used up. */
  ghost predicate Explained(cfg: Config, v: View) {
    && (v.finished <==> v.generated >= cfg.maxTokens || StopsAt(cfg, v))
    && v.finish == if !v.finished then Running else if StopsAt(cfg, v) then StopToken else Length
  }

  ghost predicate AllExplained(cfg: Config, s: ForcedState) {
    Explained(cfg, s.now) && forall i :: 0 <= i < |s.marks| ==> Explained(cfg, s.marks[i])
  }

  lemma {:induction false} ForcedExplained(cfg: Config, id: nat, run: seq<ForcedState>, calls: seq<ForcedCall>, i: nat)
    requires ForcedRun(cfg, id, run, calls) && i < |run| && Explained(cfg, run[0].now)
    ensures AllExplained(cfg, run[i])
    decreases i
  {
    hide BranchView, Explained;
    if i > 0 {
      ForcedExplained(cfg, id, run, calls, i - 1);
      var s, t, call := run[i - 1], run[i], calls[i - 1];
      assert ForcedStep(cfg, id, s, call, run[i - 1 + 1]);
      ForcedInvariant(cfg, id, run, calls, i - 1);
      ForcedInvariant(cfg, id, run, calls, i);
      match call
      case Force(token) => ForceExplained(cfg, s.now, token);
      case Reject => RejectExplained(cfg, s.now);
      case _ =>
    }
  }

  lemma ForceExplained(cfg: Config, v: View, token: int)
    requires BranchView(cfg, v) && Explained(cfg, v) && !v.finished
    ensures Explained(cfg, Appended(cfg, v, token))
  {
    hide TrueCaches;
    AppendedFields(cfg, v, token);
  }

  lemma RejectExplained(cfg: Config, v: View)
    requires Explained(cfg, v)
    ensures Explained(cfg, Unpended(v))
  {
  }

  /** Every state of a forced-token run that starts from a prefilled session reports why it is finished: a
      generated stop token at the end of the output, or else a used-up budget; an unfinished one reports
      that it is running. */
  lemma ForcedFinish(cfg: Config, id: nat, run: seq<ForcedState>, calls: seq<ForcedCall>, i: nat)
    requires ForcedRun(cfg, id, run, calls) && i < |run| && run[0].now == Initial(cfg)
    ensures var v := run[i].now;
            var stopped := v.generated > 0 && v.output != [] && v.output[|v.output| - 1] in cfg.stops;
            && (v.finished <==> v.generated >= cfg.maxTokens || stopped)
            && v.finish == if !v.finished then Running else if stopped then StopToken else Length
  {
    ForcedExplained(cfg, id, run, calls, i);
  }

  lemma NoMarks(cfg: Config, s: ForcedState)
    requires BranchView(cfg, s.now) && s.marks == []
    ensures Disciplined(cfg, s)
  {
  }

  // ---------------------------------------------------------------------------------------------
  // Whole runs

  /** One call on a prefilled session: plain steps (one for a decode step, several for a verified
      draft, none for a checkpoint or a refused call), or a restore of an earlier own checkpoint. */
  ghost predicate Moved(cfg: Config, id: nat, past: seq<View>, w: View)
    requires past != [] && past[|past| - 1].output != []
  {
    var v := past[|past| - 1];
    || (exists n: nat :: StepsOk(cfg, v, n) && w == Steps(cfg, v, n))
    || (exists j :: 0 <= j < |past| && Returned(cfg, id, past[j], v, w))
  }

  ghost predicate Trace(cfg: Config, id: nat, vs: seq<View>) {
    && vs != [] && cfg.prompt != [] && vs[0] == Initial(cfg)
    && forall i :: 0 < i < |vs| ==> TraceStep(cfg, id, vs, i)
  }

  ghost predicate TraceStep(cfg: Config, id: nat, vs: seq<View>, i: nat)
    requires 0 < i < |vs|
  {
    vs[i - 1].output != [] && Moved(cfg, id, vs[..i], vs[i])
  }

  /** In every run of decode steps, verified drafts, checkpoints and restores, every state is the one
      plain greedy decoding would be in, so all its facts hold. */
  lemma {:induction false} TraceInvariant(cfg: Config, id: nat, vs: seq<View>, i: nat)
    requires WellFormed(cfg.m) && TokensOk(cfg.m, cfg.prompt) && Trace(cfg, id, vs) && i < |vs|
    ensures OnTrack(cfg, vs[i]) && TrackFacts(cfg, vs[i])
    decreases i
  {
    hide TrackFacts, OnTrack, TokensOk, Initial, WellFormed, Restorable, CheckpointOf, Restored, StepsOk, Steps;
    if i == 0 {
      InitialFacts(cfg);
      return;
    }
    assert TraceStep(cfg, id, vs, i);
    var past, v := vs[..i], vs[i - 1];
    assert past[|past| - 1] == v;
    TraceInvariant(cfg, id, vs, i - 1);
    if n: nat :| StepsOk(cfg, v, n) && vs[i] == Steps(cfg, v, n) {
      StepsStayOnTrack(cfg, v, n);
    } else {
      var j :| 0 <= j < |past| && Returned(cfg, id, past[j], v, vs[i]);
      TraceInvariant(cfg, id, vs, j);
      RestorableLength(cfg, id, vs[j], v);
      RestoreOwnCheckpoint(cfg, id, vs[j], v);
    }
    OnTrackFacts(cfg, vs[i]);
  }

  lemma RestorableLength(cfg: Config, id: nat, v0: View, v: View)
    requires Restorable(cfg.prompt, CheckpointOf(id, v0), v)
    ensures |v0.output| <= |v.output|
  {
  }
}
