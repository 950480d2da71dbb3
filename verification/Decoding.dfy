/** Greedy decoding as a function of the token sequence alone: the true K/V rows of a prefix, the
    logits after it and the next token. Everything stateful in the runtime is measured against it. */
module Decoding {
  import opened Transformer

  function Embedded(m: Model, tokens: seq<int>): (rows: seq<Vec>)
    ensures |rows| == |tokens|
  {
    seq(|tokens|, i requires 0 <= i < |tokens| => m.embed(tokens[i]))
  }

  function Inputs(m: Model, tokens: seq<int>): (rows: seq<Vec>)
    ensures |rows| == |tokens|
  {
    seq(|tokens|, i requires 0 <= i < |tokens| => m.tokenInputs(tokens[i]))
  }

  /** `tokens` at positions `start ..` on top of existing caches. */
  function RunOf(m: Model, tokens: seq<int>, start: nat, caches: seq<seq<KV>>): Run {
    Run(start, Embedded(m, tokens), Inputs(m, tokens), caches)
  }

  function NoCaches(m: Model): seq<seq<KV>> {
    seq(|m.layers|, l => [])
  }

  ghost function FreshRun(m: Model, tokens: seq<int>): (run: Run)
    ensures ValidRun(m, run)
  {
    RunOf(m, tokens, 0, NoCaches(m))
  }

  /** The true caches of a token prefix: one row per token on every owning layer. */
  ghost function TrueCaches(m: Model, tokens: seq<int>): (c: seq<seq<KV>>)
    ensures |c| == |m.layers|
    ensures forall l :: 0 <= l < |c| ==> |c[l]| == if m.layers[l].hasKV then |tokens| else 0
  {
    Caches(m, FreshRun(m, tokens), |tokens|)
  }

  ghost function LogitsAfter(m: Model, tokens: seq<int>): seq<real>
    requires tokens != []
  {
    m.logits(HiddenAt(m, FreshRun(m, tokens), |m.layers|, |tokens| - 1))
  }

  /** The greedy token after `tokens`. */
  ghost function Next(m: Model, tokens: seq<int>): (t: int)
    requires tokens != []
  {
    m.argmax(LogitsAfter(m, tokens))
  }

  /** What running tokens means row by row: token `r` enters at position `start + r` as its embedding, every
      layer adds that token's own per-layer inputs, and an owning layer caches the key and value projected
      at that position. */
  lemma TokenRows(m: Model, tokens: seq<int>, start: nat, caches: seq<seq<KV>>, r: nat, l: nat)
    requires var run := RunOf(m, tokens, start, caches); ValidRun(m, run)
    requires r < |tokens| && l < |m.layers|
    ensures var run := RunOf(m, tokens, start, caches);
            && |run.inputs| == |tokens| && HiddenAt(m, run, 0, r) == m.embed(tokens[r])
            && HiddenAt(m, run, l + 1, r) ==
               FinishRow(m, l, HiddenAt(m, run, l, r), AttnAt(m, run, l, r), m.tokenInputs(tokens[r]))
            && (m.layers[l].hasKV ==>
                  var p := m.project(l, HiddenAt(m, run, l, r), start + r);
                  CacheAt(m, run, l, 0) == caches[l]
                  && CacheAt(m, run, l, r + 1) == CacheAt(m, run, l, r) + [KV(p.k, p.v)])
  {
  }

  lemma NextInVocabulary(m: Model, tokens: seq<int>)
    requires WellFormed(m) && tokens != []
    ensures 0 <= Next(m, tokens) < m.vocab && |LogitsAfter(m, tokens)| == m.vocab
  {
  }

  /** No kernel rejects any of `tokens`. */
  ghost predicate TokensOk(m: Model, tokens: seq<int>) {
    RunOk(m, FreshRun(m, tokens))
  }

  /** Before any token the caches are empty and nothing has been rejected. */
  lemma NothingCached(m: Model)
    ensures TrueCaches(m, []) == NoCaches(m) && TokensOk(m, [])
  {
  }

  /** Running `b` on top of the true caches of `a` gives the true caches and rows of `a + b`, and it
      is rejected exactly when the whole sequence would be. */
  lemma Extend(m: Model, a: seq<int>, b: seq<int>)
    ensures var run := RunOf(m, b, |a|, TrueCaches(m, a));
            && ValidRun(m, run)
            && Caches(m, run, |b|) == TrueCaches(m, a + b)
            && FinalRows(m, run) == FinalRows(m, FreshRun(m, a + b))[|a|..]
            && (TokensOk(m, a + b) <==> TokensOk(m, a) && RunOk(m, run))
  {
    hide Caches, FinalRows, RunOk;
    var whole := FreshRun(m, a + b);
    SplitRun(m, whole, |a|);
    assert FirstRows(whole, |a|) == FreshRun(m, a);
    assert LaterRows(m, whole, |a|) == RunOf(m, b, |a|, TrueCaches(m, a));
  }

  /** A prefix of an accepted sequence is accepted. */
  lemma PrefixOk(m: Model, a: seq<int>, b: seq<int>)
    requires a <= b && TokensOk(m, b)
    ensures TokensOk(m, a)
  {
    hide RunOk, Caches, FinalRows, TokensOk;
    assert a + b[|a|..] == b;
    Extend(m, a, b[|a|..]);
  }

  /** One more token: its final row is the last row of the extended sequence. */
  lemma ExtendOne(m: Model, a: seq<int>, t: int)
    ensures var run := RunOf(m, [t], |a|, TrueCaches(m, a));
            && ValidRun(m, run) && |FinalRows(m, run)| == 1
            && Caches(m, run, 1) == TrueCaches(m, a + [t])
            && m.logits(FinalRows(m, run)[0]) == LogitsAfter(m, a + [t])
            && (TokensOk(m, a + [t]) <==> TokensOk(m, a) && RunOk(m, run))
  {
    hide Caches, RunOk;
    Extend(m, a, [t]);
  }

  /** Greedy continuation by `n` tokens; it stops early where the model rejects the sequence. */
  ghost function Greedy(m: Model, tokens: seq<int>, n: nat): (out: seq<int>)
    ensures tokens <= out && |out| <= |tokens| + n
    decreases n
  {
    if n == 0 || tokens == [] || !TokensOk(m, tokens) then tokens
    else Greedy(m, tokens + [Next(m, tokens)], n - 1)
  }

  lemma {:induction false} GreedySplit(m: Model, tokens: seq<int>, a: nat, b: nat)
    ensures Greedy(m, Greedy(m, tokens, a), b) == Greedy(m, tokens, a + b)
    decreases a
  {
    if a > 0 && tokens != [] && TokensOk(m, tokens) {
      GreedySplit(m, tokens + [Next(m, tokens)], a - 1, b);
    } else if a > 0 {
      GreedyStops(m, tokens, a);
    }
  }

  lemma GreedyStops(m: Model, tokens: seq<int>, n: nat)
    requires tokens == [] || !TokensOk(m, tokens)
    ensures Greedy(m, tokens, n) == tokens
  {
  }
}
