/** The decoder stack that every schedule in the runtime executes: per-row kernels, K/V ownership
    between layers, and a schedule-independent definition of what each hidden row and each K/V
    row must be. */
module Transformer {

  /** One float32 row of any width: a hidden row, a query, a key or a value is one opaque vector. A kernel
      is a deterministic function of the rows it reads; nothing is assumed about the numbers it computes. */
  type Vec(==, !new)

  /** One cached position of one layer: the key row and the value row appended together. */
  datatype KV = KV(k: Vec, v: Vec)

  /** Query, key and value of one row after norm, projection, bias, QK-norm and RoPE. */
  datatype QKV = QKV(q: Vec, k: Vec, v: Vec)

  /** Static layer facts. `kvSource` is meaningful only when `hasKV` is false. */
  datatype LayerSpec = LayerSpec(hasKV: bool, kvSource: int, sliding: bool, preFFN: bool, perLayerInput: bool)

  datatype Model = Model(
    layers: seq<LayerSpec>,
    window: int,                             // sliding window; <= 0 disables it
    vocab: nat,
    embed: int -> Vec,                       // scaled token embedding
    tokenInputs: int -> Vec,                 // per-layer inputs of a token, all layers bundled
    project: (nat, Vec, nat) -> QKV,         // layer, hidden row, position
    attend: (nat, Vec, seq<KV>) -> Vec,      // layer, query, visible cache rows
    outProject: (nat, Vec) -> Vec,
    postNorm: (nat, Vec) -> Vec,
    preNorm: (nat, Vec) -> Vec,
    mlp: (nat, Vec) -> Vec,                  // gate, up, activation, down and post-FFN norm
    add: (Vec, Vec) -> Vec,
    inputGate: (nat, Vec, Vec) -> Vec,       // per-layer-input delta: hidden row, bundled inputs
    scale: (nat, Vec) -> Vec,
    projectOk: (nat, Vec, nat) -> bool,      // false: a projection rejects the row before it is cached
    mixOk: (nat, Vec, Vec) -> bool,          // false: a projection rejects the row after it is cached
    logits: Vec -> seq<real>,                // final norm and LM head
    argmax: seq<real> -> nat
  )

  ghost predicate WellFormed(m: Model) {
    && m.vocab > 0
    && (forall h :: |m.logits(h)| == m.vocab)
    && (forall x: seq<real> :: |x| > 0 ==> m.argmax(x) < |x|)
  }

  /** Layer `l` owns K/V or reads an earlier layer that does. */
  predicate SourceOk(m: Model, l: nat)
    requires l < |m.layers|
  {
    m.layers[l].hasKV || (0 <= m.layers[l].kvSource < l && m.layers[m.layers[l].kvSource].hasKV)
  }

  ghost predicate SourcesOk(m: Model) {
    forall l :: 0 <= l < |m.layers| ==> SourceOk(m, l)
  }

  /** The layer whose cache layer `l` attends to. */
  function Owner(m: Model, l: nat): (s: nat)
    requires l < |m.layers| && SourceOk(m, l)
    ensures s <= l && m.layers[s].hasKV
  {
    if m.layers[l].hasKV then l else m.layers[l].kvSource
  }

  /** First visible position of a row at `pos`: the causal range, cut by the sliding window. */
  function WindowStart(m: Model, l: nat, pos: nat): (s: nat)
    requires l < |m.layers|
    ensures s <= pos
    ensures m.layers[l].sliding && m.window > 0 ==> pos + 1 - s <= m.window
    ensures s > 0 ==> m.layers[l].sliding && pos + 1 - s == m.window
  {
    if m.window > 0 && m.layers[l].sliding && pos + 1 > m.window then pos + 1 - m.window else 0
  }

  /** Everything a layer does to one row after attention. */
  ghost function FinishRow(m: Model, l: nat, residual: Vec, attn: Vec, inputs: Vec): Vec
    requires l < |m.layers|
  {
    var o := m.outProject(l, attn);
    var mid := if m.layers[l].preFFN then m.add(residual, m.postNorm(l, o)) else m.add(residual, o);
    var mlpIn := if m.layers[l].preFFN then m.preNorm(l, mid) else m.postNorm(l, mid);
    var hid := m.add(mid, m.mlp(l, mlpIn));
    var gated := if m.layers[l].perLayerInput then m.add(hid, m.inputGate(l, hid, inputs)) else hid;
    m.scale(l, gated)
  }

  /** `|inputs|` consecutive rows starting at position `start`, on top of cached history. */
  datatype Run = Run(start: nat, inputs: seq<Vec>, extra: seq<Vec>, history: seq<seq<KV>>)

  ghost predicate ValidRun(m: Model, run: Run) {
    && |run.extra| == |run.inputs|
    && |run.history| == |m.layers|
    && forall l {:trigger run.history[l]} :: 0 <= l < |m.layers| ==>
                                               |run.history[l]| == if m.layers[l].hasKV then run.start else 0
  }

  /** Row `r` entering layer `l`. */
  ghost function HiddenAt(m: Model, run: Run, l: nat, r: nat): Vec
    requires ValidRun(m, run) && l <= |m.layers| && r < |run.inputs|
    decreases l, 0, 0
  {
    if l == 0 then run.inputs[r]
    else FinishRow(m, l - 1, HiddenAt(m, run, l - 1, r), AttnAt(m, run, l - 1, r), run.extra[r])
  }

  /** Attention output of row `r` at layer `l`: only cached rows up to and including its own. A layer
      without a usable source attends to nothing. */
  ghost function AttnAt(m: Model, run: Run, l: nat, r: nat): Vec
    requires ValidRun(m, run) && l < |m.layers| && r < |run.inputs|
    decreases l, |run.inputs| + 1
  {
    var pos := run.start + r;
    m.attend(l, m.project(l, HiddenAt(m, run, l, r), pos).q,
             if SourceOk(m, l) then CacheAt(m, run, Owner(m, l), r + 1)[WindowStart(m, l, pos)..] else [])
  }

  /** Cache of owning layer `s` once the first `n` rows have been appended. */
  ghost function CacheAt(m: Model, run: Run, s: nat, n: nat): (c: seq<KV>)
    requires ValidRun(m, run) && s < |m.layers| && m.layers[s].hasKV
    requires n <= |run.inputs|
    ensures |c| == run.start + n
    decreases s, n
  {
    if n == 0 then run.history[s] else CacheAt(m, run, s, n - 1) + [KVAt(m, run, s, n - 1)]
  }

  ghost function KVAt(m: Model, run: Run, s: nat, r: nat): KV
    requires ValidRun(m, run) && s < |m.layers| && r < |run.inputs|
    decreases s, 0, 1
  {
    var p := m.project(s, HiddenAt(m, run, s, r), run.start + r);
    KV(p.k, p.v)
  }

  /** Layer `l` has a usable source and no kernel rejects row `r` there. */
  ghost predicate CellOk(m: Model, run: Run, l: nat, r: nat)
    requires ValidRun(m, run) && l < |m.layers| && r < |run.inputs|
  {
    var h := HiddenAt(m, run, l, r);
    SourceOk(m, l) && m.projectOk(l, h, run.start + r) && m.mixOk(l, h, AttnAt(m, run, l, r))
  }

  ghost predicate LayerOk(m: Model, run: Run, l: nat)
    requires ValidRun(m, run) && l < |m.layers|
  {
    forall r :: 0 <= r < |run.inputs| ==> CellOk(m, run, l, r)
  }

  /** Row `r` passes every layer below `l`. */
  ghost predicate RowOkBelow(m: Model, run: Run, r: nat, l: nat)
    requires ValidRun(m, run) && l <= |m.layers| && r < |run.inputs|
  {
    l == 0 || (RowOkBelow(m, run, r, l - 1) && CellOk(m, run, l - 1, r))
  }

  ghost predicate RowOk(m: Model, run: Run, r: nat)
    requires ValidRun(m, run) && r < |run.inputs|
  {
    RowOkBelow(m, run, r, |m.layers|)
  }

  ghost predicate RunOk(m: Model, run: Run)
    requires ValidRun(m, run)
  {
    forall r :: 0 <= r < |run.inputs| ==> RowOk(m, run, r)
  }

  /** Every cache of `before` is a prefix of the same cache in `after`: rows were only appended. */
  ghost predicate OnlyAppended(before: seq<seq<KV>>, after: seq<seq<KV>>) {
    |after| == |before| && forall l :: 0 <= l < |before| ==> before[l] <= after[l]
  }

  lemma AppendedTwice(a: seq<seq<KV>>, b: seq<seq<KV>>, c: seq<seq<KV>>)
    requires OnlyAppended(a, b) && OnlyAppended(b, c)
    ensures OnlyAppended(a, c)
  {
    forall l | 0 <= l < |a|
      ensures a[l] <= c[l]
    {
      assert a[l] <= b[l] <= c[l];
    }
  }

  /** All caches after the first `n` rows; shared layers stay empty. */
  ghost function Caches(m: Model, run: Run, n: nat): (c: seq<seq<KV>>)
    requires ValidRun(m, run) && n <= |run.inputs|
    ensures |c| == |m.layers|
  {
    seq(|m.layers|, l requires 0 <= l < |m.layers| => if m.layers[l].hasKV then CacheAt(m, run, l, n) else [])
  }

  /** Final rows, one per input. */
  ghost function FinalRows(m: Model, run: Run): (rows: seq<Vec>)
    requires ValidRun(m, run)
    ensures |rows| == |run.inputs|
  {
    seq(|run.inputs|, r requires 0 <= r < |run.inputs| => HiddenAt(m, run, |m.layers|, r))
  }

  // ---------------------------------------------------------------------------------------------
  // Structure of the reference grid

  /** Later rows only append: the cache after `a` rows is a prefix of the cache after `b` rows. */
  lemma {:induction false} CachePrefix(m: Model, run: Run, s: nat, a: nat, b: nat)
    requires ValidRun(m, run) && s < |m.layers| && m.layers[s].hasKV
    requires a <= b <= |run.inputs|
    ensures CacheAt(m, run, s, b)[..run.start + a] == CacheAt(m, run, s, a)
    decreases b
  {
    if a < b {
      CachePrefix(m, run, s, a, b - 1);
    }
  }

  lemma HiddenStep(m: Model, run: Run, l: nat, r: nat)
    requires ValidRun(m, run) && l < |m.layers| && r < |run.inputs|
    ensures HiddenAt(m, run, l + 1, r) == FinishRow(m, l, HiddenAt(m, run, l, r), AttnAt(m, run, l, r), run.extra[r])
  {
  }

  /** One rejected cell rejects its row. */
  lemma {:induction false} RejectedCell(m: Model, run: Run, r: nat, l: nat, n: nat)
    requires ValidRun(m, run) && l < n <= |m.layers| && r < |run.inputs|
    requires !CellOk(m, run, l, r)
    ensures !RowOkBelow(m, run, r, n)
  {
    if l < n - 1 {
      RejectedCell(m, run, r, l, n - 1);
    }
  }

  /** A row may attend to any later state of the source cache: its own range is already fixed. */
  lemma AttnFrom(m: Model, run: Run, l: nat, r: nat, n: nat)
    requires ValidRun(m, run) && l < |m.layers| && SourceOk(m, l) && r < n <= |run.inputs|
    ensures var pos := run.start + r;
            AttnAt(m, run, l, r) == m.attend(l, m.project(l, HiddenAt(m, run, l, r), pos).q,
                                             CacheAt(m, run, Owner(m, l), n)[WindowStart(m, l, pos)..pos + 1])
  {
    CachePrefix(m, run, Owner(m, l), r + 1, n);
    var pos := run.start + r;
    var s := WindowStart(m, l, pos);
    assert CacheAt(m, run, Owner(m, l), n)[s..pos + 1] == CacheAt(m, run, Owner(m, l), n)[..pos + 1][s..];
  }

  /** Whose rows a layer attends to: an owning layer its own, a sharing layer those of the layer its
      configuration names, in either case the window that ends at the row's own position. */
  lemma AttendsSource(m: Model, run: Run, l: nat, r: nat)
    requires ValidRun(m, run) && l < |m.layers| && SourceOk(m, l) && r < |run.inputs|
    ensures var pos := run.start + r;
            var source := if m.layers[l].hasKV then l else m.layers[l].kvSource;
            AttnAt(m, run, l, r) == m.attend(l, m.project(l, HiddenAt(m, run, l, r), pos).q,
                                             CacheAt(m, run, source, r + 1)[WindowStart(m, l, pos)..])
  {
  }

  /** `run` cut after its first `n` rows. */
  function FirstRows(run: Run, n: nat): Run
    requires n <= |run.inputs| && |run.extra| == |run.inputs|
  {
    run.(inputs := run.inputs[..n], extra := run.extra[..n])
  }

  /** Causality: dropping later rows changes no hidden row and no cache row of the earlier ones. */
  lemma {:induction false} Causal(m: Model, run: Run, n: nat, l: nat, r: nat)
    requires ValidRun(m, run) && n <= |run.inputs| && r < n
    requires l <= |m.layers|
    ensures HiddenAt(m, FirstRows(run, n), l, r) == HiddenAt(m, run, l, r)
    decreases l, 0, 0
  {
    if l > 0 {
      hide FinishRow, AttnAt, CacheAt;
      Causal(m, run, n, l - 1, r);
      CausalAttn(m, run, n, l - 1, r);
    }
  }

  lemma {:induction false} CausalAttn(m: Model, run: Run, n: nat, l: nat, r: nat)
    requires ValidRun(m, run) && n <= |run.inputs| && r < n
    requires l < |m.layers|
    ensures AttnAt(m, FirstRows(run, n), l, r) == AttnAt(m, run, l, r)
    decreases l, |run.inputs| + 1
  {
    hide HiddenAt, CacheAt;
    Causal(m, run, n, l, r);
    if SourceOk(m, l) {
      CausalCache(m, run, n, Owner(m, l), r + 1);
    }
  }

  lemma {:induction false} CausalCache(m: Model, run: Run, n: nat, s: nat, k: nat)
    requires ValidRun(m, run) && k <= n <= |run.inputs|
    requires s < |m.layers| && m.layers[s].hasKV
    ensures CacheAt(m, FirstRows(run, n), s, k) == CacheAt(m, run, s, k)
    decreases s, k
  {
    hide HiddenAt, AttnAt;
    if k > 0 {
      CausalCache(m, run, n, s, k - 1);
      Causal(m, run, n, s, k - 1);
    }
  }

  /** The rows of `run` from row `n` on, continued from the caches the first `n` rows left. */
  ghost function LaterRows(m: Model, run: Run, n: nat): (rest: Run)
    requires ValidRun(m, run) && n <= |run.inputs|
    ensures ValidRun(m, rest)
  {
    Run(run.start + n, run.inputs[n..], run.extra[n..], Caches(m, run, n))
  }

  /** Resuming from the caches is the same as never having stopped. */
  lemma {:induction false} Resume(m: Model, run: Run, n: nat, l: nat, r: nat)
    requires ValidRun(m, run) && n + r < |run.inputs|
    requires l <= |m.layers|
    ensures HiddenAt(m, LaterRows(m, run, n), l, r) == HiddenAt(m, run, l, n + r)
    decreases l, 0, 0
  {
    if l > 0 {
      hide FinishRow, AttnAt, CacheAt;
      Resume(m, run, n, l - 1, r);
      ResumeAttn(m, run, n, l - 1, r);
    }
  }

  lemma {:induction false} ResumeAttn(m: Model, run: Run, n: nat, l: nat, r: nat)
    requires ValidRun(m, run) && n + r < |run.inputs|
    requires l < |m.layers|
    ensures AttnAt(m, LaterRows(m, run, n), l, r) == AttnAt(m, run, l, n + r)
    decreases l, |run.inputs| + 1
  {
    hide HiddenAt, CacheAt;
    Resume(m, run, n, l, r);
    if SourceOk(m, l) {
      ResumeCache(m, run, n, Owner(m, l), r + 1);
    }
  }

  lemma {:induction false} ResumeCache(m: Model, run: Run, n: nat, s: nat, k: nat)
    requires ValidRun(m, run) && n + k <= |run.inputs|
    requires s < |m.layers| && m.layers[s].hasKV
    ensures CacheAt(m, LaterRows(m, run, n), s, k) == CacheAt(m, run, s, n + k)
    decreases s, k
  {
    hide HiddenAt, AttnAt;
    if k > 0 {
      ResumeCache(m, run, n, s, k - 1);
      Resume(m, run, n, s, k - 1);
    }
  }

  lemma {:induction false} CausalOk(m: Model, run: Run, n: nat, r: nat, l: nat)
    requires ValidRun(m, run) && r < n <= |run.inputs| && l <= |m.layers|
    ensures RowOkBelow(m, FirstRows(run, n), r, l) == RowOkBelow(m, run, r, l)
  {
    hide HiddenAt, AttnAt;
    if l > 0 {
      CausalOk(m, run, n, r, l - 1);
      Causal(m, run, n, l - 1, r);
      CausalAttn(m, run, n, l - 1, r);
    }
  }

  lemma {:induction false} ResumeOk(m: Model, run: Run, n: nat, r: nat, l: nat)
    requires ValidRun(m, run) && n + r < |run.inputs| && l <= |m.layers|
    ensures RowOkBelow(m, LaterRows(m, run, n), r, l) == RowOkBelow(m, run, n + r, l)
  {
    hide HiddenAt, AttnAt;
    if l > 0 {
      ResumeOk(m, run, n, r, l - 1);
      Resume(m, run, n, l - 1, r);
      ResumeAttn(m, run, n, l - 1, r);
    }
  }

  /** Stopping after `n` rows and resuming: same caches, same rows, rejected in the same cases. */
  lemma SplitRun(m: Model, run: Run, n: nat)
    requires ValidRun(m, run) && n <= |run.inputs|
    ensures Caches(m, FirstRows(run, n), n) == Caches(m, run, n)
    ensures Caches(m, LaterRows(m, run, n), |run.inputs| - n) == Caches(m, run, |run.inputs|)
    ensures FinalRows(m, LaterRows(m, run, n)) == FinalRows(m, run)[n..]
    ensures RunOk(m, run) <==> RunOk(m, FirstRows(run, n)) && RunOk(m, LaterRows(m, run, n))
  {
    hide HiddenAt, CacheAt;
    var rest := LaterRows(m, run, n);
    forall l | 0 <= l < |m.layers| && m.layers[l].hasKV
      ensures CacheAt(m, FirstRows(run, n), l, n) == CacheAt(m, run, l, n)
      ensures CacheAt(m, rest, l, |run.inputs| - n) == CacheAt(m, run, l, |run.inputs|)
    {
      CausalCache(m, run, n, l, n);
      ResumeCache(m, run, n, l, |run.inputs| - n);
    }
    forall r | 0 <= r < |rest.inputs|
      ensures HiddenAt(m, rest, |m.layers|, r) == HiddenAt(m, run, |m.layers|, n + r)
    {
      Resume(m, run, n, |m.layers|, r);
    }
    SplitOk(m, run, n);
  }

  lemma SplitOk(m: Model, run: Run, n: nat)
    requires ValidRun(m, run) && n <= |run.inputs|
    ensures RunOk(m, run) <==> RunOk(m, FirstRows(run, n)) && RunOk(m, LaterRows(m, run, n))
  {
    hide RowOkBelow;
    var first, rest := FirstRows(run, n), LaterRows(m, run, n);
    forall r | 0 <= r < |run.inputs|
      ensures RowOk(m, run, r) == if r < n then RowOk(m, first, r) else RowOk(m, rest, r - n)
    {
      if r < n {
        CausalOk(m, run, n, r, |m.layers|);
      } else {
        ResumeOk(m, run, n, r - n, |m.layers|);
      }
    }
    if RunOk(m, run) {
      forall r | 0 <= r < |rest.inputs|
        ensures RowOk(m, rest, r)
      {
        assert RowOk(m, run, n + r);
      }
    }
  }
}
