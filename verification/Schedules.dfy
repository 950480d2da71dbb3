/** Two executions of the same decoder stack: layer-major over a batch of rows (verifier and prefill)
    and token-major (the reference path). Both are proved against the grid of module Transformer,
    so they agree on every hidden row and on every cache row. */
module Schedules {
  import opened Transformer

  // ---------------------------------------------------------------------------------------------
  // Attention plan

  datatype LayerPlan = LayerPlan(kvStart: seq<nat>, kvEnd: seq<nat>)

  ghost predicate PlanFor(m: Model, start: nat, rows: nat, plan: seq<LayerPlan>) {
    && |plan| == |m.layers|
    && forall l :: 0 <= l < |plan| ==> LayerPlanFor(m, start, rows, l, plan[l])
  }

  ghost predicate LayerPlanFor(m: Model, start: nat, rows: nat, l: nat, lp: LayerPlan)
    requires l < |m.layers|
  {
    && |lp.kvStart| == |lp.kvEnd| == rows
    && (forall r :: 0 <= r < rows ==> lp.kvStart[r] == WindowStart(m, l, start + r))
    && (forall r :: 0 <= r < rows ==> lp.kvEnd[r] == start + r + 1)
  }

  /** Per-row causal ranges of rows `start .. start+rows`, cut by each layer's sliding window. */
  method NewAttentionPlan(m: Model, start: nat, rows: nat) returns (plan: seq<LayerPlan>)
    ensures PlanFor(m, start, rows, plan)
  {
    plan := [];
    for l := 0 to |m.layers|
      invariant |plan| == l
      invariant forall i :: 0 <= i < l ==> LayerPlanFor(m, start, rows, i, plan[i])
    {
      var sliding := m.window > 0 && m.layers[l].sliding;
      var starts: seq<nat>, ends: seq<nat> := [], [];
      for r := 0 to rows
        invariant |starts| == |ends| == r
        invariant LayerPlanFor(m, start, r, l, LayerPlan(starts, ends))
      {
        var end := start + r + 1;
        starts := starts + [if sliding && end > m.window then end - m.window else 0];
        ends := ends + [end];
      }
      plan := plan + [LayerPlan(starts, ends)];
    }
  }

  // ---------------------------------------------------------------------------------------------
  // Batch buffers: one field per reused buffer, one method per stage of a layer

  class BatchBuffers {
    const m: Model
    const rows: nat
    var hidden: seq<Vec>
    var residual: seq<Vec>
    var qkv: seq<QKV>
    var attnOut: seq<Vec>
    var oOut: seq<Vec>
    var mlpIn: seq<Vec>
    var down: seq<Vec>

    ghost predicate Shaped()
      reads this
    {
      |hidden| == |residual| == |attnOut| == |oOut| == |mlpIn| == |down| == rows
    }

    constructor (m: Model, inputs: seq<Vec>)
      ensures Shaped() && this.m == m && rows == |inputs| && hidden == inputs
    {
      this.m, rows := m, |inputs|;
      hidden, residual, attnOut, oOut, mlpIn, down := inputs, inputs, inputs, inputs, inputs, inputs;
      qkv := [];
    }

    method ProjectRows(l: nat, positions: seq<nat>) returns (ok: bool)
      requires Shaped() && |positions| == rows
      modifies this`qkv
      ensures ok <==> forall b :: 0 <= b < rows ==> m.projectOk(l, hidden[b], positions[b])
      ensures ok ==> |qkv| == rows
      ensures ok ==> forall b :: 0 <= b < rows ==> qkv[b] == m.project(l, hidden[b], positions[b])
    {
      qkv := [];
      for b := 0 to rows
        invariant |qkv| == b
        invariant forall i :: 0 <= i < b ==> qkv[i] == m.project(l, hidden[i], positions[i])
        invariant forall i :: 0 <= i < b ==> m.projectOk(l, hidden[i], positions[i])
      {
        if !m.projectOk(l, hidden[b], positions[b]) {
          return false;
        }
        qkv := qkv + [m.project(l, hidden[b], positions[b])];
      }
      return true;
    }

    /** Attention over the populated cache. The rows are visited in an arbitrary order, which covers
        every interleaving of worker goroutines over their own rows. A row whose range exceeds the
        cache fails the stage and takes an arbitrary set of unvisited rows of its worker with it. */
    method AttendRows(l: nat, lp: LayerPlan, source: seq<KV>) returns (ok: bool)
      requires Shaped() && |qkv| == rows && |lp.kvStart| == |lp.kvEnd| == rows
      requires forall b :: 0 <= b < rows ==> lp.kvStart[b] < lp.kvEnd[b]
      modifies this`attnOut
      ensures Shaped()
      ensures ok <==> forall b :: 0 <= b < rows ==> lp.kvEnd[b] <= |source|
      ensures ok ==> forall b :: 0 <= b < rows ==>
                                   attnOut[b] == m.attend(l, qkv[b].q, source[lp.kvStart[b]..lp.kvEnd[b]])
    {
      var todo := UpTo(rows);
      ok := true;
      while todo != {}
        invariant Shaped()
        invariant forall b :: b in todo ==> 0 <= b < rows
        invariant !ok ==> exists b :: 0 <= b < rows && lp.kvEnd[b] > |source|
        invariant ok ==> forall b :: 0 <= b < rows && b !in todo ==>
                                       lp.kvEnd[b] <= |source| &&
                                       attnOut[b] == m.attend(l, qkv[b].q, source[lp.kvStart[b]..lp.kvEnd[b]])
        decreases todo
      {
        var b :| b in todo;
        todo := todo - {b};
        if lp.kvEnd[b] > |source| {
          var abandoned :| abandoned <= todo;
          todo := todo - abandoned;
          ok := false;
        } else {
          attnOut := attnOut[b := m.attend(l, qkv[b].q, source[lp.kvStart[b]..lp.kvEnd[b]])];
        }
      }
    }

    /** Output projection of every row; a rejected row fails the stage. */
    method OutputProject(l: nat) returns (ok: bool)
      requires Shaped()
      modifies this`oOut
      ensures Shaped()
      ensures ok <==> forall b :: 0 <= b < rows ==> m.mixOk(l, residual[b], attnOut[b])
      ensures ok ==> forall b :: 0 <= b < rows ==> oOut[b] == m.outProject(l, attnOut[b])
    {
      for b := 0 to rows
        invariant Shaped()
        invariant forall i :: 0 <= i < b ==> m.mixOk(l, residual[i], attnOut[i])
        invariant forall i :: 0 <= i < b ==> oOut[i] == m.outProject(l, attnOut[i])
      {
        if !m.mixOk(l, residual[b], attnOut[b]) {
          return false;
        }
        oOut := oOut[b := m.outProject(l, attnOut[b])];
      }
      return true;
    }

    /** Attention residual and MLP input, for both norm placements. */
    method AddAttention(l: nat)
      requires Shaped() && l < |m.layers|
      modifies this`hidden, this`residual, this`oOut, this`mlpIn
      ensures Shaped()
      ensures forall b :: 0 <= b < rows ==>
                            residual[b] == m.add(old(residual[b]),
                                                 if m.layers[l].preFFN then m.postNorm(l, old(oOut[b]))
                                                 else old(oOut[b]))
      ensures forall b :: 0 <= b < rows ==>
                            mlpIn[b] == if m.layers[l].preFFN then m.preNorm(l, residual[b])
                            else m.postNorm(l, residual[b])
    {
      ghost var o, r := oOut, residual;
      if m.layers[l].preFFN {
        for b := 0 to rows
          invariant Shaped() && residual == r
          invariant forall i :: b <= i < rows ==> oOut[i] == o[i]
          invariant forall i :: 0 <= i < b ==> hidden[i] == m.add(residual[i], m.postNorm(l, o[i]))
        {
          oOut := oOut[b := m.postNorm(l, oOut[b])];
          hidden := hidden[b := m.add(residual[b], oOut[b])];
        }
        residual := hidden;
        ghost var mid := hidden;
        for b := 0 to rows
          invariant Shaped() && hidden == residual == mid
          invariant forall i :: 0 <= i < b ==> mlpIn[i] == m.preNorm(l, mid[i])
        {
          mlpIn := mlpIn[b := m.preNorm(l, hidden[b])];
        }
      } else {
        for b := 0 to rows
          invariant Shaped() && residual == r && oOut == o
          invariant forall i :: 0 <= i < b ==> hidden[i] == m.add(r[i], o[i])
        {
          hidden := hidden[b := m.add(residual[b], oOut[b])];
        }
        residual := hidden;
        ghost var mid := hidden;
        for b := 0 to rows
          invariant Shaped() && residual == mid
          invariant forall i :: 0 <= i < rows ==> hidden[i] == if i < b then m.postNorm(l, mid[i]) else mid[i]
        {
          hidden := hidden[b := m.postNorm(l, hidden[b])];
        }
        mlpIn := hidden;
      }
    }

    method Mlp(l: nat)
      requires Shaped()
      modifies this`down
      ensures Shaped()
      ensures forall b :: 0 <= b < rows ==> down[b] == m.mlp(l, mlpIn[b])
    {
      for b := 0 to rows
        invariant Shaped()
        invariant forall i :: 0 <= i < b ==> down[i] == m.mlp(l, mlpIn[i])
      {
        down := down[b := m.mlp(l, mlpIn[b])];
      }
    }

    /** Everything after attention, for all rows. */
    method MixRows(l: nat, extra: seq<Vec>) returns (ok: bool)
      requires Shaped() && l < |m.layers| && |extra| == rows
      modifies this`hidden, this`residual, this`oOut, this`mlpIn, this`down
      ensures Shaped()
      ensures ok <==> forall b :: 0 <= b < rows ==> m.mixOk(l, old(residual[b]), attnOut[b])
      ensures ok ==> forall b :: 0 <= b < rows ==>
                                   hidden[b] == FinishRow(m, l, old(residual[b]), attnOut[b], extra[b])
    {
      ok := OutputProject(l);
      if ok {
        AddAttention(l);
        Mlp(l);
        FinishRows(l, extra);
      }
    }

    /** The last residual add and everything after it. */
    method FinishRows(l: nat, extra: seq<Vec>)
      requires Shaped() && l < |m.layers| && |extra| == rows
      modifies this`hidden
      ensures Shaped()
      ensures forall b :: 0 <= b < rows ==>
                            var hid := m.add(residual[b], down[b]);
                            hidden[b] == m.scale(l, if m.layers[l].perLayerInput
                                                 then m.add(hid, m.inputGate(l, hid, extra[b])) else hid)
    {
      for b := 0 to rows
        invariant Shaped()
        invariant forall i :: 0 <= i < b ==> hidden[i] == m.add(residual[i], down[i])
      {
        hidden := hidden[b := m.add(residual[b], down[b])];
      }
      if m.layers[l].perLayerInput {
        ghost var h := hidden;
        for b := 0 to rows
          invariant Shaped()
          invariant forall i :: 0 <= i < rows ==>
                                  hidden[i] == if i < b then m.add(h[i], m.inputGate(l, h[i], extra[i])) else h[i]
        {
          hidden := hidden[b := m.add(hidden[b], m.inputGate(l, hidden[b], extra[b]))];
        }
      }
      ghost var h := hidden;
      for b := 0 to rows
        invariant Shaped()
        invariant forall i :: 0 <= i < rows ==> hidden[i] == if i < b then m.scale(l, h[i]) else h[i]
      {
        hidden := hidden[b := m.scale(l, hidden[b])];
      }
    }
  }

  /** Worker `w` of `workers` visits rows `w`, `w + workers`, ...: two visits of one row are the same
      worker's same turn, so no two workers write the same output row. */
  lemma RowHasOneWorker(workers: nat, w: nat, turn: nat, w': nat, turn': nat)
    requires w < workers && w' < workers
    requires w + turn * workers == w' + turn' * workers
    ensures w == w' && turn == turn'
  {
    Multiple(turn - turn', workers);
  }

  lemma Multiple(d: int, w: nat)
    ensures d > 0 ==> d * w >= w
    ensures d < 0 ==> d * w + w <= 0
  {
  }

  function UpTo(n: nat): (s: set<nat>)
    ensures forall i :: i in s <==> 0 <= i < n
  {
    if n == 0 then {} else UpTo(n - 1) + {n - 1}
  }

  // ---------------------------------------------------------------------------------------------
  // Layer-major execution

  /** What the batch validator checks: every shared layer names some layer that owns K/V. It does
      not check that the source is an earlier layer. */
  ghost predicate SourcesOwnKV(m: Model) {
    forall l :: 0 <= l < |m.layers| && !m.layers[l].hasKV ==>
                  0 <= m.layers[l].kvSource < |m.layers| && m.layers[m.layers[l].kvSource].hasKV
  }

  /** Caches once layers below `l` have appended all rows and the others none. */
  ghost predicate FilledBelow(m: Model, run: Run, l: nat, caches: seq<seq<KV>>)
    requires ValidRun(m, run) && l <= |m.layers|
  {
    && |caches| == |m.layers|
    && (forall i :: 0 <= i < l && m.layers[i].hasKV ==> caches[i] == CacheAt(m, run, i, |run.inputs|))
    && (forall i :: 0 <= i < |caches| && (i >= l || !m.layers[i].hasKV) ==> caches[i] == run.history[i])
  }

  /** Project every row, append every row, then attend. */
  method BatchAttention(m: Model, run: Run, l: nat, lp: LayerPlan, buf: BatchBuffers, cache: array<seq<KV>>)
    returns (ok: bool)
    requires ValidRun(m, run) && SourcesOwnKV(m) && run.inputs != []
    requires l < |m.layers| && LayerPlanFor(m, run.start, |run.inputs|, l, lp)
    requires buf.Shaped() && buf.m == m && buf.rows == |run.inputs|
    requires forall b :: 0 <= b < buf.rows ==> buf.hidden[b] == HiddenAt(m, run, l, b)
    requires FilledBelow(m, run, l, cache[..])
    modifies buf, cache
    ensures buf.Shaped() && buf.residual == old(buf.hidden) && OnlyAppended(old(cache[..]), cache[..])
    ensures ok ==> SourceOk(m, l) && forall b :: 0 <= b < buf.rows ==>
                                                   m.projectOk(l, HiddenAt(m, run, l, b), run.start + b)
    ensures !ok ==> !LayerOk(m, run, l)
    ensures ok ==> FilledBelow(m, run, l + 1, cache[..])
    ensures FilledBelow(m, run, l, cache[..]) || FilledBelow(m, run, l + 1, cache[..])
    ensures ok ==> forall b :: 0 <= b < buf.rows ==> buf.attnOut[b] == AttnAt(m, run, l, b)
  {
    hide HiddenAt, AttnAt, CacheAt, FilledBelow, OnlyAppended, CellOk, LayerOk;
    buf.residual := buf.hidden;
    ok := buf.ProjectRows(l, seq(buf.rows, b requires 0 <= b < buf.rows => run.start + b));
    NothingAppended(cache[..]);
    if !ok {
      ghost var b :| 0 <= b < buf.rows && !m.projectOk(l, HiddenAt(m, run, l, b), run.start + b);
      CellRejects(m, run, l, b);
      return;
    }
    ok := AppendAndAttend(m, run, l, lp, buf, cache);
    CellRejects(m, run, l, 0);
  }

  /** Attention reads the cache after the whole batch has been appended. */
  method AppendAndAttend(m: Model, run: Run, l: nat, lp: LayerPlan, buf: BatchBuffers, cache: array<seq<KV>>)
    returns (ok: bool)
    requires ValidRun(m, run) && SourcesOwnKV(m) && run.inputs != []
    requires l < |m.layers| && LayerPlanFor(m, run.start, |run.inputs|, l, lp)
    requires buf.Shaped() && buf.m == m && buf.rows == |run.inputs| == |buf.qkv|
    requires forall b :: 0 <= b < buf.rows ==> buf.qkv[b] == m.project(l, HiddenAt(m, run, l, b), run.start + b)
    requires FilledBelow(m, run, l, cache[..])
    modifies buf`attnOut, cache
    ensures buf.Shaped() && OnlyAppended(old(cache[..]), cache[..])
    ensures ok <==> SourceOk(m, l)
    ensures FilledBelow(m, run, l + 1, cache[..])
    ensures ok ==> forall b :: 0 <= b < buf.rows ==> buf.attnOut[b] == AttnAt(m, run, l, b)
  {
    hide HiddenAt, AttnAt, CacheAt, FilledBelow, OnlyAppended;
    AppendRows(m, run, l, buf.qkv, cache);
    var kvLayer := if m.layers[l].hasKV then l else m.layers[l].kvSource;
    ok := AttendLayer(m, run, l, lp, buf, cache[kvLayer]);
  }

  lemma NothingAppended(caches: seq<seq<KV>>)
    ensures OnlyAppended(caches, caches)
  {
  }

  /** A row whose projection is rejected, or a layer without a usable source, fails the layer. */
  lemma CellRejects(m: Model, run: Run, l: nat, b: nat)
    requires ValidRun(m, run) && l < |m.layers| && b < |run.inputs|
    ensures !SourceOk(m, l) || !m.projectOk(l, HiddenAt(m, run, l, b), run.start + b) ==> !LayerOk(m, run, l)
  {
    hide HiddenAt, AttnAt;
    assert LayerOk(m, run, l) ==> CellOk(m, run, l, b);
  }

  /** One layer over the whole batch. */
  method RunLayer(m: Model, run: Run, l: nat, lp: LayerPlan, buf: BatchBuffers, cache: array<seq<KV>>)
    returns (ok: bool)
    requires ValidRun(m, run) && SourcesOwnKV(m) && run.inputs != []
    requires l < |m.layers| && LayerPlanFor(m, run.start, |run.inputs|, l, lp)
    requires buf.Shaped() && buf.m == m && buf.rows == |run.inputs|
    requires forall b :: 0 <= b < buf.rows ==> buf.hidden[b] == HiddenAt(m, run, l, b)
    requires FilledBelow(m, run, l, cache[..])
    modifies buf, cache
    ensures buf.Shaped() && OnlyAppended(old(cache[..]), cache[..])
    ensures ok <==> LayerOk(m, run, l)
    ensures ok ==> FilledBelow(m, run, l + 1, cache[..])
    ensures FilledBelow(m, run, l, cache[..]) || FilledBelow(m, run, l + 1, cache[..])
    ensures ok ==> forall b :: 0 <= b < buf.rows ==> buf.hidden[b] == HiddenAt(m, run, l + 1, b)
  {
    hide HiddenAt, AttnAt, FinishRow, FilledBelow, OnlyAppended;
    ok := BatchAttention(m, run, l, lp, buf, cache);
    if !ok {
      return;
    }
    forall b | 0 <= b < buf.rows {
      HiddenStep(m, run, l, b);
    }
    ghost var attn := buf.attnOut;
    ok := buf.MixRows(l, run.extra);
    if !ok {
      ghost var b :| 0 <= b < buf.rows && !m.mixOk(l, HiddenAt(m, run, l, b), attn[b]);
      assert !CellOk(m, run, l, b);
    }
  }

  method AttendLayer(m: Model, run: Run, l: nat, lp: LayerPlan, buf: BatchBuffers, source: seq<KV>) returns (ok: bool)
    requires ValidRun(m, run) && SourcesOwnKV(m) && run.inputs != []
    requires l < |m.layers| && LayerPlanFor(m, run.start, |run.inputs|, l, lp)
    requires buf.Shaped() && buf.m == m && buf.rows == |run.inputs| == |buf.qkv|
    requires forall b :: 0 <= b < buf.rows ==> buf.qkv[b] == m.project(l, HiddenAt(m, run, l, b), run.start + b)
    requires if SourceOk(m, l) then source == CacheAt(m, run, Owner(m, l), |run.inputs|)
             else source == run.history[m.layers[l].kvSource]
    modifies buf`attnOut
    ensures buf.Shaped()
    ensures ok <==> SourceOk(m, l)
    ensures ok ==> forall b :: 0 <= b < buf.rows ==> buf.attnOut[b] == AttnAt(m, run, l, b)
  {
    hide HiddenAt, CacheAt, AttnAt;
    assert SourceOk(m, l) <==> |source| == run.start + buf.rows;
    ok := buf.AttendRows(l, lp, source);
    assert ok <==> lp.kvEnd[buf.rows - 1] <= |source|;
    if ok {
      forall b | 0 <= b < buf.rows
        ensures buf.attnOut[b] == AttnAt(m, run, l, b)
      {
        AttnFrom(m, run, l, b, buf.rows);
      }
    }
  }

  /** Every row's key and value, in row order, for a layer that owns K/V. */
  method AppendRows(m: Model, run: Run, l: nat, qkv: seq<QKV>, cache: array<seq<KV>>)
    requires ValidRun(m, run) && l < |m.layers| && |qkv| == |run.inputs|
    requires forall b :: 0 <= b < |qkv| ==> qkv[b] == m.project(l, HiddenAt(m, run, l, b), run.start + b)
    requires FilledBelow(m, run, l, cache[..])
    modifies cache
    ensures OnlyAppended(old(cache[..]), cache[..])
    ensures FilledBelow(m, run, l + 1, cache[..])
  {
    if m.layers[l].hasKV {
      for b := 0 to |qkv|
        invariant cache[l] == CacheAt(m, run, l, b)
        invariant forall i :: 0 <= i < cache.Length && i != l ==> cache[i] == old(cache[i])
      {
        cache[l] := cache[l] + [KV(qkv[b].k, qkv[b].v)];
      }
      CachePrefix(m, run, l, 0, |qkv|);
    }
  }

  /** Each owning layer's cache starts with its first `k` true rows, and is either no longer than that or
      starts with the rows of the whole run. A pass stopped midway leaves such caches. */
  ghost predicate Holding(m: Model, run: Run, k: nat, caches: seq<seq<KV>>)
    requires ValidRun(m, run) && k <= |run.inputs|
  {
    |caches| == |m.layers| && forall i :: 0 <= i < |caches| ==> HoldsRows(m, run, i, k, caches[i])
  }

  ghost predicate HoldsRows(m: Model, run: Run, i: nat, k: nat, c: seq<KV>)
    requires ValidRun(m, run) && i < |m.layers| && k <= |run.inputs|
  {
    if !m.layers[i].hasKV then c == []
    else c == CacheAt(m, run, i, k) || CacheAt(m, run, i, |run.inputs|) <= c
  }

  lemma FilledHolds(m: Model, run: Run, l: nat, caches: seq<seq<KV>>)
    requires ValidRun(m, run) && l <= |m.layers| && FilledBelow(m, run, l, caches)
    ensures Holding(m, run, 0, caches)
  {
    forall i | 0 <= i < |caches|
      ensures HoldsRows(m, run, i, 0, caches[i])
    {
      assert |run.history[i]| == if m.layers[i].hasKV then run.start else 0;
    }
  }

  /** All rows through layer `l`, then all rows through layer `l + 1`, ... It succeeds exactly when
      every shared layer reads an earlier layer and no kernel rejects a row; a forward source is
      caught by the range check because that layer has not appended this batch yet. */
  method RunLayers(m: Model, run: Run, cache: array<seq<KV>>) returns (ok: bool, out: seq<Vec>)
    requires ValidRun(m, run) && SourcesOwnKV(m) && run.inputs != []
    requires cache[..] == run.history
    modifies cache
    ensures ok <==> RunOk(m, run)
    ensures ok ==> out == FinalRows(m, run) && cache[..] == Caches(m, run, |run.inputs|)
    ensures OnlyAppended(run.history, cache[..]) && Holding(m, run, 0, cache[..])
  {
    var B := |run.inputs|;
    var plan := NewAttentionPlan(m, run.start, B);
    var buf := new BatchBuffers(m, run.inputs);
    for l := 0 to |m.layers|
      invariant buf.Shaped() && buf.m == m && buf.rows == B
      invariant forall b :: 0 <= b < B ==> buf.hidden[b] == HiddenAt(m, run, l, b)
      invariant FilledBelow(m, run, l, cache[..])
      invariant forall b :: 0 <= b < B ==> RowOkBelow(m, run, b, l)
      invariant OnlyAppended(run.history, cache[..])
    {
      ok := RunLayer(m, run, l, plan[l], buf, cache);
      if !ok {
        FilledHolds(m, run, if FilledBelow(m, run, l, cache[..]) then l else l + 1, cache[..]);
        ghost var b :| 0 <= b < B && !CellOk(m, run, l, b);
        RejectedCell(m, run, b, l, |m.layers|);
        assert !RowOk(m, run, b);
        return false, [];
      }
    }
    FilledHolds(m, run, |m.layers|, cache[..]);
    return true, buf.hidden;
  }

  // ---------------------------------------------------------------------------------------------
  // Token-major execution

  /** One layer for one row: append its key and value, attend over the cache up to its position. */
  method ForwardLayer(m: Model, hidden: Vec, extra: Vec, l: nat, pos: nat, cache: array<seq<KV>>)
    returns (ok: bool, out: Vec)
    requires l < |m.layers| && cache.Length == |m.layers|
    requires SourceOk(m, l)
    requires if m.layers[l].hasKV then |cache[l]| >= pos else |cache[m.layers[l].kvSource]| > pos
    modifies cache
    ensures var q := m.project(l, hidden, pos);
            var appended := if m.layers[l].hasKV then old(cache[l]) + [KV(q.k, q.v)] else old(cache[l]);
            var attn :=
              m.attend(l, q.q,
                       (if m.layers[l].hasKV then appended
                        else old(cache[m.layers[l].kvSource]))[WindowStart(m, l, pos)..pos + 1]);
            && (ok <==> m.projectOk(l, hidden, pos) && m.mixOk(l, hidden, attn))
            && (ok ==> out == FinishRow(m, l, hidden, attn, extra) && cache[l] == appended)
            && old(cache[l]) <= cache[l] <= appended
    ensures forall i :: 0 <= i < cache.Length && i != l ==> cache[i] == old(cache[i])
  {
    out := hidden;
    if !m.projectOk(l, hidden, pos) {
      return false, out;
    }
    var p := m.project(l, hidden, pos);
    var kvLayer := if m.layers[l].hasKV then l else m.layers[l].kvSource;
    if m.layers[l].hasKV {
      cache[l] := cache[l] + [KV(p.k, p.v)];
    }
    var seqLen := pos + 1;
    var attnSeqLen, offset := seqLen, 0;
    if m.window > 0 && m.layers[l].sliding && seqLen > m.window {
      attnSeqLen := m.window;
      offset := seqLen - m.window;
    }
    var attn := m.attend(l, p.q, cache[kvLayer][offset..offset + attnSeqLen]);
    if !m.mixOk(l, hidden, attn) {
      return false, out;
    }
    var o := m.outProject(l, attn);
    var mlpIn;
    if m.layers[l].preFFN {
      out := m.add(hidden, m.postNorm(l, o));
      mlpIn := m.preNorm(l, out);
    } else {
      out := m.add(hidden, o);
      mlpIn := m.postNorm(l, out);
    }
    out := m.add(out, m.mlp(l, mlpIn));
    if m.layers[l].perLayerInput {
      out := m.add(out, m.inputGate(l, out, extra));
    }
    return true, m.scale(l, out);
  }

  /** Caches while row `r` is between layers: layers below `l` already hold it. */
  ghost predicate FilledTo(m: Model, run: Run, r: nat, l: nat, caches: seq<seq<KV>>)
    requires ValidRun(m, run) && l <= |m.layers| && r < |run.inputs|
  {
    && |caches| == |m.layers|
    && forall i :: 0 <= i < |caches| ==>
                     caches[i] == if !m.layers[i].hasKV then []
                     else CacheAt(m, run, i, if i < l then r + 1 else r)
  }

  /** The window of layer `l` at `pos` in its own grown cache or in its source's. */
  function HeldRows(m: Model, l: nat, caches: seq<seq<KV>>, grown: seq<KV>, pos: nat): seq<KV>
    requires l < |m.layers| == |caches| && SourceOk(m, l)
  {
    var source := if m.layers[l].hasKV then grown else caches[Owner(m, l)];
    if pos < |source| then source[WindowStart(m, l, pos)..pos + 1] else []
  }

  /** Row `r` through layer `l`. */
  method RunCell(m: Model, run: Run, r: nat, l: nat, hidden: Vec, cache: array<seq<KV>>) returns (ok: bool, out: Vec)
    requires ValidRun(m, run) && SourcesOk(m) && r < |run.inputs| && l < |m.layers|
    requires hidden == HiddenAt(m, run, l, r) && FilledTo(m, run, r, l, cache[..])
    modifies cache
    ensures ok <==> CellOk(m, run, l, r)
    ensures ok ==> out == HiddenAt(m, run, l + 1, r) && FilledTo(m, run, r, l + 1, cache[..])
    ensures OnlyAppended(old(cache[..]), cache[..])
  {
    hide HiddenAt, AttnAt, FinishRow, CacheAt, KVAt, CellOk, FilledTo;
    HiddenStep(m, run, l, r);
    FilledCell(m, run, r, l, hidden, cache[..]);
    ghost var before := cache[..];
    ok, out := ForwardLayer(m, hidden, run.extra[r], l, run.start + r, cache);
    if ok {
      assert cache[..] == before[l := cache[l]];
    }
  }

  /** What a layer computes for row `r`, and the caches it leaves. */
  lemma FilledCell(m: Model, run: Run, r: nat, l: nat, hidden: Vec, caches: seq<seq<KV>>)
    requires ValidRun(m, run) && l < |m.layers| && SourceOk(m, l) && r < |run.inputs|
    requires hidden == HiddenAt(m, run, l, r) && FilledTo(m, run, r, l, caches)
    ensures |caches| == |m.layers|
    ensures var pos, p := run.start + r, m.project(l, hidden, run.start + r);
            var grown := if m.layers[l].hasKV then caches[l] + [KV(p.k, p.v)] else caches[l];
            var attn := m.attend(l, p.q, HeldRows(m, l, caches, grown, pos));
            && |caches[Owner(m, l)]| >= (if m.layers[l].hasKV then pos else pos + 1)
            && AttnAt(m, run, l, r) == attn && FilledTo(m, run, r, l + 1, caches[l := grown])
            && (CellOk(m, run, l, r) <==> m.projectOk(l, hidden, pos) && m.mixOk(l, hidden, attn))
  {
    hide HiddenAt, AttnAt, FinishRow, CacheAt, KVAt;
    AttnFrom(m, run, l, r, r + 1);
    GrownCell(m, run, r, l, hidden, caches);
  }

  lemma GrownCell(m: Model, run: Run, r: nat, l: nat, hidden: Vec, caches: seq<seq<KV>>)
    requires ValidRun(m, run) && l < |m.layers| && r < |run.inputs|
    requires hidden == HiddenAt(m, run, l, r) && FilledTo(m, run, r, l, caches)
    ensures var p := m.project(l, hidden, run.start + r);
            if m.layers[l].hasKV then
              var grown := caches[l] + [KV(p.k, p.v)];
              grown == CacheAt(m, run, l, r + 1) && FilledTo(m, run, r, l + 1, caches[l := grown])
            else FilledTo(m, run, r, l + 1, caches[l := caches[l]])
  {
    hide HiddenAt, AttnAt, FinishRow;
    var p := m.project(l, hidden, run.start + r);
    var grown := if m.layers[l].hasKV then caches[l] + [KV(p.k, p.v)] else caches[l];
  }

  /** Row `r` through every layer. */
  method RunRow(m: Model, run: Run, r: nat, cache: array<seq<KV>>) returns (ok: bool, hidden: Vec)
    requires ValidRun(m, run) && SourcesOk(m) && r < |run.inputs|
    requires cache[..] == Caches(m, run, r)
    modifies cache
    ensures ok <==> RowOk(m, run, r)
    ensures ok ==> hidden == HiddenAt(m, run, |m.layers|, r) && cache[..] == Caches(m, run, r + 1)
    ensures OnlyAppended(old(cache[..]), cache[..])
  {
    hide AttnAt, FinishRow, FilledTo, Caches, CellOk;
    hidden := run.inputs[r];
    FilledEnds(m, run, r, cache[..]);
    for l := 0 to |m.layers|
      invariant hidden == HiddenAt(m, run, l, r) && FilledTo(m, run, r, l, cache[..])
      invariant RowOkBelow(m, run, r, l)
      invariant OnlyAppended(old(cache[..]), cache[..])
    {
      ok, hidden := RunCell(m, run, r, l, hidden, cache);
      if !ok {
        RejectedCell(m, run, r, l, |m.layers|);
        return;
      }
    }
    FilledEnds(m, run, r, cache[..]);
    ok := true;
  }

  lemma CachesStart(m: Model, run: Run)
    requires ValidRun(m, run)
    ensures Caches(m, run, 0) == run.history
  {
  }

  lemma FilledEnds(m: Model, run: Run, r: nat, caches: seq<seq<KV>>)
    requires ValidRun(m, run) && r < |run.inputs|
    ensures FilledTo(m, run, r, 0, caches) <==> caches == Caches(m, run, r)
    ensures FilledTo(m, run, r, |m.layers|, caches) <==> caches == Caches(m, run, r + 1)
  {
    hide CacheAt;
  }

  /** Each row through every layer before the next row starts. */
  method RunRowsSequential(m: Model, run: Run, cache: array<seq<KV>>) returns (ok: bool, out: seq<Vec>)
    requires ValidRun(m, run) && SourcesOk(m)
    requires cache[..] == run.history
    modifies cache
    ensures ok <==> RunOk(m, run)
    ensures ok ==> out == FinalRows(m, run) && cache[..] == Caches(m, run, |run.inputs|)
    ensures OnlyAppended(run.history, cache[..])
  {
    hide HiddenAt, RowOkBelow, Caches;
    CachesStart(m, run);
    out := [];
    for r := 0 to |run.inputs|
      invariant |out| == r && cache[..] == Caches(m, run, r) && OnlyAppended(run.history, cache[..])
      invariant forall i :: 0 <= i < r ==> out[i] == HiddenAt(m, run, |m.layers|, i) && RowOk(m, run, i)
    {
      var hidden;
      ok, hidden := RunRow(m, run, r, cache);
      if !ok {
        return false, [];
      }
      out := out + [hidden];
    }
    ok := true;
  }

  // ---------------------------------------------------------------------------------------------
  // Token-major execution after a layer-major pass has failed

  /** Caches while row `r` is between layers. */
  ghost predicate HoldingTo(m: Model, run: Run, r: nat, l: nat, caches: seq<seq<KV>>)
    requires ValidRun(m, run) && l <= |m.layers| && r < |run.inputs|
  {
    && |caches| == |m.layers|
    && forall i :: 0 <= i < |caches| ==> HoldsRows(m, run, i, if i < l then r + 1 else r, caches[i])
  }

  lemma HoldingEnds(m: Model, run: Run, r: nat, caches: seq<seq<KV>>)
    requires ValidRun(m, run) && r < |run.inputs|
    ensures HoldingTo(m, run, r, 0, caches) <==> Holding(m, run, r, caches)
    ensures HoldingTo(m, run, r, |m.layers|, caches) <==> Holding(m, run, r + 1, caches)
  {
    hide HoldsRows;
  }

  /** What row `r` finds in its source cache: its true rows, with whatever follows them. */
  lemma HeldSource(m: Model, run: Run, r: nat, l: nat, c: seq<KV>)
    requires ValidRun(m, run) && l < |m.layers| && SourceOk(m, l) && r < |run.inputs|
    requires HoldsRows(m, run, Owner(m, l), r + 1, c)
    ensures var pos := run.start + r;
            pos < |c|
            && c[WindowStart(m, l, pos)..pos + 1] == CacheAt(m, run, Owner(m, l), r + 1)[WindowStart(m, l, pos)..]
  {
    var s, pos := Owner(m, l), run.start + r;
    CachePrefix(m, run, s, r + 1, |run.inputs|);
    var want := CacheAt(m, run, s, r + 1);
    assert c[..pos + 1] == want;
    assert c[WindowStart(m, l, pos)..pos + 1] == c[..pos + 1][WindowStart(m, l, pos)..];
  }

  /** One more row on an owning layer: where it was short it is now one row longer, elsewhere it still
      starts with all rows. */
  lemma HeldAppend(m: Model, run: Run, r: nat, l: nat, c: seq<KV>)
    requires ValidRun(m, run) && l < |m.layers| && m.layers[l].hasKV && r < |run.inputs| && HoldsRows(m, run, l, r, c)
    ensures HoldsRows(m, run, l, r + 1, c + [KVAt(m, run, l, r)]) && |c| >= run.start + r
  {
    hide HiddenAt, KVAt;
  }

  /** Row `r` through layer `l` over caches that may hold later rows already. */
  method RerunCell(m: Model, run: Run, r: nat, l: nat, hidden: Vec, cache: array<seq<KV>>) returns (ok: bool, out: Vec)
    requires ValidRun(m, run) && SourcesOk(m) && r < |run.inputs| && l < |m.layers|
    requires hidden == HiddenAt(m, run, l, r) && HoldingTo(m, run, r, l, cache[..])
    modifies cache
    ensures ok <==> CellOk(m, run, l, r)
    ensures ok ==> out == HiddenAt(m, run, l + 1, r) && HoldingTo(m, run, r, l + 1, cache[..])
  {
    hide HiddenAt, AttnAt, FinishRow, HoldsRows, KVAt, CacheAt, CellOk;
    HiddenStep(m, run, l, r);
    HeldCell(m, run, r, l, hidden, cache[..]);
    ghost var before := cache[..];
    ok, out := ForwardLayer(m, hidden, run.extra[r], l, run.start + r, cache);
    if ok {
      assert cache[..] == before[l := cache[l]];
    }
  }

  /** What a layer computes for row `r` over such caches. */
  lemma HeldCell(m: Model, run: Run, r: nat, l: nat, hidden: Vec, caches: seq<seq<KV>>)
    requires ValidRun(m, run) && l < |m.layers| && SourceOk(m, l) && r < |run.inputs|
    requires hidden == HiddenAt(m, run, l, r) && HoldingTo(m, run, r, l, caches)
    ensures var pos, p := run.start + r, m.project(l, hidden, run.start + r);
            var grown := if m.layers[l].hasKV then caches[l] + [KV(p.k, p.v)] else caches[l];
            var attn := m.attend(l, p.q, HeldRows(m, l, caches, grown, pos));
            && |caches[Owner(m, l)]| >= (if m.layers[l].hasKV then pos else pos + 1)
            && AttnAt(m, run, l, r) == attn && HoldsRows(m, run, l, r + 1, grown)
            && (CellOk(m, run, l, r) <==> m.projectOk(l, hidden, pos) && m.mixOk(l, hidden, attn))
  {
    hide HiddenAt, CacheAt, HoldsRows;
    var o := Owner(m, l);
    assert HoldsRows(m, run, o, if o < l then r + 1 else r, caches[o]);
    if m.layers[l].hasKV {
      HeldAppend(m, run, r, l, caches[l]);
      HeldSource(m, run, r, l, caches[l] + [KVAt(m, run, l, r)]);
    } else {
      HeldSource(m, run, r, l, caches[o]);
      SharedHolds(m, run, r, l, caches[l]);
    }
  }

  lemma SharedHolds(m: Model, run: Run, r: nat, l: nat, c: seq<KV>)
    requires ValidRun(m, run) && r < |run.inputs| && l < |m.layers| && !m.layers[l].hasKV && HoldsRows(m, run, l, r, c)
    ensures HoldsRows(m, run, l, r + 1, c)
  {
  }

  /** Row `r` through every layer, over the same kind of caches. It is rejected exactly when the row is. */
  method RerunRow(m: Model, run: Run, r: nat, cache: array<seq<KV>>) returns (ok: bool, hidden: Vec)
    requires ValidRun(m, run) && SourcesOk(m) && r < |run.inputs| && Holding(m, run, r, cache[..])
    modifies cache
    ensures ok <==> RowOk(m, run, r)
    ensures ok ==> hidden == HiddenAt(m, run, |m.layers|, r) && Holding(m, run, r + 1, cache[..])
  {
    hide AttnAt, FinishRow, HoldingTo, Holding, CellOk;
    hidden := run.inputs[r];
    HoldingEnds(m, run, r, cache[..]);
    for l := 0 to |m.layers|
      invariant hidden == HiddenAt(m, run, l, r) && HoldingTo(m, run, r, l, cache[..])
      invariant RowOkBelow(m, run, r, l)
    {
      ok, hidden := RerunCell(m, run, r, l, hidden, cache);
      if !ok {
        RejectedCell(m, run, r, l, |m.layers|);
        return;
      }
    }
    HoldingEnds(m, run, r, cache[..]);
    ok := true;
  }

  // ---------------------------------------------------------------------------------------------
  // Both schedules behind one entry point

  /** A shared layer whose source is not an earlier layer rejects every non-empty batch. */
  lemma ForwardSourceRejected(m: Model, run: Run)
    requires ValidRun(m, run) && run.inputs != [] && !SourcesOk(m)
    ensures !RunOk(m, run)
  {
    var l :| 0 <= l < |m.layers| && !SourceOk(m, l);
    RejectedCell(m, run, 0, l, |m.layers|);
    assert !RowOk(m, run, 0);
  }

  /** `m` with two layers: one that shares the K/V of the next, and the next. */
  function ForwardStack(m: Model): Model {
    m.(layers := [LayerSpec(false, 1, false, false, false), LayerSpec(true, 0, false, false, false)])
  }

  /** The validator accepts that stack, whatever the kernels, and no non-empty batch gets through it. */
  lemma ForwardStackRejected(m: Model, run: Run)
    requires ValidRun(ForwardStack(m), run) && run.inputs != []
    ensures SourcesOwnKV(ForwardStack(m)) && !SourcesOk(ForwardStack(m)) && !RunOk(ForwardStack(m), run)
  {
    assert !SourceOk(ForwardStack(m), 0);
    ForwardSourceRejected(ForwardStack(m), run);
  }

  /** Layer lowering when the model is eligible, row by row otherwise: the choice is invisible. */
  method BatchForward(m: Model, run: Run, cache: array<seq<KV>>, lowered: bool) returns (ok: bool, out: seq<Vec>)
    requires ValidRun(m, run) && SourcesOk(m) && run.inputs != []
    requires cache[..] == run.history
    modifies cache
    ensures ok <==> RunOk(m, run)
    ensures ok ==> out == FinalRows(m, run) && cache[..] == Caches(m, run, |run.inputs|)
    ensures OnlyAppended(run.history, cache[..]) && (lowered ==> Holding(m, run, 0, cache[..]))
  {
    hide HiddenAt, CacheAt, RunOk, Caches;
    forall l | 0 <= l < |m.layers| && !m.layers[l].hasKV
      ensures 0 <= m.layers[l].kvSource < |m.layers| && m.layers[m.layers[l].kvSource].hasKV
    {
      assert SourceOk(m, l);
    }
    if lowered {
      ok, out := RunLayers(m, run, cache);
    } else {
      ok, out := RunRowsSequential(m, run, cache);
    }
  }
}
