/** Independent forced-token branches over one prefilled trunk. All branches advance together, one
    depth at a time, with projections batched over the active branches; each branch appends to its
    own suffix and attends to the trunk plus that suffix only. */
module BranchBatch {
  import opened Transformer
  import opened Decoding
  import opened Schedules
  import opened Wrappers

  ghost function BranchRun(m: Model, trunk: seq<seq<KV>>, trunkLen: nat, branch: seq<int>): Run {
    RunOf(m, branch, trunkLen, trunk)
  }

  /** Logits after the last token of one branch run alone, token by token, after the trunk. */
  ghost function BranchLogits(m: Model, trunk: seq<seq<KV>>, trunkLen: nat, branch: seq<int>): seq<real>
    requires branch != [] && ValidRun(m, BranchRun(m, trunk, trunkLen, branch))
  {
    m.logits(HiddenAt(m, BranchRun(m, trunk, trunkLen, branch), |m.layers|, |branch| - 1))
  }

  /** The rows of layer `l` that a branch holds privately after its first `n` tokens. */
  ghost function Suffix(m: Model, run: Run, l: nat, n: nat): (s: seq<KV>)
    requires ValidRun(m, run) && l < |m.layers| && n <= |run.inputs|
    ensures m.layers[l].hasKV ==> |s| == n && run.history[l] + s == CacheAt(m, run, l, n)
  {
    if m.layers[l].hasKV then
      CachePrefix(m, run, l, 0, n);
      CacheAt(m, run, l, n)[run.start..]
    else []
  }

  /** The visible rows `[start, end)`: trunk rows first, then the branch's own suffix. */
  method Gather(trunkLen: nat, start: nat, end: nat, trunk: seq<KV>, suffix: seq<KV>) returns (rows: Option<seq<KV>>)
    ensures rows.Some? <==> start < end <= trunkLen + |suffix| && |trunk| == trunkLen
    ensures rows.Some? ==> rows.value == (trunk + suffix)[start..end]
  {
    if end <= start || end > trunkLen + |suffix| || |trunk| != trunkLen {
      return None;
    }
    var out: seq<KV> := [];
    for pos := start to end
      invariant out == (trunk + suffix)[start..pos]
    {
      if pos < trunkLen {
        out := out + [trunk[pos]];
      } else {
        out := out + [suffix[pos - trunkLen]];
      }
    }
    return Some(out);
  }

  /** Per-branch suffixes when every branch has passed `d` tokens, layers below `l` one more. */
  ghost predicate SuffixesAt(m: Model, runs: seq<Run>, suffix: array2<seq<KV>>, d: nat, l: nat)
    requires forall b :: 0 <= b < |runs| ==> ValidRun(m, runs[b])
    reads suffix
  {
    && suffix.Length0 == |runs| && suffix.Length1 == |m.layers|
    && forall b, i :: 0 <= b < |runs| && 0 <= i < |m.layers| ==>
                        suffix[b, i] == Suffix(m, runs[b], i, Min(|runs[b].inputs|, if i < l then d + 1 else d))
  }

  /** Branch `b` at layer `l`: append its own key and value, then attend. */
  method AttendBranch(m: Model, ghost run: Run, l: nat, d: nat, p: QKV, trunkLen: nat, trunk: array<seq<KV>>,
                      suffix: array2<seq<KV>>, b: nat)
    returns (attn: Vec)
    requires ValidRun(m, run) && SourcesOk(m) && l < |m.layers| && d < |run.inputs|
    requires trunk[..] == run.history && run.start == trunkLen && b < suffix.Length0 && suffix.Length1 == |m.layers|
    requires p == m.project(l, HiddenAt(m, run, l, d), run.start + d)
    requires forall i :: 0 <= i < |m.layers| ==> suffix[b, i] == Suffix(m, run, i, if i < l then d + 1 else d)
    modifies suffix
    ensures attn == AttnAt(m, run, l, d)
    ensures suffix[b, l] == Suffix(m, run, l, d + 1)
    ensures forall c, i :: 0 <= c < suffix.Length0 && 0 <= i < suffix.Length1 && (c != b || i != l) ==>
                             suffix[c, i] == old(suffix[c, i])
  {
    hide HiddenAt, AttnAt;
    var kvLayer := if m.layers[l].hasKV then l else m.layers[l].kvSource;
    if m.layers[l].hasKV {
      suffix[b, l] := suffix[b, l] + [KV(p.k, p.v)];
      assert run.history[l] + suffix[b, l] == CacheAt(m, run, l, d + 1);
    }
    var start := 0;
    var end := trunkLen + d + 1;
    if m.window > 0 && m.layers[l].sliding && end > m.window {
      start := end - m.window;
    }
    AttnFrom(m, run, l, d, d + 1);
    var rows := Gather(trunkLen, start, end, trunk[kvLayer], suffix[b, kvLayer]);
    attn := m.attend(l, p.q, rows.value);
  }

  /** The branches that still have a token at depth `d`, in order. */
  ghost predicate ActiveAt(runs: seq<Run>, d: nat, active: seq<nat>) {
    && (forall r :: 0 <= r < |active| ==> active[r] < |runs| && d < |runs[active[r]].inputs| == |runs[active[r]].extra|)
    && (forall r, t :: 0 <= r < t < |active| ==> active[r] < active[t])
    && (forall b :: 0 <= b < |runs| && d < |runs[b].inputs| ==> b in active)
  }

  ghost predicate AllValid(m: Model, runs: seq<Run>, trunk: seq<seq<KV>>, trunkLen: nat) {
    forall b :: 0 <= b < |runs| ==> ValidRun(m, runs[b]) && runs[b].history == trunk && runs[b].start == trunkLen
  }

  /** Suffixes while layer `l` has attended for the first `n` active branches. */
  ghost predicate SuffixesWithin(m: Model, runs: seq<Run>, suffix: array2<seq<KV>>, d: nat, l: nat, active: seq<nat>,
                                 n: nat)
    requires forall b :: 0 <= b < |runs| ==> ValidRun(m, runs[b])
    requires n <= |active|
    reads suffix
  {
    && suffix.Length0 == |runs| && suffix.Length1 == |m.layers|
    && forall b, i :: 0 <= b < |runs| && 0 <= i < |m.layers| ==>
                        suffix[b, i] ==
                        Suffix(m, runs[b], i,
                               Min(|runs[b].inputs|,
                                   if i < l || (i == l && b in active[..n]) then d + 1 else d))
  }

  method AttendBranches(m: Model, ghost runs: seq<Run>, l: nat, d: nat, active: seq<nat>, buf: BatchBuffers,
                        trunkLen: nat, trunk: array<seq<KV>>, suffix: array2<seq<KV>>)
    requires SourcesOk(m) && l < |m.layers| && AllValid(m, runs, trunk[..], trunkLen) && ActiveAt(runs, d, active)
    requires buf.Shaped() && buf.rows == |active| == |buf.qkv| && buf.m == m
    requires forall r :: 0 <= r < |active| ==>
                           buf.qkv[r] == m.project(l, HiddenAt(m, runs[active[r]], l, d), trunkLen + d)
    requires SuffixesAt(m, runs, suffix, d, l)
    modifies buf`attnOut, suffix
    ensures buf.Shaped() && SuffixesAt(m, runs, suffix, d, l + 1)
    ensures forall r :: 0 <= r < |active| ==> buf.attnOut[r] == AttnAt(m, runs[active[r]], l, d)
  {
    hide HiddenAt, AttnAt, Suffix, SuffixesAt, SuffixesWithin, ActiveAt, Attended;
    WithinEnds(m, runs, suffix, d, l, active);
    NoneAttended(m, runs, l, d, active, buf.attnOut);
    for r := 0 to |active|
      invariant buf.Shaped() && SuffixesWithin(m, runs, suffix, d, l, active, r)
      invariant Attended(m, runs, l, d, active, buf.attnOut, r)
    {
      ActiveRow(runs, d, active, r);
      var attn := AttendActive(m, runs, l, d, active, r, buf.qkv[r], trunkLen, trunk, suffix);
      AttendedNext(m, runs, l, d, active, buf.attnOut, r, attn);
      buf.attnOut := buf.attnOut[r := attn];
    }
    WithinEnds(m, runs, suffix, d, l, active);
    AllAttended(m, runs, l, d, active, buf.attnOut);
  }

  /** The first `n` attention outputs are those of the first `n` active branches. */
  ghost predicate Attended(m: Model, runs: seq<Run>, l: nat, d: nat, active: seq<nat>, attnOut: seq<Vec>, n: nat)
    requires l < |m.layers|
  {
    n <= |attnOut| && n <= |active| && forall r :: 0 <= r < n ==> AttendedRow(m, runs, l, d, active[r], attnOut[r])
  }

  ghost predicate AttendedRow(m: Model, runs: seq<Run>, l: nat, d: nat, b: nat, attn: Vec)
    requires l < |m.layers|
  {
    b < |runs| && ValidRun(m, runs[b]) && d < |runs[b].inputs| && attn == AttnAt(m, runs[b], l, d)
  }

  lemma NoneAttended(m: Model, runs: seq<Run>, l: nat, d: nat, active: seq<nat>, attnOut: seq<Vec>)
    requires l < |m.layers|
    ensures Attended(m, runs, l, d, active, attnOut, 0)
  {
  }

  lemma AttendedNext(m: Model, runs: seq<Run>, l: nat, d: nat, active: seq<nat>, attnOut: seq<Vec>, r: nat, attn: Vec)
    requires l < |m.layers| && r < |active| && r < |attnOut| && Attended(m, runs, l, d, active, attnOut, r)
    requires AttendedRow(m, runs, l, d, active[r], attn)
    ensures Attended(m, runs, l, d, active, attnOut[r := attn], r + 1)
  {
    hide AttendedRow;
  }

  lemma AllAttended(m: Model, runs: seq<Run>, l: nat, d: nat, active: seq<nat>, attnOut: seq<Vec>)
    requires l < |m.layers| && Attended(m, runs, l, d, active, attnOut, |active|)
    ensures forall r :: 0 <= r < |active| ==> AttendedRow(m, runs, l, d, active[r], attnOut[r])
  {
  }

  lemma ActiveRow(runs: seq<Run>, d: nat, active: seq<nat>, r: nat)
    requires ActiveAt(runs, d, active) && r < |active|
    ensures active[r] < |runs| && d < |runs[active[r]].inputs|
  {
  }

  /** The state before the first and after the last active branch. */
  lemma WithinEnds(m: Model, runs: seq<Run>, suffix: array2<seq<KV>>, d: nat, l: nat, active: seq<nat>)
    requires (forall b :: 0 <= b < |runs| ==> ValidRun(m, runs[b])) && ActiveAt(runs, d, active)
    ensures SuffixesAt(m, runs, suffix, d, l) <==> SuffixesWithin(m, runs, suffix, d, l, active, 0)
    ensures SuffixesWithin(m, runs, suffix, d, l, active, |active|) ==> SuffixesAt(m, runs, suffix, d, l + 1)
  {
    hide Suffix;
    assert active[..|active|] == active && active[..0] == [];
  }

  /** The `r`-th active branch. */
  method AttendActive(m: Model, ghost runs: seq<Run>, l: nat, d: nat, active: seq<nat>, r: nat, p: QKV, trunkLen: nat,
                      trunk: array<seq<KV>>, suffix: array2<seq<KV>>) returns (attn: Vec)
    requires SourcesOk(m) && l < |m.layers| && AllValid(m, runs, trunk[..], trunkLen) && ActiveAt(runs, d, active)
    requires r < |active| && p == m.project(l, HiddenAt(m, runs[active[r]], l, d), trunkLen + d)
    requires SuffixesWithin(m, runs, suffix, d, l, active, r)
    modifies suffix
    ensures SuffixesWithin(m, runs, suffix, d, l, active, r + 1)
    ensures attn == AttnAt(m, runs[active[r]], l, d)
  {
    hide HiddenAt, AttnAt, Suffix;
    assert active[..r + 1] == active[..r] + [active[r]];
    attn := AttendBranch(m, runs[active[r]], l, d, p, trunkLen, trunk, suffix, active[r]);
  }

  /** Projection and attention of the active branches at depth `d`. */
  method BranchAttention(m: Model, ghost runs: seq<Run>, l: nat, d: nat, active: seq<nat>, buf: BatchBuffers,
                         trunkLen: nat, trunk: array<seq<KV>>, suffix: array2<seq<KV>>) returns (ok: bool)
    requires SourcesOk(m) && l < |m.layers| && AllValid(m, runs, trunk[..], trunkLen) && ActiveAt(runs, d, active)
    requires buf.Shaped() && buf.rows == |active| && buf.m == m
    requires forall r :: 0 <= r < |active| ==> buf.hidden[r] == HiddenAt(m, runs[active[r]], l, d)
    requires SuffixesAt(m, runs, suffix, d, l)
    modifies buf, suffix
    ensures buf.Shaped() && buf.residual == old(buf.hidden)
    ensures ok <==> forall r :: 0 <= r < |active| ==> m.projectOk(l, old(buf.hidden[r]), trunkLen + d)
    ensures ok ==> SuffixesAt(m, runs, suffix, d, l + 1)
    ensures ok ==> forall r :: 0 <= r < |active| ==> buf.attnOut[r] == AttnAt(m, runs[active[r]], l, d)
  {
    hide HiddenAt, AttnAt, Suffix;
    buf.residual := buf.hidden;
    ok := buf.ProjectRows(l, seq(buf.rows, r => trunkLen + d));
    if ok {
      AttendBranches(m, runs, l, d, active, buf, trunkLen, trunk, suffix);
    }
  }

  /** One layer over the active branches at depth `d`. */
  method BranchLayer(m: Model, ghost runs: seq<Run>, l: nat, d: nat, active: seq<nat>, extra: seq<Vec>,
                     buf: BatchBuffers, trunkLen: nat, trunk: array<seq<KV>>,
                     suffix: array2<seq<KV>>) returns (ok: bool)
    requires SourcesOk(m) && l < |m.layers| && AllValid(m, runs, trunk[..], trunkLen) && ActiveAt(runs, d, active)
    requires buf.Shaped() && buf.rows == |active| == |extra| && buf.m == m
    requires forall r :: 0 <= r < |active| ==>
                           buf.hidden[r] == HiddenAt(m, runs[active[r]], l, d) && extra[r] == runs[active[r]].extra[d]
    requires SuffixesAt(m, runs, suffix, d, l)
    modifies buf, suffix
    ensures buf.Shaped()
    ensures ok <==> forall r :: 0 <= r < |active| ==> CellOk(m, runs[active[r]], l, d)
    ensures ok ==> SuffixesAt(m, runs, suffix, d, l + 1)
    ensures ok ==> forall r :: 0 <= r < |active| ==> buf.hidden[r] == HiddenAt(m, runs[active[r]], l + 1, d)
  {
    hide HiddenAt, AttnAt, SuffixesAt, FinishRow;
    ghost var h := buf.hidden;
    ok := BranchAttention(m, runs, l, d, active, buf, trunkLen, trunk, suffix);
    if !ok {
      ghost var r :| 0 <= r < |active| && !m.projectOk(l, h[r], trunkLen + d);
      assert !CellOk(m, runs[active[r]], l, d);
      return;
    }
    forall r | 0 <= r < |active| {
      HiddenStep(m, runs[active[r]], l, d);
    }
    ghost var attn := buf.attnOut;
    ok := buf.MixRows(l, extra);
    if !ok {
      ghost var r :| 0 <= r < |active| && !m.mixOk(l, HiddenAt(m, runs[active[r]], l, d), attn[r]);
      assert !CellOk(m, runs[active[r]], l, d);
    }
  }

  /** Every active branch through all layers for its token at depth `d`. */
  method BranchDepth(m: Model, ghost runs: seq<Run>, d: nat, active: seq<nat>, inputs: seq<Vec>, extra: seq<Vec>,
                     trunkLen: nat, trunk: array<seq<KV>>, suffix: array2<seq<KV>>) returns (ok: bool, hidden: seq<Vec>)
    requires SourcesOk(m) && AllValid(m, runs, trunk[..], trunkLen) && ActiveAt(runs, d, active)
    requires |inputs| == |extra| == |active|
    requires forall r :: 0 <= r < |active| ==>
                           inputs[r] == runs[active[r]].inputs[d] && extra[r] == runs[active[r]].extra[d]
    requires SuffixesAt(m, runs, suffix, d, 0)
    modifies suffix
    ensures ok ==> |hidden| == |active| && SuffixesAt(m, runs, suffix, d + 1, 0)
    ensures ok ==> forall r :: 0 <= r < |active| ==>
                                 hidden[r] == HiddenAt(m, runs[active[r]], |m.layers|, d)
                                 && RowOk(m, runs[active[r]], d)
    ensures !ok ==> exists r :: 0 <= r < |active| && !RowOk(m, runs[active[r]], d)
  {
    hide AttnAt, SuffixesAt, FinishRow, CellOk;
    var buf := new BatchBuffers(m, inputs);
    for l := 0 to |m.layers|
      invariant buf.Shaped() && buf.m == m && buf.rows == |active|
      invariant forall r :: 0 <= r < |active| ==> buf.hidden[r] == HiddenAt(m, runs[active[r]], l, d)
      invariant forall r :: 0 <= r < |active| ==> RowOkBelow(m, runs[active[r]], d, l)
      invariant SuffixesAt(m, runs, suffix, d, l)
    {
      ok := BranchLayer(m, runs, l, d, active, extra, buf, trunkLen, trunk, suffix);
      if !ok {
        RejectedBranch(m, runs, trunk[..], trunkLen, active, l, d);
        return false, [];
      }
    }
    NextDepth(m, runs, suffix, d);
    return true, buf.hidden;
  }

  lemma RejectedBranch(m: Model, runs: seq<Run>, trunk: seq<seq<KV>>, trunkLen: nat, active: seq<nat>, l: nat, d: nat)
    requires AllValid(m, runs, trunk, trunkLen) && ActiveAt(runs, d, active) && l < |m.layers|
    requires exists r :: 0 <= r < |active| && !CellOk(m, runs[active[r]], l, d)
    ensures exists r :: 0 <= r < |active| && !RowOk(m, runs[active[r]], d)
  {
    hide CellOk, RowOkBelow;
    var r :| 0 <= r < |active| && !CellOk(m, runs[active[r]], l, d);
    RejectedCell(m, runs[active[r]], d, l, |m.layers|);
    assert !RowOk(m, runs[active[r]], d);
  }

  lemma NextDepth(m: Model, runs: seq<Run>, suffix: array2<seq<KV>>, d: nat)
    requires forall b :: 0 <= b < |runs| ==> ValidRun(m, runs[b])
    requires SuffixesAt(m, runs, suffix, d, |m.layers|)
    ensures SuffixesAt(m, runs, suffix, d + 1, 0)
  {
    hide Suffix;
  }

  // ---------------------------------------------------------------------------------------------
  // The whole batch

  /** What the trunk and layer validators accept. */
  ghost predicate TrunkOk(m: Model, trunkLen: nat, trunk: seq<seq<KV>>) {
    && trunkLen > 0 && |trunk| == |m.layers|
    && (forall l :: 0 <= l < |m.layers| ==> |trunk[l]| == if m.layers[l].hasKV then trunkLen else 0)
    && (forall l :: 0 <= l < |m.layers| ==> SourceOk(m, l))
  }

  /** Validates the trunk, then the layers. */
  method CheckTrunk(m: Model, trunkLen: nat, trunk: seq<seq<KV>>) returns (ok: bool)
    ensures ok <==> TrunkOk(m, trunkLen, trunk)
    ensures ok ==> trunkLen > 0 && |trunk| == |m.layers|
    ensures ok ==> forall l :: 0 <= l < |m.layers| ==>
                                 if m.layers[l].hasKV then |trunk[l]| == trunkLen
                                 else trunk[l] == [] && 0 <= m.layers[l].kvSource < l
                                      && m.layers[m.layers[l].kvSource].hasKV
  {
    if trunkLen <= 0 || |trunk| != |m.layers| {
      return false;
    }
    for l := 0 to |m.layers|
      invariant forall i :: 0 <= i < l ==> |trunk[i]| == if m.layers[i].hasKV then trunkLen else 0
    {
      var want := if m.layers[l].hasKV then trunkLen else 0;
      if |trunk[l]| != want {
        return false;
      }
    }
    for l := 0 to |m.layers|
      invariant forall i :: 0 <= i < l ==> SourceOk(m, i)
    {
      if !m.layers[l].hasKV {
        var source := m.layers[l].kvSource;
        if source < 0 || source >= l || !m.layers[source].hasKV {
          assert !SourceOk(m, l);
          return false;
        }
      }
    }
    forall l | 0 <= l < |m.layers|
      ensures m.layers[l].hasKV || (0 <= m.layers[l].kvSource < l && m.layers[m.layers[l].kvSource].hasKV)
    {
      assert SourceOk(m, l);
    }
    return true;
  }

  ghost predicate LogitsSoFar(m: Model, trunk: seq<seq<KV>>, trunkLen: nat, branches: seq<seq<int>>, d: nat,
                              out: seq<seq<real>>)
    requires TrunkOk(m, trunkLen, trunk)
  {
    && |out| == |branches|
    && forall b :: 0 <= b < |branches| && 0 < |branches[b]| <= d ==>
                     out[b] == BranchLogits(m, trunk, trunkLen, branches[b])
  }

  /** No branch would be rejected if it ran alone. */
  ghost predicate BranchesOk(m: Model, trunk: seq<seq<KV>>, trunkLen: nat, branches: seq<seq<int>>)
    requires TrunkOk(m, trunkLen, trunk)
  {
    forall b :: 0 <= b < |branches| ==> RunOk(m, BranchRun(m, trunk, trunkLen, branches[b]))
  }

  ghost function BranchRuns(m: Model, trunk: seq<seq<KV>>, trunkLen: nat, branches: seq<seq<int>>): (runs: seq<Run>)
    requires TrunkOk(m, trunkLen, trunk)
    ensures |runs| == |branches| && AllValid(m, runs, trunk, trunkLen)
    ensures forall b :: 0 <= b < |runs| ==> runs[b] == BranchRun(m, trunk, trunkLen, branches[b])
  {
    seq(|branches|, b requires 0 <= b < |branches| => BranchRun(m, trunk, trunkLen, branches[b]))
  }

  /** Depth-major scoring of ragged branches. Every branch gets the logits it would get alone; the
      batch fails exactly when some branch would fail alone. The trunk is not written. */
  method RunBranchBatch(m: Model, trunkLen: nat, trunk: array<seq<KV>>, branches: seq<seq<int>>)
    returns (r: Option<seq<seq<real>>>)
    requires forall b :: 0 <= b < |branches| ==> branches[b] != []
    ensures r.Some? <==> TrunkOk(m, trunkLen, trunk[..]) && BranchesOk(m, trunk[..], trunkLen, branches)
    ensures r.Some? ==>
              |r.value| == |branches|
              && forall b :: 0 <= b < |branches| ==> r.value[b] == BranchLogits(m, trunk[..], trunkLen, branches[b])
  {
    var usable := CheckTrunk(m, trunkLen, trunk[..]);
    if !usable {
      return None;
    }
    hide SuffixesAt, BranchLogits, RunOk;
    ghost var t := trunk[..];
    ghost var runs := BranchRuns(m, t, trunkLen, branches);
    var suffix := new seq<KV>[|branches|, |m.layers|]((b, l) => []);
    NoSuffixes(m, runs, suffix);
    var maxDepth := MaxLength(branches);
    var out: seq<seq<real>> := seq(|branches|, b => []);
    for d := 0 to maxDepth
      invariant trunk[..] == t && SuffixesAt(m, runs, suffix, d, 0)
      invariant LogitsSoFar(m, t, trunkLen, branches, d, out) && RowsOkBefore(m, runs, d)
    {
      var active, inputs, extra := ActiveRows(m, runs, branches, d);
      var ok, hidden := BranchDepth(m, runs, d, active, inputs, extra, trunkLen, trunk, suffix);
      if !ok {
        RejectedRun(m, t, trunkLen, branches, active, d);
        return None;
      }
      RowsOkNext(m, runs, active, d);
      out := Completed(m, runs, t, trunkLen, branches, d, active, hidden, out);
    }
    AllRowsOk(m, t, trunkLen, branches, maxDepth);
    return Some(out);
  }

  ghost predicate RowsOkBefore(m: Model, runs: seq<Run>, d: nat)
    requires forall b :: 0 <= b < |runs| ==> ValidRun(m, runs[b])
  {
    forall b, e :: 0 <= b < |runs| && 0 <= e < d && e < |runs[b].inputs| ==> RowOk(m, runs[b], e)
  }

  lemma RowsOkNext(m: Model, runs: seq<Run>, active: seq<nat>, d: nat)
    requires forall b :: 0 <= b < |runs| ==> ValidRun(m, runs[b])
    requires RowsOkBefore(m, runs, d) && ActiveAt(runs, d, active)
    requires forall r :: 0 <= r < |active| ==> RowOk(m, runs[active[r]], d)
    ensures RowsOkBefore(m, runs, d + 1)
  {
    hide RowOk;
    forall b, e | 0 <= b < |runs| && 0 <= e < d + 1 && e < |runs[b].inputs|
      ensures RowOk(m, runs[b], e)
    {
      if e == d {
        assert b in active;
      }
    }
  }

  lemma RejectedRun(m: Model, trunk: seq<seq<KV>>, trunkLen: nat, branches: seq<seq<int>>, active: seq<nat>, d: nat)
    requires TrunkOk(m, trunkLen, trunk)
    requires ActiveAt(BranchRuns(m, trunk, trunkLen, branches), d, active)
    requires exists r :: 0 <= r < |active| && !RowOk(m, BranchRuns(m, trunk, trunkLen, branches)[active[r]], d)
    ensures !BranchesOk(m, trunk, trunkLen, branches)
  {
    hide RowOk;
    var r :| 0 <= r < |active| && !RowOk(m, BranchRuns(m, trunk, trunkLen, branches)[active[r]], d);
    assert !RunOk(m, BranchRun(m, trunk, trunkLen, branches[active[r]]));
  }

  lemma AllRowsOk(m: Model, trunk: seq<seq<KV>>, trunkLen: nat, branches: seq<seq<int>>, d: nat)
    requires TrunkOk(m, trunkLen, trunk) && RowsOkBefore(m, BranchRuns(m, trunk, trunkLen, branches), d)
    requires forall b :: 0 <= b < |branches| ==> |branches[b]| <= d
    ensures BranchesOk(m, trunk, trunkLen, branches)
  {
    hide RowOk;
    var runs := BranchRuns(m, trunk, trunkLen, branches);
    forall b | 0 <= b < |branches|
      ensures RunOk(m, runs[b])
    {
    }
  }

  lemma NoSuffixes(m: Model, runs: seq<Run>, suffix: array2<seq<KV>>)
    requires forall b :: 0 <= b < |runs| ==> ValidRun(m, runs[b])
    requires suffix.Length0 == |runs| && suffix.Length1 == |m.layers|
    requires forall b, i :: 0 <= b < |runs| && 0 <= i < |m.layers| ==> suffix[b, i] == []
    ensures SuffixesAt(m, runs, suffix, 0, 0)
  {
  }

  method MaxLength(branches: seq<seq<int>>) returns (n: nat)
    ensures forall b :: 0 <= b < |branches| ==> |branches[b]| <= n
  {
    n := 0;
    for b := 0 to |branches|
      invariant forall i :: 0 <= i < b ==> |branches[i]| <= n
    {
      if |branches[b]| > n {
        n := |branches[b]|;
      }
    }
  }

  /** Active branches at depth `d` with the embedding and per-layer inputs of their token. */
  method ActiveRows(m: Model, ghost runs: seq<Run>, branches: seq<seq<int>>, d: nat)
    returns (active: seq<nat>, inputs: seq<Vec>, extra: seq<Vec>)
    requires |runs| == |branches|
    requires forall b :: 0 <= b < |runs| ==>
                           runs[b].inputs == Embedded(m, branches[b]) && runs[b].extra == Inputs(m, branches[b])
    ensures ActiveAt(runs, d, active) && |inputs| == |extra| == |active|
    ensures forall r :: 0 <= r < |active| ==>
                          inputs[r] == runs[active[r]].inputs[d] && extra[r] == runs[active[r]].extra[d]
  {
    active, inputs, extra := [], [], [];
    for b := 0 to |branches|
      invariant |inputs| == |extra| == |active|
      invariant forall r :: 0 <= r < |active| ==> active[r] < b && d < |branches[active[r]]|
      invariant forall r, t :: 0 <= r < t < |active| ==> active[r] < active[t]
      invariant forall c :: 0 <= c < b && d < |branches[c]| ==> c in active
      invariant forall r :: 0 <= r < |active| ==>
                              inputs[r] == m.embed(branches[active[r]][d])
                              && extra[r] == m.tokenInputs(branches[active[r]][d])
    {
      if d < |branches[b]| {
        active := active + [b];
        inputs := inputs + [m.embed(branches[b][d])];
        extra := extra + [m.tokenInputs(branches[b][d])];
      }
    }
  }

  /** Final norm and LM head for the branches whose last token was at depth `d`. */
  method Completed(m: Model, ghost runs: seq<Run>, ghost trunk: seq<seq<KV>>, ghost trunkLen: nat,
                   branches: seq<seq<int>>, d: nat, active: seq<nat>, hidden: seq<Vec>,
                   logits: seq<seq<real>>) returns (out: seq<seq<real>>)
    requires TrunkOk(m, trunkLen, trunk) && |runs| == |branches| && |hidden| == |active|
             && AllValid(m, runs, trunk, trunkLen)
    requires forall b :: 0 <= b < |runs| ==> runs[b] == BranchRun(m, trunk, trunkLen, branches[b])
    requires ActiveAt(runs, d, active) && LogitsSoFar(m, trunk, trunkLen, branches, d, logits)
    requires forall r :: 0 <= r < |active| ==> hidden[r] == HiddenAt(m, runs[active[r]], |m.layers|, d)
    ensures LogitsSoFar(m, trunk, trunkLen, branches, d + 1, out)
  {
    out := logits;
    for r := 0 to |active|
      invariant LogitsSoFar(m, trunk, trunkLen, branches, d, out)
      invariant forall t :: 0 <= t < r && |branches[active[t]]| == d + 1 ==>
                              out[active[t]] == BranchLogits(m, trunk, trunkLen, branches[active[t]])
    {
      if |branches[active[r]]| == d + 1 {
        out := out[active[r] := m.logits(hidden[r])];
      }
    }
    forall b | 0 <= b < |branches| && |branches[b]| == d + 1
      ensures out[b] == BranchLogits(m, trunk, trunkLen, branches[b])
    {
      assert b in active;
    }
  }

  /** The reference: one branch alone, token by token, on a copy of the trunk. */
  method ScoreAlone(m: Model, trunkLen: nat, trunk: array<seq<KV>>, branch: seq<int>) returns (r: Option<seq<real>>)
    requires branch != []
    ensures r.Some? <==> TrunkOk(m, trunkLen, trunk[..]) && RunOk(m, BranchRun(m, trunk[..], trunkLen, branch))
    ensures r.Some? ==> r.value == BranchLogits(m, trunk[..], trunkLen, branch)
  {
    var usable := CheckTrunk(m, trunkLen, trunk[..]);
    if !usable {
      return None;
    }
    assert ValidRun(m, BranchRun(m, trunk[..], trunkLen, branch)) && SourcesOk(m);
    hide HiddenAt, RunOk, Caches, TrunkOk, ValidRun;
    var cache := new seq<KV>[trunk.Length](l requires 0 <= l < trunk.Length reads trunk => trunk[l]);
    assert cache[..] == trunk[..];
    var run := RunOf(m, branch, trunkLen, trunk[..]);
    var ok, out := RunRowsSequential(m, run, cache);
    return if ok then Some(m.logits(out[|branch| - 1])) else None;
  }

  /** On the true caches of a token sequence, a branch is scored as if the whole sequence had been
      decoded from the start. */
  lemma BranchContinues(m: Model, tokens: seq<int>, branch: seq<int>)
    requires branch != []
    ensures ValidRun(m, BranchRun(m, TrueCaches(m, tokens), |tokens|, branch))
    ensures BranchLogits(m, TrueCaches(m, tokens), |tokens|, branch) == LogitsAfter(m, tokens + branch)
  {
    hide HiddenAt, RunOk;
    Extend(m, tokens, branch);
    var run := BranchRun(m, TrueCaches(m, tokens), |tokens|, branch);
    assert FinalRows(m, run)[|branch| - 1] == FinalRows(m, FreshRun(m, tokens + branch))[|tokens|..][|branch| - 1];
  }
}
