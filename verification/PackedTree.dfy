/** Packing several contexts, each with its own copy of a set of branches, into one flat pass. */
module PackedTree {
  import opened Wrappers
  import KVArena

  datatype Segment = Segment(offset: nat, length: nat, parentStart: nat, parentLength: nat, terminal: bool)

  datatype Layout = Layout(flat: seq<int>, segments: seq<Segment>, selected: seq<seq<int>>)

  /** Position of a context/branch pair among `branches`-wide rows of cells. */
  function Cell(c: nat, b: nat, branches: nat): nat {
    c * branches + b
  }

  lemma Widen(c: nat, d: nat, n: nat)
    requires d > 0
    ensures (c + d) * n == c * n + d * n && d * n >= n
  {
  }

  /** Cells are in one-to-one correspondence with pairs. */
  lemma CellUnique(c1: nat, b1: nat, c2: nat, b2: nat, branches: nat)
    requires b1 < branches && b2 < branches && Cell(c1, b1, branches) == Cell(c2, b2, branches)
    ensures c1 == c2 && b1 == b2
  {
    if c1 < c2 {
      Widen(c1, c2 - c1, branches);
    } else if c2 < c1 {
      Widen(c2, c1 - c2, branches);
    }
  }

  // ---------------------------------------------------------------------------------------------
  // Meaning of a layout

  /** Segments follow each other and cover the flat rows exactly. */
  predicate Tiling(segments: seq<Segment>, rows: nat) {
    if segments == [] then rows == 0
    else
      var n := |segments| - 1;
      segments[n].length > 0 && segments[n].offset + segments[n].length == rows
      && Tiling(segments[..n], segments[n].offset)
  }

  /** Last rows of the terminal segments, in order. */
  function TerminalRows(segments: seq<Segment>): seq<nat>
    requires forall i :: 0 <= i < |segments| ==> segments[i].length > 0
  {
    if segments == [] then []
    else
      var n := |segments| - 1;
      TerminalRows(segments[..n]) + if segments[n].terminal then [segments[n].offset + segments[n].length - 1] else []
  }

  /** A segment holds `tokens`. */
  predicate HoldsTokens(flat: seq<int>, s: Segment, tokens: seq<int>) {
    s.offset + s.length <= |flat| && flat[s.offset..s.offset + s.length] == tokens
  }

  /** Segment of context `c`: its branches follow it. */
  function ContextAt(c: nat, branches: nat): nat {
    Cell(c, 0, branches + 1)
  }

  function BranchAt(c: nat, b: nat, branches: nat): nat {
    Cell(c, b + 1, branches + 1)
  }

  ghost predicate ContextPlaced(l: Layout, contexts: seq<seq<int>>, branches: seq<seq<int>>, c: nat)
    requires c < |contexts|
  {
    var at := ContextAt(c, |branches|);
    at < |l.segments| && !l.segments[at].terminal && HoldsTokens(l.flat, l.segments[at], contexts[c])
  }

  /** Branch `b` of context `c`: its tokens, its own context as parent, and its candidate list in the
      cell of the pair, where its last row is also the terminal row. */
  ghost predicate BranchPlaced(l: Layout, terminals: seq<nat>, contexts: seq<seq<int>>, branches: seq<seq<int>>,
                               candidates: seq<seq<int>>, c: nat, b: nat)
    requires c < |contexts| && b < |branches| == |candidates|
  {
    var at, parent, cell := BranchAt(c, b, |branches|), ContextAt(c, |branches|), Cell(c, b, |branches|);
    && parent < at < |l.segments| && l.segments[at].terminal && HoldsTokens(l.flat, l.segments[at], branches[b])
    && l.segments[at].parentStart == l.segments[parent].offset
    && l.segments[at].parentLength == l.segments[parent].length
    && cell < |l.selected| && l.selected[cell] == candidates[b]
    && cell < |terminals| && terminals[cell] + 1 == l.segments[at].offset + l.segments[at].length
  }

  predicate Lengths(l: Layout) {
    forall i :: 0 <= i < |l.segments| ==> l.segments[i].length > 0
  }

  /** Contexts before `c`, and branches of context `c` before `b`, are laid out. */
  ghost predicate Built(l: Layout, contexts: seq<seq<int>>, branches: seq<seq<int>>, candidates: seq<seq<int>>, c: nat,
                        b: nat)
    requires |branches| == |candidates| && c <= |contexts| && b <= |branches|
  {
    && Lengths(l) && Tiling(l.segments, |l.flat|) && |l.flat| <= KVArena.PACKED_ROWS
    && (forall i, j :: 0 <= i < c && 0 <= j < |branches| ==>
                         BranchPlaced(l, TerminalRows(l.segments), contexts, branches, candidates, i, j))
    && (forall i :: 0 <= i < c ==> ContextPlaced(l, contexts, branches, i))
    && (c < |contexts| ==>
          forall j :: 0 <= j < b ==> BranchPlaced(l, TerminalRows(l.segments), contexts, branches, candidates, c, j))
  }

  // ---------------------------------------------------------------------------------------------
  // Limits

  predicate TokensIn(tokens: seq<int>, vocab: int) {
    forall i :: 0 <= i < |tokens| ==> 0 <= tokens[i] < vocab
  }

  predicate SequenceOk(tokens: seq<int>, vocab: int) {
    |tokens| >= 1 && TokensIn(tokens, vocab)
  }

  predicate PairOk(context: seq<int>, branch: seq<int>, candidates: seq<int>, prefixLen: nat, contextLimit: int,
                   vocab: int) {
    && SequenceOk(branch, vocab) && prefixLen + |context| + |branch| <= contextLimit
    && 1 <= |candidates| <= 255 && TokensIn(candidates, vocab)
  }

  function Rows(seqs: seq<seq<int>>): nat {
    if seqs == [] then 0 else Rows(seqs[..|seqs| - 1]) + |seqs[|seqs| - 1]|
  }

  /** Flat rows of all contexts with all their branches. */
  function TotalRows(contexts: seq<seq<int>>, branches: seq<seq<int>>): nat {
    if contexts == [] then 0
    else TotalRows(contexts[..|contexts| - 1], branches) + |contexts[|contexts| - 1]| + Rows(branches)
  }

  lemma {:induction false} RowsGrow(seqs: seq<seq<int>>, n: nat)
    requires n <= |seqs|
    ensures Rows(seqs[..n]) <= Rows(seqs)
    decreases |seqs|
  {
    if n < |seqs| {
      var m := |seqs| - 1;
      RowsGrow(seqs[..m], n);
      assert seqs[..m][..n] == seqs[..n];
    } else {
      assert seqs[..n] == seqs;
    }
  }

  lemma {:induction false} TotalGrows(contexts: seq<seq<int>>, branches: seq<seq<int>>, n: nat)
    requires n <= |contexts|
    ensures TotalRows(contexts[..n], branches) <= TotalRows(contexts, branches)
    decreases |contexts|
  {
    if n < |contexts| {
      var m := |contexts| - 1;
      TotalGrows(contexts[..m], branches, n);
      assert contexts[..m][..n] == contexts[..n];
    } else {
      assert contexts[..n] == contexts;
    }
  }

  ghost predicate GroupOk(contexts: seq<seq<int>>, branches: seq<seq<int>>, candidates: seq<seq<int>>, prefixLen: nat,
                          contextLimit: int, vocab: int) {
    && |contexts| >= 1 && |branches| >= 1 && |branches| == |candidates| && |contexts| <= 256 / |branches|
    && (forall c :: 0 <= c < |contexts| ==> SequenceOk(contexts[c], vocab))
    && (forall c, b :: 0 <= c < |contexts| && 0 <= b < |branches| ==>
                         PairOk(contexts[c], branches[b], candidates[b], prefixLen, contextLimit, vocab))
    && TotalRows(contexts, branches) <= KVArena.PACKED_ROWS
  }

  // ---------------------------------------------------------------------------------------------
  // Building

  /** Appending a segment keeps everything laid out before. */
  lemma Appended(l: Layout, l': Layout, contexts: seq<seq<int>>, branches: seq<seq<int>>, candidates: seq<seq<int>>,
                 c: nat, b: nat)
    requires |branches| == |candidates| && c <= |contexts| && b <= |branches|
             && Built(l, contexts, branches, candidates, c, b)
    requires l.flat <= l'.flat && |l'.segments| == |l.segments| + 1 && l'.segments[..|l.segments|] == l.segments
             && l.selected <= l'.selected
    requires Lengths(l') && |l'.flat| <= KVArena.PACKED_ROWS && l'.segments[|l.segments|].offset == |l.flat|
    requires l'.segments[|l.segments|].offset + l'.segments[|l.segments|].length == |l'.flat|
    ensures TerminalRows(l'.segments) == TerminalRows(l.segments) + if l'.segments[|l.segments|].terminal
                                         then [|l'.flat| - 1] else []
    ensures Built(l', contexts, branches, candidates, c, b)
  {
    var t, t' := TerminalRows(l.segments), TerminalRows(l'.segments);
    hide TerminalRows;
    assert Tiling(l'.segments, |l'.flat|);
    hide Cell, Tiling;
    forall i, j | 0 <= i < c && 0 <= j < |branches|
      ensures BranchPlaced(l', t', contexts, branches, candidates, i, j)
    {
      assert BranchPlaced(l, t, contexts, branches, candidates, i, j);
    }
    forall i | 0 <= i < c
      ensures ContextPlaced(l', contexts, branches, i)
    {
      assert ContextPlaced(l, contexts, branches, i);
    }
    if c < |contexts| {
      forall j | 0 <= j < b
        ensures BranchPlaced(l', t', contexts, branches, candidates, c, j)
      {
        assert BranchPlaced(l, t, contexts, branches, candidates, c, j);
      }
    }
  }

  /** Appends a token sequence to the flat rows, within the row budget and the vocabulary. */
  method AppendTokens(flat: seq<int>, tokens: seq<int>, vocab: int) returns (ok: bool, after: seq<int>)
    requires |flat| <= KVArena.PACKED_ROWS
    ensures ok <==> SequenceOk(tokens, vocab) && |flat| + |tokens| <= KVArena.PACKED_ROWS
    ensures ok ==> after == flat + tokens
  {
    if |tokens| < 1 || |tokens| > KVArena.PACKED_ROWS - |flat| {
      return false, flat;
    }
    for i := 0 to |tokens|
      invariant TokensIn(tokens[..i], vocab)
    {
      if tokens[i] < 0 || tokens[i] >= vocab {
        return false, flat;
      }
    }
    return true, flat + tokens;
  }

  /** How much of a layout exists: context `c` and its first `b` branches are in place. */
  ghost predicate Reached(l: Layout, contexts: seq<seq<int>>, branches: seq<seq<int>>, c: nat, b: nat)
    requires Lengths(l) && c < |contexts| && b <= |branches|
  {
    && |l.segments| == BranchAt(c, b, |branches|) > ContextAt(c, |branches|)
    && |l.selected| == Cell(c, b, |branches|) == |TerminalRows(l.segments)|
    && ContextPlaced(l, contexts, branches, c) && l.segments[ContextAt(c, |branches|)].length == |contexts[c]|
    && |l.flat| == TotalRows(contexts[..c], branches) + |contexts[c]| + Rows(branches[..b])
  }

  /** Only whole contexts are in place. */
  ghost predicate ReachedContext(l: Layout, contexts: seq<seq<int>>, branches: seq<seq<int>>, c: nat)
    requires Lengths(l) && c <= |contexts|
  {
    && |l.segments| == ContextAt(c, |branches|)
    && |l.selected| == Cell(c, 0, |branches|) == |TerminalRows(l.segments)|
    && |l.flat| == TotalRows(contexts[..c], branches)
  }

  /** Lays out one context. */
  method AddContext(l: Layout, contexts: seq<seq<int>>, branches: seq<seq<int>>, ghost candidates: seq<seq<int>>,
                    c: nat, vocab: int) returns (ok: bool, l': Layout)
    requires c < |contexts| && |branches| == |candidates| && Built(l, contexts, branches, candidates, c, 0)
             && ReachedContext(l, contexts, branches, c)
    ensures ok <==> SequenceOk(contexts[c], vocab) && |l.flat| + |contexts[c]| <= KVArena.PACKED_ROWS
    ensures ok ==>
              Built(l', contexts, branches, candidates, c, 0) && Lengths(l') && Reached(l', contexts, branches, c, 0)
    ensures ok ==> l'.segments[ContextAt(c, |branches|)].offset == |l.flat|
  {
    l' := l;
    var start := |l.flat|;
    var flat;
    ok, flat := AppendTokens(l.flat, contexts[c], vocab);
    if ok {
      l' := Layout(flat, l.segments + [Segment(start, |contexts[c]|, 0, 0, false)], l.selected);
      ContextAdded(l, l', contexts, branches, candidates, c);
    }
  }

  lemma ContextAdded(l: Layout, l': Layout, contexts: seq<seq<int>>, branches: seq<seq<int>>, candidates: seq<seq<int>>,
                     c: nat)
    requires c < |contexts| && |branches| == |candidates| && Built(l, contexts, branches, candidates, c, 0)
             && ReachedContext(l, contexts, branches, c)
    requires contexts[c] != [] && |l.flat| + |contexts[c]| <= KVArena.PACKED_ROWS
    requires l' == Layout(l.flat + contexts[c], l.segments + [Segment(|l.flat|, |contexts[c]|, 0, 0, false)],
                          l.selected)
    ensures Built(l', contexts, branches, candidates, c, 0) && Reached(l', contexts, branches, c, 0)
  {
    hide BranchPlaced, Tiling, TotalRows, TerminalRows;
    assert l'.segments[..|l.segments|] == l.segments;
    Appended(l, l', contexts, branches, candidates, c, 0);
    hide Built;
    assert branches[..0] == [];
  }

  /** Lays out one branch under its context. */
  method AddBranch(l: Layout, contexts: seq<seq<int>>, branches: seq<seq<int>>, candidates: seq<seq<int>>, c: nat,
                   b: nat, start: nat, prefixLen: nat, contextLimit: int, vocab: int) returns (ok: bool, l': Layout)
    requires c < |contexts| && b < |branches| == |candidates| && Built(l, contexts, branches, candidates, c, b)
             && Reached(l, contexts, branches, c, b)
    requires start == l.segments[ContextAt(c, |branches|)].offset
    ensures ok <==>
            PairOk(contexts[c], branches[b], candidates[b], prefixLen, contextLimit, vocab)
            && |l.flat| + |branches[b]| <= KVArena.PACKED_ROWS
    ensures ok ==>
              Built(l', contexts, branches, candidates, c, b + 1) && Lengths(l')
              && Reached(l', contexts, branches, c, b + 1)
    ensures ok ==> start == l'.segments[ContextAt(c, |branches|)].offset
  {
    l' := l;
    if prefixLen + |contexts[c]| + |branches[b]| > contextLimit || |candidates[b]| < 1 || |candidates[b]| > 255 {
      return false, l;
    }
    var known := CheckTokens(candidates[b], vocab);
    if !known {
      return false, l;
    }
    var at := |l.flat|;
    var flat;
    ok, flat := AppendTokens(l.flat, branches[b], vocab);
    if ok {
      l' := Layout(flat, l.segments + [Segment(at, |branches[b]|, start, |contexts[c]|, true)],
                   l.selected + [candidates[b]]);
      BranchAdded(l, l', contexts, branches, candidates, c, b);
    }
  }

  method CheckTokens(tokens: seq<int>, vocab: int) returns (ok: bool)
    ensures ok <==> TokensIn(tokens, vocab)
  {
    for i := 0 to |tokens|
      invariant TokensIn(tokens[..i], vocab)
    {
      if tokens[i] < 0 || tokens[i] >= vocab {
        return false;
      }
    }
    return true;
  }

  lemma BranchAdded(l: Layout, l': Layout, contexts: seq<seq<int>>, branches: seq<seq<int>>, candidates: seq<seq<int>>,
                    c: nat, b: nat)
    requires c < |contexts| && b < |branches| == |candidates| && Built(l, contexts, branches, candidates, c, b)
             && Reached(l, contexts, branches, c, b)
    requires branches[b] != [] && |l.flat| + |branches[b]| <= KVArena.PACKED_ROWS
    requires l' == Layout(l.flat + branches[b],
                          l.segments
                          + [Segment(|l.flat|, |branches[b]|, l.segments[ContextAt(c, |branches|)].offset,
                                     |contexts[c]|, true)],
                          l.selected + [candidates[b]])
    ensures Built(l', contexts, branches, candidates, c, b + 1) && Reached(l', contexts, branches, c, b + 1)
  {
    assert l'.segments[..|l.segments|] == l.segments;
    Appended(l, l', contexts, branches, candidates, c, b);
    var t := TerminalRows(l'.segments);
    hide TerminalRows, TotalRows, Tiling;
    assert branches[..b + 1][..b] == branches[..b];
    assert Rows(branches[..b + 1]) == Rows(branches[..b]) + |branches[b]|;
    assert BranchPlaced(l', t, contexts, branches, candidates, c, b);
  }

  /** After its last branch a context is complete. */
  lemma ContextDone(l: Layout, contexts: seq<seq<int>>, branches: seq<seq<int>>, candidates: seq<seq<int>>, c: nat)
    requires c < |contexts| && |branches| == |candidates|
    requires Built(l, contexts, branches, candidates, c, |branches|) && Reached(l, contexts, branches, c, |branches|)
    ensures Built(l, contexts, branches, candidates, c + 1, 0) && ReachedContext(l, contexts, branches, c + 1)
  {
    Widen(c, 1, |branches|);
    Widen(c, 1, |branches| + 1);
    assert branches[..|branches|] == branches;
    assert contexts[..c + 1][..c] == contexts[..c];
    hide TerminalRows, Tiling;
    assert TotalRows(contexts[..c + 1], branches) == TotalRows(contexts[..c], branches) + |contexts[c]|
                                                     + Rows(branches);
  }

  /** Lays out one context with all its branches. */
  method AddGroup(l: Layout, contexts: seq<seq<int>>, branches: seq<seq<int>>, candidates: seq<seq<int>>, c: nat,
                  prefixLen: nat, contextLimit: int, vocab: int) returns (ok: bool, l': Layout)
    requires c < |contexts| && |branches| == |candidates| && Built(l, contexts, branches, candidates, c, 0)
             && Lengths(l) && ReachedContext(l, contexts, branches, c)
    ensures ok ==>
              Lengths(l') && Built(l', contexts, branches, candidates, c + 1, 0)
              && ReachedContext(l', contexts, branches, c + 1)
    ensures ok <==> GroupFits(l, contexts[c], branches, candidates, prefixLen, contextLimit, vocab)
  {
    hide Built, Reached, ReachedContext, PairOk, SequenceOk;
    var start := |l.flat|;
    ok, l' := AddContext(l, contexts, branches, candidates, c, vocab);
    RowsGrow(branches, 0);
    if !ok {
      return;
    }
    ReachedStart(l, contexts, branches, c);
    for b := 0 to |branches|
      invariant Lengths(l') && Built(l', contexts, branches, candidates, c, b) && Reached(l', contexts, branches, c, b)
      invariant ContextAt(c, |branches|) < |l'.segments| && start == l'.segments[ContextAt(c, |branches|)].offset
      invariant |l'.flat| == start + |contexts[c]| + Rows(branches[..b])
      invariant forall j :: 0 <= j < b ==>
                              PairOk(contexts[c], branches[j], candidates[j], prefixLen, contextLimit, vocab)
      invariant |l'.flat| <= KVArena.PACKED_ROWS
    {
      assert branches[..b + 1][..b] == branches[..b];
      RowsGrow(branches, b + 1);
      ok, l' := AddBranch(l', contexts, branches, candidates, c, b, start, prefixLen, contextLimit, vocab);
      if !ok {
        return;
      }
    }
    assert branches[..|branches|] == branches;
    ContextDone(l', contexts, branches, candidates, c);
  }

  lemma ReachedStart(l: Layout, contexts: seq<seq<int>>, branches: seq<seq<int>>, c: nat)
    requires Lengths(l) && c <= |contexts| && ReachedContext(l, contexts, branches, c)
    ensures |l.flat| == TotalRows(contexts[..c], branches)
  {
  }

  /** One context's share of the limits. */
  ghost predicate GroupFits(l: Layout, context: seq<int>, branches: seq<seq<int>>, candidates: seq<seq<int>>,
                            prefixLen: nat, contextLimit: int, vocab: int)
    requires |branches| == |candidates|
  {
    && SequenceOk(context, vocab) && |l.flat| + |context| + Rows(branches) <= KVArena.PACKED_ROWS
    && forall b :: 0 <= b < |branches| ==> PairOk(context, branches[b], candidates[b], prefixLen, contextLimit, vocab)
  }

  /** The whole group: refused exactly when a limit is broken. In an accepted layout the segments tile at
      most 512 rows, every branch hangs under its own context's segment, and cell `c * branches + b` of
      the candidates and of the terminal rows belongs to branch `b` of context `c`. */
  method BuildTree(contexts: seq<seq<int>>, branches: seq<seq<int>>, candidates: seq<seq<int>>, prefixLen: nat,
                   contextLimit: int, vocab: int)
    returns (r: Result<Layout>)
    ensures r.Ok? <==> GroupOk(contexts, branches, candidates, prefixLen, contextLimit, vocab)
    ensures r.Ok? ==> |branches| == |candidates| && Built(r.value, contexts, branches, candidates, |contexts|, 0)
    ensures r.Ok? ==> |r.value.selected| == Cell(|contexts|, 0, |branches|) == |TerminalRows(r.value.segments)|
    ensures r.Ok? ==>
              |r.value.segments| == ContextAt(|contexts|, |branches|) && |r.value.flat| == TotalRows(contexts, branches)
  {
    if |contexts| < 1 || |branches| < 1 || |branches| != |candidates| || |contexts| > 256 / |branches| {
      return Err;
    }
    var l := Layout([], [], []);
    assert Built(l, contexts, branches, candidates, 0, 0) && ReachedContext(l, contexts, branches, 0);
    hide Built, ReachedContext, PairOk, SequenceOk;
    for c := 0 to |contexts|
      invariant Lengths(l) && Built(l, contexts, branches, candidates, c, 0) && ReachedContext(l, contexts, branches, c)
      invariant |l.flat| == TotalRows(contexts[..c], branches) <= KVArena.PACKED_ROWS
      invariant forall i :: 0 <= i < c ==> SequenceOk(contexts[i], vocab)
      invariant forall i, b :: 0 <= i < c && 0 <= b < |branches| ==>
                                 PairOk(contexts[i], branches[b], candidates[b], prefixLen, contextLimit, vocab)
    {
      assert contexts[..c + 1][..c] == contexts[..c];
      TotalGrows(contexts, branches, c + 1);
      var ok, next := AddGroup(l, contexts, branches, candidates, c, prefixLen, contextLimit, vocab);
      if !ok {
        return Err;
      }
      ReachedStart(next, contexts, branches, c + 1);
      l := next;
    }
    assert contexts[..|contexts|] == contexts;
    return Ok(l);
  }

  // ---------------------------------------------------------------------------------------------
  // Scoring

  /** Last flat row of branch `b` of context `c`. */
  function LastRow(l: Layout, c: nat, b: nat, branches: nat): nat {
    var at := BranchAt(c, b, branches);
    if at < |l.segments| && l.segments[at].length > 0 then l.segments[at].offset + l.segments[at].length - 1 else 0
  }

  /** One score per terminal segment, in segment order, on the candidates in the same position. */
  method ScoreCells<H, S>(l: Layout, rows: seq<H>, project: (H, seq<int>) -> S) returns (logits: seq<S>)
    requires Lengths(l) && Tiling(l.segments, |rows|) && |l.selected| == |TerminalRows(l.segments)|
    ensures |logits| == |l.selected|
    ensures forall k :: 0 <= k < |logits| ==>
                          TerminalRows(l.segments)[k] < |rows|
                          && logits[k] == project(rows[TerminalRows(l.segments)[k]], l.selected[k])
  {
    var lastRows := TerminalRows(l.segments);
    TerminalsInside(l.segments, |rows|);
    hide TerminalRows, Tiling;
    logits := [];
    for k := 0 to |lastRows|
      invariant |logits| == k && forall j :: 0 <= j < k ==> logits[j] == project(rows[lastRows[j]], l.selected[j])
    {
      logits := logits + [project(rows[lastRows[k]], l.selected[k])];
    }
  }

  /** Cuts the cells into one row of branches per context. */
  method CutCells<S>(logits: seq<S>, contexts: nat, branches: nat) returns (out: seq<seq<S>>)
    requires |logits| == Cell(contexts, 0, branches)
    ensures |out| == contexts && forall c :: 0 <= c < contexts ==> |out[c]| == branches
    ensures forall c, b :: 0 <= c < contexts && 0 <= b < branches ==>
                             Cell(c, b, branches) < |logits| && out[c][b] == logits[Cell(c, b, branches)]
  {
    out := [];
    for c := 0 to contexts
      invariant |out| == c && forall i :: 0 <= i < c ==> |out[i]| == branches
      invariant forall i, b :: 0 <= i < c && 0 <= b < branches ==>
                                 Cell(i, b, branches) < |logits| && out[i][b] == logits[Cell(i, b, branches)]
    {
      var from, to := Cell(c, 0, branches), Cell(c + 1, 0, branches);
      var cells := logits[from..to];
      forall b | 0 <= b < branches
        ensures Cell(c, b, branches) < |logits| && cells[b] == logits[Cell(c, b, branches)]
      {
        assert Cell(c, b, branches) == from + b;
      }
      out := out + [cells];
    }
  }

  /** The scores of every pair: cell `[c][b]` of the result is the last row of branch `b` of context `c`,
      projected on that branch's candidates. */
  method ScoreTree<H, S>(l: Layout, rows: seq<H>, project: (H, seq<int>) -> S, contexts: seq<seq<int>>,
                         branches: seq<seq<int>>, ghost candidates: seq<seq<int>>)
    returns (out: seq<seq<S>>)
    requires |branches| == |candidates| && Built(l, contexts, branches, candidates, |contexts|, 0) && |rows| == |l.flat|
    requires |l.selected| == Cell(|contexts|, 0, |branches|) == |TerminalRows(l.segments)|
    ensures |out| == |contexts| && forall c :: 0 <= c < |contexts| ==> |out[c]| == |branches|
    ensures forall c, b :: 0 <= c < |contexts| && 0 <= b < |branches| ==>
                             LastRow(l, c, b, |branches|) < |rows|
                             && out[c][b] == project(rows[LastRow(l, c, b, |branches|)], candidates[b])
  {
    hide TerminalRows, Tiling;
    var logits := ScoreCells(l, rows, project);
    out := CutCells(logits, |contexts|, |branches|);
    hide Cell;
    forall c, b | 0 <= c < |contexts| && 0 <= b < |branches|
      ensures LastRow(l, c, b, |branches|) < |rows|
              && out[c][b] == project(rows[LastRow(l, c, b, |branches|)], candidates[b])
    {
      assert BranchPlaced(l, TerminalRows(l.segments), contexts, branches, candidates, c, b);
    }
  }

  lemma {:induction false} TerminalsInside(segments: seq<Segment>, rows: nat)
    requires Tiling(segments, rows) && forall i :: 0 <= i < |segments| ==> segments[i].length > 0
    ensures forall k :: 0 <= k < |TerminalRows(segments)| ==> TerminalRows(segments)[k] < rows
    decreases |segments|
  {
    if segments != [] {
      var n := |segments| - 1;
      TerminalsInside(segments[..n], segments[n].offset);
    }
  }

  /** Tiling, spelled out: every flat row belongs to exactly one segment. */
  lemma {:induction false} TiledOnce(segments: seq<Segment>, rows: nat, row: nat)
    requires Tiling(segments, rows) && row < rows
    ensures exists i :: 0 <= i < |segments| && segments[i].offset <= row < segments[i].offset + segments[i].length
    ensures forall i, j :: 0 <= i < j < |segments| ==> segments[i].offset + segments[i].length <= segments[j].offset
    decreases |segments|
  {
    var n := |segments| - 1;
    EndsBefore(segments, rows);
    if row < segments[n].offset {
      TiledOnce(segments[..n], segments[n].offset, row);
      var i :| 0 <= i < n && segments[..n][i].offset <= row < segments[..n][i].offset + segments[..n][i].length;
      assert segments[i] == segments[..n][i];
    }
  }

  lemma {:induction false} EndsBefore(segments: seq<Segment>, rows: nat)
    requires Tiling(segments, rows)
    ensures forall i :: 0 <= i < |segments| ==> segments[i].offset + segments[i].length <= rows
    ensures forall i, j :: 0 <= i < j < |segments| ==> segments[i].offset + segments[i].length <= segments[j].offset
    decreases |segments|
  {
    if segments != [] {
      var n := |segments| - 1;
      EndsBefore(segments[..n], segments[n].offset);
      forall i, j | 0 <= i < j < |segments|
        ensures segments[i].offset + segments[i].length <= segments[j].offset
      {
        assert segments[i] == segments[..n][i];
        if j < n {
          assert segments[j] == segments[..n][j];
        }
      }
      forall i | 0 <= i < |segments|
        ensures segments[i].offset + segments[i].length <= rows
      {
        if i < n {
          assert segments[i] == segments[..n][i];
        }
      }
    }
  }
}
