/** The device K/V arena: one bounded physical trunk buffer per layer, compacted to the sliding window
    when it overflows, and one suffix area cut into per-branch slots. */
module KVArena {
  import opened Transformer
  import opened Wrappers

  /** Rows of one prefill chunk. */
  const PACKED_ROWS := 512

  /** First row a sliding-window attention at `pos` reads; without a window, the first row. */
  function FirstVisible(window: nat, pos: nat): (s: nat)
    ensures s <= pos && (window > 0 ==> pos + 1 - s <= window) && (s > 0 ==> window > 0 && pos + 1 - s == window)
  {
    if window > 0 && pos + 1 > window then pos + 1 - window else 0
  }

  /** Base of a layer and the rows it stands for. */
  datatype Contents = Contents(base: nat, k: seq<Vec>, v: seq<Vec>)

  /** One write of a run: a layer, a position, rows, and whether scratch memory was available. */
  datatype Write = Write(layer: nat, pos: nat, k: seq<Vec>, v: seq<Vec>, scratchOk: bool)

  /** One layer of the trunk. The ghost fields are the unbounded row sequences it stands for. */
  class TrunkLayer {
    const k: array<Vec>
    const v: array<Vec>
    const window: nat
    const trunkLen: nat
    var base: nat
    ghost var logicalK: seq<Vec>
    ghost var logicalV: seq<Vec>

    /** An empty layer; `filler` stands for uninitialised device memory. */
    constructor (trunkLen: nat, window: nat, filler: Vec)
      requires trunkLen > 0
      ensures Valid() && fresh(k) && fresh(v) && this.trunkLen == trunkLen && this.window == window
      ensures base == 0 && logicalK == [] == logicalV
    {
      var rows := if window > 0 then Min(trunkLen, window + PACKED_ROWS) else trunkLen;
      this.trunkLen, this.window := trunkLen, window;
      k := new Vec[rows](_ => filler);
      v := new Vec[rows](_ => filler);
      base, logicalK, logicalV := 0, [], [];
    }

    /** A layer holding the tail of an existing prompt trunk. */
    constructor FromTrunk(trunkK: seq<Vec>, trunkV: seq<Vec>, window: nat, filler: Vec)
      requires |trunkK| == |trunkV| > 0
      ensures Valid() && fresh(k) && fresh(v) && this.trunkLen == |trunkK| && this.window == window
      ensures logicalK == trunkK && logicalV == trunkV && Resident(|trunkK| - 1)
    {
      var rows := if window > 0 then Min(|trunkK|, window + PACKED_ROWS) else |trunkK|;
      this.trunkLen, this.window := |trunkK|, window;
      k := new Vec[rows](i requires 0 <= i < rows => trunkK[|trunkK| - rows + i]);
      v := new Vec[rows](i requires 0 <= i < rows => trunkV[|trunkK| - rows + i]);
      base, logicalK, logicalV := |trunkK| - rows, trunkK, trunkV;
    }

    /** Both buffers have the layer's capacity and hold the resident tail of the logical rows. */
    ghost predicate Valid()
      reads this, k, v
    {
      && Shaped() && |logicalK| == |logicalV| <= trunkLen && (window == 0 ==> base == 0)
      && Faithful(k[..], logicalK, base) && Faithful(v[..], logicalV, base)
    }

    ghost predicate Shaped() {
      && k != v && trunkLen > 0
      && k.Length == v.Length == if window > 0 then Min(trunkLen, window + PACKED_ROWS) else trunkLen
    }

    /** Every row an attention at `pos` reads is still stored. */
    ghost predicate Resident(pos: nat)
      reads this`base
    {
      base <= FirstVisible(window, pos)
    }

    /** Nothing has been compacted away that the next contiguous row could need. */
    ghost predicate Windowed()
      reads this
    {
      Resident(|logicalK|)
    }

    /** A write that starts below the retained rows, or one that does not fit and cannot be made to fit, when
        the base is `from`. */
    ghost predicate RefusedFrom(from: nat, pos: nat, rows: nat, scratchOk: bool) {
      || pos < from
      || (pos + rows - from > k.Length &&
          (window == 0 || rows > PACKED_ROWS || (pos > NextFrom(from, pos) && !scratchOk)))
    }

    ghost predicate Refused(pos: nat, rows: nat, scratchOk: bool)
      reads this`base
    {
      RefusedFrom(base, pos, rows, scratchOk)
    }

    /** The base a compaction for a write at `pos` moves to. */
    ghost function NextFrom(from: nat, pos: nat): nat {
      if pos + 1 > window && pos + 1 - window > from then pos + 1 - window else from
    }

    /** Moves rows `[from, from + n)` of one buffer to its front through a scratch buffer. */
    static method MoveToFront(buf: array<Vec>, from: nat, n: nat)
      requires from + n <= buf.Length && n > 0
      modifies buf
      ensures buf[..n] == old(buf[from..from + n])
      ensures buf[n..] == old(buf[n..])
    {
      ghost var before := buf[..];
      var scratch := new Vec[n](i requires 0 <= i < n reads buf => buf[from + i]);
      assert scratch[..] == before[from..from + n];
      for i := 0 to n
        invariant buf[..i] == scratch[..i] && buf[i..] == before[i..]
        invariant scratch[..] == before[from..from + n]
        modifies buf
      {
        buf[i] := scratch[i];
        assert buf[..i + 1] == scratch[..i + 1];
      }
      assert scratch[..n] == scratch[..];
    }

    /** Makes room for `rows` rows at `pos`. Overflow compacts the buffer to the sliding window, which
        strictly raises the base; the check that the kept rows and the new rows fit never fails. */
    method PrepareTrunkWrite(pos: nat, rows: nat, scratchOk: bool) returns (ok: bool)
      requires Valid() && pos <= |logicalK| && rows > 0 && pos + rows <= trunkLen
      modifies this`base, k, v
      ensures ok <==> !old(Refused(pos, rows, scratchOk))
      ensures !ok ==> base == old(base) && k[..] == old(k[..]) && v[..] == old(v[..])
      ensures ok ==> base == old(BaseAfter(pos, rows)) && base <= pos && pos + rows <= base + k.Length
      ensures ok ==> Faithful(k[..], logicalK[..pos], base) && Faithful(v[..], logicalV[..pos], base)
    {
      if pos < base {
        return false;
      }
      FaithfulPrefix(k[..], logicalK, base, pos);
      FaithfulPrefix(v[..], logicalV, base, pos);
      hide Faithful;
      if pos + rows - base <= k.Length {
        return true;
      }
      if window == 0 || rows > PACKED_ROWS {
        return false;
      }
      var next := base;
      if pos + 1 > window && pos + 1 - window > next {
        next := pos + 1 - window;
      }
      var keep := pos - next;
      if keep + rows > k.Length {
        assert false;
      }
      if keep > 0 && !scratchOk {
        return false;
      }
      Compact(pos, next);
      return true;
    }

    /** Moves the rows from `next` on to the front of both buffers. */
    method Compact(pos: nat, next: nat)
      requires Shaped() && base <= next <= pos && pos - base <= k.Length
      requires Faithful(k[..], logicalK, base) && Faithful(v[..], logicalV, base) && pos <= |logicalK| == |logicalV|
      modifies this`base, k, v
      ensures base == next && Faithful(k[..], logicalK[..pos], base) && Faithful(v[..], logicalV[..pos], base)
    {
      ghost var kBefore, vBefore := k[..], v[..];
      if pos > next {
        MoveToFront(k, next - base, pos - next);
        MoveToFront(v, next - base, pos - next);
        FaithfulTail(kBefore, k[..], logicalK, base, next, pos);
        FaithfulTail(vBefore, v[..], logicalV, base, next, pos);
      }
      base := next;
    }

    /** Where the base stands after an accepted write. */
    ghost function BaseFrom(from: nat, pos: nat, rows: nat): nat {
      if pos + rows - from <= k.Length then from else NextFrom(from, pos)
    }

    ghost function BaseAfter(pos: nat, rows: nat): nat
      reads this`base
    {
      BaseFrom(base, pos, rows)
    }

    /** Base and logical rows. */
    ghost function Rows(): Contents
      reads this
    {
      Contents(base, logicalK, logicalV)
    }

    /** What a write makes of them; a refused one, or one that would leave a gap, changes nothing. */
    ghost function AfterWrite(c: Contents, w: Write): Contents {
      if 0 < |w.k| && w.pos <= |c.k| && w.pos <= |c.v| && w.pos + |w.k| <= trunkLen
         && !RefusedFrom(c.base, w.pos, |w.k|, w.scratchOk)
      then Contents(BaseFrom(c.base, w.pos, |w.k|), c.k[..w.pos] + w.k, c.v[..w.pos] + w.v)
      else c
    }

    /** What the writes to layer `i` of an arena make of them, in order. */
    ghost function AfterWrites(c: Contents, i: nat, writes: seq<Write>): Contents {
      if writes == [] then c
      else
        var n := |writes| - 1;
        var before := AfterWrites(c, i, writes[..n]);
        if writes[n].layer == i then AfterWrite(before, writes[n]) else before
    }

    /** Writes rows at `pos`. Accepted writes keep the buffer faithful to the logical rows and move the
        base only by compaction; a refused one changes nothing. */
    method AppendTrunkRows(pos: int, rowsK: seq<Vec>, rowsV: seq<Vec>, scratchOk: bool) returns (ok: bool)
      requires Valid() && pos <= |logicalK| && |rowsK| == |rowsV|
      modifies this, k, v
      ensures Valid()
      ensures ok <==> 0 <= pos && |rowsK| > 0 && pos + |rowsK| <= trunkLen && !old(Refused(pos, |rowsK|, scratchOk))
      ensures ok ==> logicalK == old(logicalK)[..pos] + rowsK && logicalV == old(logicalV)[..pos] + rowsV
      ensures ok ==> base == old(BaseAfter(pos, |rowsK|))
      ensures !ok ==>
                base == old(base) && logicalK == old(logicalK) && logicalV == old(logicalV) && k[..] == old(k[..])
                && v[..] == old(v[..])
    {
      hide Faithful;
      if pos < 0 || |rowsK| == 0 || pos + |rowsK| > trunkLen {
        return false;
      }
      ok := PrepareTrunkWrite(pos, |rowsK|, scratchOk);
      if ok {
        ghost var kBefore, vBefore := k[..], v[..];
        CopyRows(k, pos - base, rowsK);
        CopyRows(v, pos - base, rowsV);
        FaithfulWrite(kBefore, k[..], logicalK[..pos], base, rowsK);
        FaithfulWrite(vBefore, v[..], logicalV[..pos], base, rowsV);
        logicalK, logicalV := logicalK[..pos] + rowsK, logicalV[..pos] + rowsV;
      }
    }

    static method CopyRows(buf: array<Vec>, at: nat, rows: seq<Vec>)
      requires at + |rows| <= buf.Length
      modifies buf
      ensures buf[..at + |rows|] == old(buf[..at]) + rows
    {
      ghost var before := buf[..at];
      for i := 0 to |rows|
        invariant buf[..at + i] == before + rows[..i]
      {
        buf[at + i] := rows[i];
        assert buf[..at + i + 1] == before + rows[..i + 1];
      }
      assert rows[..|rows|] == rows;
    }

    /** A copy with room for a longer trunk stands for the same rows. */
    method CloneTrunk(newLen: nat, filler: Vec) returns (c: TrunkLayer)
      requires Valid() && newLen >= trunkLen
      ensures fresh(c) && fresh(c.k) && fresh(c.v) && c.Valid() && c.trunkLen == newLen && c.window == window
      ensures c.base == base && c.logicalK == logicalK && c.logicalV == logicalV
    {
      c := new TrunkLayer(newLen, window, filler);
      CopyRows(c.k, 0, k[..]);
      CopyRows(c.v, 0, v[..]);
      c.base, c.logicalK, c.logicalV := base, logicalK, logicalV;
      FaithfulLonger(k[..], c.k[..], logicalK, base);
      FaithfulLonger(v[..], c.v[..], logicalV, base);
    }
  }

  // ---------------------------------------------------------------------------------------------
  // A bounded buffer standing for an unbounded row sequence

  /** Physical row `j - base` holds logical row `j` for every `j` from the base on. */
  ghost predicate Faithful(buf: seq<Vec>, logical: seq<Vec>, base: nat) {
    base <= |logical| <= base + |buf| && buf[..|logical| - base] == logical[base..]
  }

  lemma FaithfulAt(buf: seq<Vec>, logical: seq<Vec>, base: nat, j: nat)
    requires Faithful(buf, logical, base) && base <= j < |logical|
    ensures buf[j - base] == logical[j]
  {
    assert buf[..|logical| - base][j - base] == logical[base..][j - base];
  }

  lemma FaithfulPrefix(buf: seq<Vec>, logical: seq<Vec>, base: nat, pos: nat)
    requires Faithful(buf, logical, base) && base <= pos <= |logical|
    ensures Faithful(buf, logical[..pos], base)
  {
    forall i | 0 <= i < pos - base
      ensures buf[i] == logical[..pos][base..][i]
    {
      FaithfulAt(buf, logical, base, base + i);
    }
  }

  lemma FaithfulTail(buf: seq<Vec>, after: seq<Vec>, logical: seq<Vec>, base: nat, next: nat, pos: nat)
    requires Faithful(buf, logical, base) && base <= next <= pos <= |logical| && |after| == |buf|
    requires after[..pos - next] == buf[next - base..pos - base]
    ensures Faithful(after, logical[..pos], next)
  {
    forall i | 0 <= i < pos - next
      ensures after[i] == logical[..pos][next..][i]
    {
      FaithfulAt(buf, logical, base, next + i);
      assert after[..pos - next][i] == buf[next - base..pos - base][i];
    }
  }

  lemma FaithfulWrite(buf: seq<Vec>, after: seq<Vec>, logical: seq<Vec>, base: nat, rows: seq<Vec>)
    requires Faithful(buf, logical, base) && |logical| + |rows| <= base + |buf| && |after| == |buf|
    requires after[..|logical| - base + |rows|] == buf[..|logical| - base] + rows
    ensures Faithful(after, logical + rows, base)
  {
    assert (logical + rows)[base..] == logical[base..] + rows;
  }

  lemma FaithfulLonger(buf: seq<Vec>, after: seq<Vec>, logical: seq<Vec>, base: nat)
    requires Faithful(buf, logical, base) && |buf| <= |after| && after[..|buf|] == [] + buf
    ensures Faithful(after, logical, base)
  {
    forall i | 0 <= i < |logical| - base
      ensures after[i] == logical[base..][i]
    {
      FaithfulAt(buf, logical, base, base + i);
      assert after[..|buf|][i] == buf[i];
    }
  }

  // ---------------------------------------------------------------------------------------------
  // Contiguous appends and rewinds

  /** A contiguous append of at most one chunk is never refused while scratch memory lasts. */
  lemma ContiguousAccepted(t: TrunkLayer, rows: nat)
    requires t.Valid() && 0 < rows <= PACKED_ROWS && |t.logicalK| + rows <= t.trunkLen
    ensures !t.Refused(|t.logicalK|, rows, true)
  {
  }

  /** After an accepted write at `pos` an attention at any of its rows finds its whole window if and only
      if, before the write, the base did not exceed the window start of `pos`. A contiguous write always
      meets this; a rewind behind a compaction need not, and is accepted all the same. */
  lemma WindowOfWrite(t: TrunkLayer, pos: nat, rows: nat, scratchOk: bool)
    requires t.Valid() && pos <= |t.logicalK| && rows > 0 && pos + rows <= t.trunkLen
             && !t.Refused(pos, rows, scratchOk)
    ensures (forall p: nat :: pos <= p < pos + rows ==> t.BaseAfter(pos, rows) <= FirstVisible(t.window, p)) <==>
            t.Resident(pos)
  {
    hide Faithful;
    if forall p: nat :: pos <= p < pos + rows ==> t.BaseAfter(pos, rows) <= FirstVisible(t.window, p) {
      assert t.BaseAfter(pos, rows) <= FirstVisible(t.window, pos);
    }
  }

  /** A layer on which that happens: two contiguous chunks compact a window of two rows to base 511, and a
      one-row rewind to 511 is then accepted although row 510, which it attends to, is gone. */
  method RewindLosesWindow(row: Vec) returns (t: TrunkLayer, accepted: bool)
    ensures fresh(t) && t.Valid() && accepted && |t.logicalK| == 512
    ensures t.base == 511 > FirstVisible(t.window, 511) && !t.Resident(511)
  {
    t := new TrunkLayer(2000, 2, row);
    var chunk := seq(PACKED_ROWS, _ => row);
    hide Faithful;
    var first := t.AppendTrunkRows(0, chunk, chunk, true);
    var second := t.AppendTrunkRows(PACKED_ROWS, chunk, chunk, true);
    accepted := t.AppendTrunkRows(511, [row], [row], true);
  }

  /** Rows of one append. */
  datatype Chunk = Chunk(k: seq<Vec>, v: seq<Vec>)

  ghost predicate ChunkOk(c: Chunk) {
    0 < |c.k| == |c.v| <= PACKED_ROWS
  }

  /** One contiguous append: accepted, and the window of each of its rows is stored. */
  method AppendChunk(t: TrunkLayer, pos: nat, c: Chunk)
    requires t.Valid() && t.Windowed() && pos == |t.logicalK| && ChunkOk(c) && pos + |c.k| <= t.trunkLen
    modifies t, t.k, t.v
    ensures t.Valid() && t.Windowed()
    ensures t.logicalK == old(t.logicalK) + c.k && t.logicalV == old(t.logicalV) + c.v
    ensures forall p: nat :: pos <= p < pos + |c.k| ==> t.Resident(p)
  {
    ContiguousAccepted(t, |c.k|);
    WindowOfWrite(t, pos, |c.k|, true);
    hide Faithful, FirstVisible;
    var ok := t.AppendTrunkRows(pos, c.k, c.v, true);
    if !ok {
      assert false;
    }
    assert t.base <= FirstVisible(t.window, pos);
  }

  /** An accepted write never lowers the base, and raises it exactly when it had to compact, then to the
      window start of its first row: no row that row can attend to is dropped, and every other one is. */
  lemma CompactionRaises(t: TrunkLayer, pos: nat, rows: nat, scratchOk: bool)
    requires t.Valid() && rows > 0 && pos + rows <= t.trunkLen && !t.Refused(pos, rows, scratchOk)
    ensures t.BaseAfter(pos, rows) >= t.base
    ensures t.BaseAfter(pos, rows) > t.base <==> pos + rows - t.base > t.k.Length
    ensures t.BaseAfter(pos, rows) > t.base ==> t.BaseAfter(pos, rows) == FirstVisible(t.window, pos)
  {
    hide Faithful;
  }

  /** Any run of contiguous appends of at most one chunk each, within the trunk length, is accepted
      entirely; at every step the layer stores all its logical rows an attention at a new row reads. */
  method AppendRun(t: TrunkLayer, end: nat, chunks: seq<Chunk>)
    requires t.Valid() && t.Windowed() && end == |t.logicalK|
    requires (forall i :: 0 <= i < |chunks| ==> ChunkOk(chunks[i])) && end + |AllK(chunks)| <= t.trunkLen
    modifies t, t.k, t.v
    ensures t.Valid() && t.Windowed()
    ensures t.logicalK == old(t.logicalK) + AllK(chunks) && t.logicalV == old(t.logicalV) + AllV(chunks)
  {
    hide Faithful, TrunkLayer.Resident;
    var pos := end;
    assert chunks[..0] == [];
    for i := 0 to |chunks|
      invariant t.Valid() && t.Windowed() && pos == |t.logicalK|
      invariant t.logicalK == old(t.logicalK) + AllK(chunks[..i]) && t.logicalV == old(t.logicalV) + AllV(chunks[..i])
    {
      var c := chunks[i];
      assert ChunkOk(c);
      assert chunks[..i + 1][..i] == chunks[..i] && chunks[..i + 1][i] == c;
      AllGrows(chunks, i + 1);
      AppendChunk(t, pos, c);
      pos := pos + |c.k|;
    }
    assert chunks[..|chunks|] == chunks;
  }

  lemma {:induction false} AllGrows(chunks: seq<Chunk>, i: nat)
    requires i <= |chunks|
    ensures |AllK(chunks[..i])| <= |AllK(chunks)|
    decreases |chunks|
  {
    if i < |chunks| {
      var n := |chunks| - 1;
      AllGrows(chunks[..n], i);
      assert chunks[..n][..i] == chunks[..i];
    } else {
      assert chunks[..i] == chunks;
    }
  }

  function AllK(chunks: seq<Chunk>): seq<Vec> {
    if chunks == [] then [] else AllK(chunks[..|chunks| - 1]) + chunks[|chunks| - 1].k
  }

  function AllV(chunks: seq<Chunk>): seq<Vec> {
    if chunks == [] then [] else AllV(chunks[..|chunks| - 1]) + chunks[|chunks| - 1].v
  }

  // ---------------------------------------------------------------------------------------------
  // Prefix reuse

  /** The reuse test: no layer has been compacted. */
  method CanReusePrefix(layers: seq<TrunkLayer>) returns (ok: bool)
    ensures ok <==> forall i :: 0 <= i < |layers| ==> layers[i].base == 0
  {
    for i := 0 to |layers|
      invariant forall j :: 0 <= j < i ==> layers[j].base == 0
    {
      if layers[i].base != 0 {
        return false;
      }
    }
    return true;
  }

  /** Layers with buffers of their own. */
  ghost predicate Separate(layers: seq<TrunkLayer>) {
    forall i, j :: 0 <= i < j < |layers| ==> Apart(layers[i], layers[j])
  }

  ghost predicate Apart(s: TrunkLayer, t: TrunkLayer) {
    s != t && {s.k, s.v} !! {t.k, t.v}
  }

  /** A write to layer `w.layer` behind a prefix of `n` rows. */
  predicate WriteOk(layers: nat, n: nat, w: Write) {
    w.layer < layers && n <= w.pos && |w.k| == |w.v|
  }

  /** A valid layer of `end` logical rows whose first rows are `k` and `v`. */
  ghost predicate Keeps(t: TrunkLayer, end: nat, k: seq<Vec>, v: seq<Vec>)
    reads t, t.k, t.v
  {
    && t.Valid() && |k| == |v| <= end == |t.logicalK|
    && t.logicalK[..|k|] == k && t.logicalV[..|v|] == v
  }

  /** A kept prefix is in the buffers, bit for bit, while the base is zero. */
  lemma PrefixStored(t: TrunkLayer, end: nat, k: seq<Vec>, v: seq<Vec>)
    requires Keeps(t, end, k, v) && t.base == 0
    ensures |k| <= t.k.Length && |v| <= t.v.Length && t.k[..|k|] == k && t.v[..|v|] == v
  {
    FaithfulPrefix(t.k[..], t.logicalK, 0, |k|);
    FaithfulPrefix(t.v[..], t.logicalV, 0, |v|);
    assert t.k[..|k|] == t.k[..][..|k|] && t.v[..|v|] == t.v[..][..|v|];
  }

  lemma KeptValid(t: TrunkLayer, end: nat, k: seq<Vec>, v: seq<Vec>)
    requires Keeps(t, end, k, v)
    ensures t.Valid()
  {
  }

  /** One write behind a kept prefix, accepted or refused; a write that would leave a gap is not made. */
  method WriteBehind(t: TrunkLayer, end: nat, w: Write, ghost k: seq<Vec>, ghost v: seq<Vec>) returns (after: nat)
    requires Keeps(t, end, k, v) && |k| <= w.pos && |w.k| == |w.v|
    modifies t, t.k, t.v
    ensures Keeps(t, after, k, v) && t.base >= old(t.base) && t.Rows() == t.AfterWrite(old(t.Rows()), w)
  {
    after := end;
    if w.pos <= end {
      hide Faithful;
      var ok := t.AppendTrunkRows(w.pos, w.k, w.v, w.scratchOk);
      after := if ok then w.pos + |w.k| else end;
    }
  }

  /** However the layers of an arena are written behind a prefix, in any order, contiguous or rewinding,
      accepted or refused: if the reuse test still holds, every layer's prefix rows are intact. */
  method WriteRun(layers: seq<TrunkLayer>, ends: seq<nat>, writes: seq<Write>, n: nat, ghost ks: seq<seq<Vec>>,
                  ghost vs: seq<seq<Vec>>) returns (reusable: bool)
    requires Separate(layers) && |ends| == |layers| == |ks| == |vs|
    requires forall i :: 0 <= i < |layers| ==> |ks[i]| == |vs[i]| == n && Keeps(layers[i], ends[i], ks[i], vs[i])
    requires forall i :: 0 <= i < |writes| ==> WriteOk(|layers|, n, writes[i])
    modifies set t | t in layers
    modifies set t | t in layers :: t.k
    modifies set t | t in layers :: t.v
    ensures forall i :: 0 <= i < |layers| ==> layers[i].Valid() && layers[i].base >= old(layers[i].base)
    ensures forall i :: 0 <= i < |layers| ==>
                          layers[i].Rows() == layers[i].AfterWrites(old(layers[i].Rows()), i, writes)
    ensures reusable <==> forall i :: 0 <= i < |layers| ==> layers[i].base == 0
    ensures reusable ==>
              forall i :: 0 <= i < |layers| ==> n <= layers[i].k.Length && n <= layers[i].v.Length
                                                && layers[i].k[..n] == ks[i] && layers[i].v[..n] == vs[i]
  {
    hide Keeps, TrunkLayer.Valid, TrunkLayer.AfterWrite;
    var ends := ends;
    for j := 0 to |writes|
      invariant |ends| == |layers|
      invariant forall i :: 0 <= i < |layers| ==>
                              Keeps(layers[i], ends[i], ks[i], vs[i]) && layers[i].base >= old(layers[i].base)
      invariant forall i :: 0 <= i < |layers| ==>
                              layers[i].Rows() == layers[i].AfterWrites(old(layers[i].Rows()), i, writes[..j])
    {
      var w := writes[j];
      assert writes[..j + 1][..j] == writes[..j] && writes[..j + 1][j] == w;
      assert WriteOk(|layers|, n, w);
      assert forall i :: 0 <= i < |layers| && i != w.layer ==> Apart(layers[i], layers[w.layer]);
      label Before:
      var after := WriteBehind(layers[w.layer], ends[w.layer], w, ks[w.layer], vs[w.layer]);
      assert forall i :: 0 <= i < |layers| && i != w.layer ==>
                           Keeps(layers[i], ends[i], ks[i], vs[i])
                           && layers[i].Rows() == old@Before(layers[i].Rows());
      ends := ends[w.layer := after];
    }
    assert writes[..|writes|] == writes;
    forall i | 0 <= i < |layers|
      ensures layers[i].Valid()
    {
      KeptValid(layers[i], ends[i], ks[i], vs[i]);
    }
    reusable := CanReusePrefix(layers);
    if reusable {
      forall i | 0 <= i < |layers|
        ensures n <= layers[i].k.Length && n <= layers[i].v.Length && layers[i].k[..n] == ks[i]
                && layers[i].v[..n] == vs[i]
      {
        PrefixStored(layers[i], ends[i], ks[i], vs[i]);
      }
    }
  }

  // ---------------------------------------------------------------------------------------------
  // Branch suffixes

  /** Slot of one branch's row. */
  ghost function SlotOf(branch: nat, suffixPos: nat, suffixCap: nat): nat {
    branch * suffixCap + suffixPos
  }

  lemma SlotIs(branch: nat, suffixPos: nat, suffixCap: nat)
    ensures branch * suffixCap + suffixPos == SlotOf(branch, suffixPos, suffixCap)
  {
  }

  /** Different branches or different rows never share a slot, and every slot is inside the buffer. */
  lemma SlotsApart(b1: nat, s1: nat, b2: nat, s2: nat, branches: nat, cap: nat)
    requires b1 < branches && b2 < branches && s1 < cap && s2 < cap
    ensures SlotOf(b1, s1, cap) < branches * cap
    ensures SlotOf(b1, s1, cap) == SlotOf(b2, s2, cap) <==> b1 == b2 && s1 == s2
  {
    SlotInside(b1, s1, branches, cap);
    if b1 < b2 {
      SlotInside(b1, s1, b2, cap);
    } else if b2 < b1 {
      SlotInside(b2, s2, b1, cap);
    }
  }

  lemma SlotInside(b: nat, s: nat, branches: nat, cap: nat)
    requires b < branches && s < cap
    ensures SlotOf(b, s, cap) < branches * cap
  {
    Scale(b, branches - b, cap);
  }

  lemma Scale(b: nat, d: nat, cap: nat)
    requires d > 0
    ensures (b + d) * cap == b * cap + d * cap && d * cap >= cap
  {
  }

  /** Branch-local rows of one layer after a trunk of `trunkUsed` rows. */
  class SuffixLayer {
    const k: array<Vec>
    const v: array<Vec>
    const branches: nat
    const suffixCap: nat
    const trunkUsed: nat

    constructor (branches: nat, suffixCap: nat, trunkUsed: nat, filler: Vec)
      ensures Valid() && fresh(k) && fresh(v)
      ensures this.branches == branches && this.suffixCap == suffixCap && this.trunkUsed == trunkUsed
    {
      this.branches, this.suffixCap, this.trunkUsed := branches, suffixCap, trunkUsed;
      k := new Vec[branches * suffixCap](_ => filler);
      v := new Vec[branches * suffixCap](_ => filler);
    }

    ghost predicate Valid() {
      k != v && k.Length == v.Length == branches * suffixCap
    }

    /** One row per active branch at depth `pos`. Rows before the first bad branch are written; nothing
        outside the active branches' own slots at this depth changes. */
    method AppendRows(pos: int, active: seq<int>, rowsK: seq<Vec>, rowsV: seq<Vec>) returns (ok: bool)
      requires Valid()
      modifies k, v
      ensures ok <==> && active != [] && 0 <= pos - trunkUsed < suffixCap && |rowsK| >= |active| && |rowsV| >= |active|
                      && forall i :: 0 <= i < |active| ==> 0 <= active[i] < branches
      ensures ok && Distinct(active) ==> forall i :: 0 <= i < |active| ==>
                                                       Holds(active[i], pos - trunkUsed, rowsK[i], rowsV[i])
      ensures forall b: nat, s: nat :: b < branches && s < suffixCap && !(s == pos - trunkUsed && b in active) ==>
                                         Holds(b, s, old(KAt(b, s)), old(VAt(b, s)))
    {
      var suffixPos := pos - trunkUsed;
      if active == [] || suffixPos < 0 || suffixPos >= suffixCap || |rowsK| < |active| || |rowsV| < |active| {
        return false;
      }
      hide SlotOf;
      for i := 0 to |active|
        invariant forall j :: 0 <= j < i ==> 0 <= active[j] < branches
        invariant Distinct(active) ==> forall j :: 0 <= j < i ==> Holds(active[j], suffixPos, rowsK[j], rowsV[j])
        invariant forall b: nat, s: nat :: b < branches && s < suffixCap && !(s == suffixPos && b in active) ==>
                                             Holds(b, s, old(KAt(b, s)), old(VAt(b, s)))
      {
        var branch := active[i];
        if branch < 0 || branch >= branches {
          return false;
        }
        forall b: nat, s: nat | b < branches && s < suffixCap
          ensures SlotOf(b, s, suffixCap) < branches * suffixCap
          ensures SlotOf(branch, suffixPos, suffixCap) == SlotOf(b, s, suffixCap) <==> b == branch && s == suffixPos
        {
          SlotsApart(b, s, branch, suffixPos, branches, suffixCap);
        }
        var dst := branch * suffixCap + suffixPos;
        SlotIs(branch, suffixPos, suffixCap);
        k[dst], v[dst] := rowsK[i], rowsV[i];
      }
      return true;
    }

    ghost function KAt(b: nat, s: nat): Vec
      requires Valid() && b < branches && s < suffixCap
      reads k
    {
      SlotInside(b, s, branches, suffixCap);
      k[SlotOf(b, s, suffixCap)]
    }

    ghost function VAt(b: nat, s: nat): Vec
      requires Valid() && b < branches && s < suffixCap
      reads v
    {
      SlotInside(b, s, branches, suffixCap);
      v[SlotOf(b, s, suffixCap)]
    }

    /** The slot of branch `b` at depth `s` holds the given row. */
    ghost predicate Holds(b: nat, s: nat, rowK: Vec, rowV: Vec)
      requires Valid() && b < branches && s < suffixCap
      reads k, v
    {
      KAt(b, s) == rowK && VAt(b, s) == rowV
    }
  }

  ghost predicate Distinct(active: seq<int>) {
    forall i, j :: 0 <= i < j < |active| ==> active[i] != active[j]
  }
}
