/** The growing rotary-embedding tables: interleaved cosines and sines, rebuilt longer when a position
    past the end is asked for, and shared by concurrent decoders. */
module RopeTables {
  import opened Wrappers

  /** One float32. */
  type Num(==, !new)

  // ---------------------------------------------------------------------------------------------
  // How far to grow

  /** `from` doubled until it reaches `need`. */
  ghost function Doubled(from: nat, need: int): (d: nat)
    requires from > 0
    decreases need - from
  {
    if from >= need then from else Doubled(2 * from, need)
  }

  /** Doubling overshoots by less than a factor of two, and a longer start never ends shorter. */
  lemma {:induction false} DoubledBounds(from: nat, need: int)
    requires from > 0
    ensures Doubled(from, need) >= from && Doubled(from, need) >= need
    ensures from < need ==> Doubled(from, need) >= 2 * from && Doubled(from, need) < 2 * need
    decreases need - from
  {
    if from < need {
      DoubledBounds(2 * from, need);
    }
  }

  ghost function Grown(current: int, need: int, configuredMax: int): int {
    var d := Doubled(if current < 1 then 1 else current, need);
    if need <= current then current
    else if d > MAX_INT then need
    else if configuredMax > 0 && d > configuredMax && need <= configuredMax then configuredMax
    else d
  }

  /** The next table length: enough doublings to cover `need`, cut at the configured context. */
  method NextSeqLen(current: nat, need: int, configuredMax: int) returns (next: int)
    requires current <= MAX_INT && need <= MAX_INT
    ensures next == Grown(current, need, configuredMax)
    ensures current <= next <= MAX_INT && next >= need
  {
    if need <= current {
      return current;
    }
    next := current;
    if next < 1 {
      next := 1;
    }
    DoubledBounds(next, need);
    while next < need
      invariant 0 < next <= MAX_INT && next >= current
      invariant Doubled(next, need) == Doubled(if current < 1 then 1 else current, need) >= next
      decreases need - next
    {
      if next > MAX_INT / 2 {
        DoubledBounds(2 * next, need);
        return need;
      }
      next := next * 2;
      DoubledBounds(next, need);
    }
    if configuredMax > 0 && next > configuredMax && need <= configuredMax {
      next := configuredMax;
    }
  }

  /** Growth is geometric or final: a table that grows at least doubles, or covers the configured context,
      or is too long to double at all. */
  lemma GrowthIsGeometric(current: nat, need: int, configuredMax: int)
    requires need > current > 0
    ensures var n := Grown(current, need, configuredMax);
            n >= 2 * current || (n == configuredMax && n >= need) || (n == need && Doubled(current, need) > MAX_INT)
  {
    DoubledBounds(current, need);
  }

  // ---------------------------------------------------------------------------------------------
  // One table

  /** Half the rotated width, the head width, and the arithmetic of one attention kind. A missing or zero
      factor leaves an angle alone. */
  datatype Rotation = Rotation(half: int, headDim: int, start: nat -> Num, scale: Num -> Num,
                               divide: (nat, Num) -> Num, cos: Num -> Num, sin: Num -> Num)
  {
    /** The running angle of pair `i` at a position. */
    function Theta(pos: nat, i: nat): Num {
      if i == 0 then start(pos) else scale(Theta(pos, i - 1))
    }

    /** The first `i` pairs of one position. */
    function Row(pos: nat, i: nat): (row: seq<Num>)
      ensures |row| == 2 * i
    {
      if i == 0 then []
      else Row(pos, i - 1) + [cos(divide(i - 1, Theta(pos, i - 1))), sin(divide(i - 1, Theta(pos, i - 1)))]
    }

    /** All pairs of the first `n` positions. */
    function Rows(n: nat): seq<Num>
      requires half > 0
    {
      if n == 0 then [] else Rows(n - 1) + Row(n - 1, half)
    }

    /** A table of `n` positions can be built. */
    predicate Fits(n: int) {
      n > 0 && half > 0 && headDim > 0 && n * half <= MAX_INT && n * half * 2 <= MAX_INT
    }

    function Table(n: int): seq<Num> {
      if Fits(n) then Rows(n) else []
    }

    /** Positions a table covers. */
    function Positions(freqs: seq<Num>): int {
      if half <= 0 then 0 else |freqs| / (half * 2)
    }

    lemma {:induction false} RowsLength(n: nat)
      requires half > 0
      ensures |Rows(n)| == n * half * 2
    {
      if n > 0 {
        RowsLength(n - 1);
        assert n * half * 2 == (n - 1) * half * 2 + half * 2;
      }
    }

    lemma TableCovers(n: int)
      ensures Positions(Table(n)) == if Fits(n) then n else 0
      ensures !Fits(n) ==> Table(n) == []
    {
      if Fits(n) {
        RowsLength(n);
        assert |Rows(n)| == n * (half * 2);
        QuotientUnique(|Rows(n)|, half * 2, n, 0);
      }
    }

    /** What a reader finds at the offset of pair `i` of position `pos` does not depend on how long the
        table is. */
    lemma {:induction false} EntryAt(n: nat, pos: nat, i: nat)
      requires half > 0 && pos < n && i < half
      ensures var off := (pos * half + i) * 2;
              && 0 <= off && off + 1 < |Rows(n)|
              && Rows(n)[off] == cos(divide(i, Theta(pos, i))) && Rows(n)[off + 1] == sin(divide(i, Theta(pos, i)))
    {
      RowsLength(n - 1);
      if pos < n - 1 {
        EntryAt(n - 1, pos, i);
      } else {
        var off := (pos * half + i) * 2;
        assert off == |Rows(n - 1)| + 2 * i;
        RowEntry(pos, i, half);
        assert Rows(n)[off] == Row(pos, half)[2 * i] && Rows(n)[off + 1] == Row(pos, half)[2 * i + 1];
      }
    }

    lemma {:induction false} RowEntry(pos: nat, i: nat, n: nat)
      requires i < n
      ensures Row(pos, n)[2 * i] == cos(divide(i, Theta(pos, i)))
              && Row(pos, n)[2 * i + 1] == sin(divide(i, Theta(pos, i)))
    {
      if i < n - 1 {
        RowEntry(pos, i, n - 1);
      }
    }

    /** Fills a table position by position; no table when a dimension is not positive or the length
        overflows. */
    method Build(maxSeq: int, filler: Num) returns (freqs: seq<Num>)
      requires 0 <= maxSeq <= MAX_INT
      ensures freqs == Table(maxSeq)
    {
      if maxSeq <= 0 || half <= 0 {
        return [];
      }
      var pairs := maxSeq * half;
      if pairs > MAX_INT || pairs * 2 > MAX_INT || headDim <= 0 {
        return [];
      }
      RowsLength(maxSeq);
      var buf := new Num[pairs * 2](_ => filler);
      Fill(buf, maxSeq);
      assert buf[..buf.Length] == buf[..];
      return buf[..];
    }

    /** Writes the positions one after another. */
    method Fill(buf: array<Num>, maxSeq: nat)
      requires half > 0 && buf.Length == |Rows(maxSeq)|
      modifies buf
      ensures buf[..buf.Length] == Rows(maxSeq)
    {
      hide Rows;
      NoRows();
      for pos := 0 to maxSeq
        invariant |Rows(pos)| <= buf.Length && buf[..|Rows(pos)|] == Rows(pos)
      {
        RowsNext(pos, maxSeq);
        FillRow(buf, pos);
      }
    }

    lemma NoRows()
      requires half > 0
      ensures Rows(0) == []
    {
    }

    lemma RowsNext(pos: nat, maxSeq: nat)
      requires half > 0 && pos < maxSeq
      ensures |Rows(pos)| == pos * half * 2 && |Rows(pos)| + half * 2 == |Rows(pos + 1)| <= |Rows(maxSeq)|
    {
      RowsLength(pos);
      RowsLength(pos + 1);
      RowsLength(maxSeq);
      RowsFit(pos + 1, maxSeq);
    }

    lemma RowsFit(n: nat, total: nat)
      requires half > 0 && n <= total
      ensures n * half * 2 <= total * half * 2
    {
    }

    method FillRow(buf: array<Num>, pos: nat)
      requires half > 0 && |Rows(pos)| == pos * half * 2 && |Rows(pos)| + half * 2 <= buf.Length
               && buf[..|Rows(pos)|] == Rows(pos)
      modifies buf
      ensures buf[..|Rows(pos)| + half * 2] == Rows(pos + 1)
    {
      ghost var before := Rows(pos);
      var theta := start(pos);
      for i := 0 to half
        invariant theta == Theta(pos, i)
        invariant buf[..|before| + 2 * i] == before + Row(pos, i)
      {
        var angle := divide(i, theta);
        var off := (pos * half + i) * 2;
        assert off == |before| + 2 * i;
        buf[off], buf[off + 1] := cos(angle), sin(angle);
        assert buf[..off + 2] == buf[..off] + [cos(angle), sin(angle)];
        theta := scale(theta);
      }
    }
  }

  ghost function Power(x: real, i: nat): real {
    if i == 0 then 1.0 else x * Power(x, i - 1)
  }

  /** Where multiplying by the step is exact, the angle of pair `i` is the position times the step to the
      power `i`. */
  lemma {:induction false} AngleIsGeometric(r: Rotation, value: Num -> real, step: real, pos: nat, i: nat)
    requires forall p: nat :: value(r.start(p)) == p as real
    requires forall x: Num :: value(r.scale(x)) == step * value(x)
    ensures value(r.Theta(pos, i)) == pos as real * Power(step, i)
  {
    if i > 0 {
      AngleIsGeometric(r, value, step, pos, i - 1);
      Regrouped(step, pos as real, Power(step, i - 1));
    }
  }

  lemma Regrouped(a: real, b: real, c: real)
    ensures a * (b * c) == b * (a * c)
  {
  }

  lemma {:induction false} LongerTable(r: Rotation, a: nat, b: nat)
    requires r.half > 0 && a <= b
    ensures r.Rows(a) <= r.Rows(b)
    decreases b
  {
    if a < b {
      LongerTable(r, a, b - 1);
    }
  }

  // ---------------------------------------------------------------------------------------------
  // The shared cache

  /** A layer without a known kind counts as sliding. */
  predicate UsesSliding(slidingLayers: seq<bool>, layer: int) {
    layer < 0 || layer >= |slidingLayers| || slidingLayers[layer]
  }

  /** A request of some decoder. */
  datatype Request = Request(layer: int, pos: nat)

  class RopeCache {
    const sliding: Rotation
    const full: Rotation
    const slidingLayers: seq<bool>
    const configuredMax: int
    const filler: Num
    var slidingFreqs: seq<Num>
    var fullFreqs: seq<Num>
    ghost var len: nat               // both tables were last built for this many positions

    constructor (sliding: Rotation, full: Rotation, slidingLayers: seq<bool>, configuredMax: int, filler: Num)
      requires configuredMax <= MAX_INT
      ensures Valid() && this.sliding == sliding && this.full == full && this.slidingLayers == slidingLayers
      ensures len == if configuredMax < 0 then 0 else Min(configuredMax, 2048)
    {
      this.sliding, this.full, this.slidingLayers, this.configuredMax, this.filler :=
        sliding, full, slidingLayers, configuredMax, filler;
      var n: nat := if configuredMax < 0 then 0 else Min(configuredMax, 2048);
      slidingFreqs, fullFreqs := [], [];
      len := 0;
      new;
      slidingFreqs := sliding.Build(n, filler);
      fullFreqs := full.Build(n, filler);
      len := n;
    }

    /** Each table is whole: exactly the table of `len` positions, never a part of one. */
    ghost predicate Valid()
      reads this
    {
      len <= MAX_INT && slidingFreqs == sliding.Table(len) && fullFreqs == full.Table(len)
    }

    function Kind(layer: int): Rotation {
      if UsesSliding(slidingLayers, layer) then sliding else full
    }

    function Freqs(layer: int): seq<Num>
      reads this
    {
      if UsesSliding(slidingLayers, layer) then slidingFreqs else fullFreqs
    }

    /** Length after a request that takes the write lock, when both tables have `n` positions. */
    ghost function LenFrom(n: int, r: Request): int {
      var covered := Kind(r.layer).Positions(Kind(r.layer).Table(n));
      if covered > r.pos then n else Grown(covered, r.pos + 1, configuredMax)
    }

    /** Length after several such requests. */
    ghost function LenAfterAll(n: int, requests: seq<Request>): int {
      if requests == [] then n
      else
        var k := |requests| - 1;
        LenFrom(LenAfterAll(n, requests[..k]), requests[k])
    }

    ghost function LenAfter(layer: int, pos: nat): int
      reads this
    {
      LenFrom(len, Request(layer, pos))
    }

    /** A request shortens the tables exactly when it is for a kind that has no table and asks for less than
        the other kind already has: both tables are rebuilt from the length of the one asked for. */
    lemma ShrinksIff(layer: int, pos: nat)
      requires Valid() && pos < MAX_INT
      ensures LenAfter(layer, pos) < len <==> !Kind(layer).Fits(len) && Grown(0, pos + 1, configuredMax) < len
    {
      Kind(layer).TableCovers(len);
      if len > 0 {
        DoubledBounds(len, pos + 1);
      } else {
        DoubledBounds(1, pos + 1);
      }
    }

    /** Under the write lock: looks again and rebuilds both tables when still too short. */
    method EnsureLocked(layer: int, pos: nat) returns (freqs: seq<Num>)
      requires Valid() && pos < MAX_INT
      modifies this
      ensures Valid() && len == old(LenAfter(layer, pos)) && freqs == Freqs(layer) == Kind(layer).Table(len)
      ensures Kind(layer) == if 0 <= layer < |slidingLayers| && !slidingLayers[layer] then full else sliding
      ensures if Kind(layer).Fits(len) then Kind(layer).Positions(freqs) > pos else freqs == []
    {
      hide Rotation.Positions, Rotation.Fits, Rotation.Table, Grown;
      sliding.TableCovers(len);
      full.TableCovers(len);
      var covered := Kind(layer).Positions(Freqs(layer));
      if covered <= pos {
        var seqLen := NextSeqLen(covered, pos + 1, configuredMax);
        slidingFreqs := sliding.Build(seqLen, filler);
        fullFreqs := full.Build(seqLen, filler);
        len := seqLen;
        sliding.TableCovers(len);
        full.TableCovers(len);
      }
      return Freqs(layer);
    }

    /** A table covering `pos`. Between the look under the read lock and taking the write lock any other
        decoders' requests may run. Whatever they do, the result is a whole table that covers `pos`, unless a
        table of the length grown to cannot be built. */
    method Ensure(layer: int, pos: nat, others: seq<Request>) returns (freqs: seq<Num>)
      requires Valid() && pos < MAX_INT && forall i :: 0 <= i < |others| ==> others[i].pos < MAX_INT
      modifies this
      ensures Valid()
      ensures freqs == Freqs(layer) == Kind(layer).Table(len)
      ensures Kind(layer) == if 0 <= layer < |slidingLayers| && !slidingLayers[layer] then full else sliding
      ensures if Kind(layer).Fits(len) then Kind(layer).Positions(freqs) > pos else freqs == []
      ensures old(Kind(layer).Positions(Freqs(layer))) > pos ==> len == old(len)
      ensures old(Kind(layer).Positions(Freqs(layer))) <= pos ==>
                len == LenAfterAll(old(len), others + [Request(layer, pos)])
    {
      hide Rotation.Positions, Rotation.Fits, Rotation.Table, Grown;
      freqs := Freqs(layer);
      sliding.TableCovers(len);
      full.TableCovers(len);
      if Kind(layer).Positions(freqs) > pos {
        return;
      }
      assert others[..0] == [];
      for i := 0 to |others|
        invariant Valid() && len == LenAfterAll(old(len), others[..i])
      {
        assert others[..i + 1][..i] == others[..i];
        var other := EnsureLocked(others[i].layer, others[i].pos);
      }
      assert (others + [Request(layer, pos)])[..|others|] == others == others[..|others|];
      freqs := EnsureLocked(layer, pos);
    }
  }

  /** A stack without sliding tables: 2048 positions are covered, and one request for a layer of unknown
      kind, which counts as sliding, leaves the full table with one. */
  method ShrinkingRequest(full: Rotation, filler: Num) returns (cache: RopeCache, before: int)
    requires full.Fits(2048)
    ensures fresh(cache) && cache.Valid() && cache.full == full && before == 2048
    ensures full.Positions(cache.fullFreqs) == 1
  {
    hide Rotation.Positions, Rotation.Rows;
    full.TableCovers(2048);
    full.TableCovers(1);
    var none := full.(half := 0);
    none.TableCovers(2048);
    cache := new RopeCache(none, full, [false], 4096, filler);
    before := full.Positions(cache.fullFreqs);
    var freqs := cache.Ensure(1, 0, []);
  }
}
