/** Chunking a prompt so that its scratch memory fits a budget. */
module ChunkPlan {
  import opened Wrappers

  // ---------------------------------------------------------------------------------------------
  // Checked arithmetic and the scratch estimate

  /** The division guard detects overflow exactly. */
  lemma CheckedProductExact(a: int, b: int)
    ensures CheckedProduct(a, b) == if a >= 0 && b >= 0 && a * b <= MAX_INT then Some(a * b) else None
  {
    if a >= 0 && b > 0 {
      var q := MAX_INT / b;
      if a > q {
        ProductMono(q + 1, a, b);
        assert (q + 1) * b == q * b + b;
      } else {
        ProductMono(a, q, b);
      }
    }
  }

  lemma ProductMono(a: nat, b: nat, c: nat)
    requires a <= b
    ensures a * c <= b * c
  {
  }

  datatype ModelDims = ModelDims(hidden: int, q: int, kv: int, intermediate: int, layers: int)

  datatype ScratchEstimate = ScratchEstimate(cpuRowBytes: int, gpuRowBytes: int, rowBytes: int, fixedBytes: int)
  {
    /** Scratch for `rows` prompt tokens, or None on overflow. */
    function TotalBytes(rows: int): (t: Option<int>) {
      if rows < 0 then None
      else if rows == 0 then Some(0)
      else
        var product := CheckedProduct(rows, rowBytes);
        if product.None? then None else CheckedAdd(fixedBytes, product.value)
    }
  }

  function SumOf(terms: seq<Option<int>>): (r: Option<int>)
    requires terms != []
  {
    if |terms| == 1 then terms[0]
    else
      var rest := SumOf(terms[..|terms| - 1]);
      if rest.None? || terms[|terms| - 1].None? then None else CheckedAdd(rest.value, terms[|terms| - 1].value)
  }

  const FLOAT_BYTES := 4
  const SLICE_HEADER_BYTES := 24

  /** Per-row and fixed scratch from the model widths: hidden, attention, K/V and MLP buffers. */
  function Estimate(d: ModelDims): (r: Option<ScratchEstimate>) {
    if d.hidden <= 0 || d.q <= 0 || d.kv <= 0 || d.intermediate <= 0 || d.layers <= 0 then None
    else
      var shared := [CheckedProduct(d.q, 2), CheckedProduct(d.kv, 2), CheckedProduct(d.intermediate, 2)];
      var cpu, gpu := SumOf([CheckedProduct(d.hidden, 6)] + shared), SumOf([CheckedProduct(d.hidden, 5)] + shared);
      if cpu.None? || gpu.None? then None
      else
        var cpuBytes, gpuBytes := CheckedProduct(cpu.value, FLOAT_BYTES), CheckedProduct(gpu.value, FLOAT_BYTES);
        if cpuBytes.None? || gpuBytes.None? then None
        else
          var cpuFixed, gpuFixed := 12 * SLICE_HEADER_BYTES, 11 * SLICE_HEADER_BYTES;
          Some(ScratchEstimate(cpuBytes.value, gpuBytes.value, if gpuBytes.value > cpuBytes.value then gpuBytes.value
                               else cpuBytes.value,
                               if gpuFixed > cpuFixed then gpuFixed else cpuFixed))
  }

  /** The estimate is the larger of the two backends, which is always the CPU one, and it exists exactly for
      positive dimensions whose CPU row does not overflow. */
  lemma EstimateExact(d: ModelDims)
    ensures var row := 4 * (6 * d.hidden + 2 * d.q + 2 * d.kv + 2 * d.intermediate);
            && (Estimate(d).Some? <==>
                d.hidden > 0 && d.q > 0 && d.kv > 0 && d.intermediate > 0 && d.layers > 0 && row <= MAX_INT)
            && (Estimate(d).Some? ==>
                  Estimate(d).value == ScratchEstimate(row, row - 4 * d.hidden, row, 288))
  {
    if d.hidden <= 0 || d.q <= 0 || d.kv <= 0 || d.intermediate <= 0 || d.layers <= 0 {
      return;
    }
    CheckedProductExact(d.hidden, 6);
    CheckedProductExact(d.hidden, 5);
    CheckedProductExact(d.q, 2);
    CheckedProductExact(d.kv, 2);
    CheckedProductExact(d.intermediate, 2);
    var shared := [CheckedProduct(d.q, 2), CheckedProduct(d.kv, 2), CheckedProduct(d.intermediate, 2)];
    SumOfFour(CheckedProduct(d.hidden, 6), shared);
    SumOfFour(CheckedProduct(d.hidden, 5), shared);
    CheckedProductExact(6 * d.hidden + 2 * d.q + 2 * d.kv + 2 * d.intermediate, FLOAT_BYTES);
    CheckedProductExact(5 * d.hidden + 2 * d.q + 2 * d.kv + 2 * d.intermediate, FLOAT_BYTES);
  }

  lemma SumOfFour(first: Option<int>, shared: seq<Option<int>>)
    requires |shared| == 3
    ensures SumOf([first] + shared) ==
            if first.None? || shared[0].None? then None
            else
              var two := CheckedAdd(first.value, shared[0].value);
              if two.None? || shared[1].None? then None
              else
                var three := CheckedAdd(two.value, shared[1].value);
                if three.None? || shared[2].None? then None else CheckedAdd(three.value, shared[2].value)
  {
    var t := [first] + shared;
    assert t[..3][..2] == [first, shared[0]] && t[..3][2] == shared[1] && t[..2][..1] == [first];
    assert t[..3] == [first, shared[0], shared[1]];
    assert [first, shared[0]][..1] == [first];
    assert SumOf([first, shared[0]]) == if first.None? || shared[0].None? then None
                                        else CheckedAdd(first.value, shared[0].value);
    assert SumOf(t[..3]) == (var two := SumOf([first, shared[0]]); if two.None? || shared[1].None? then None
                             else CheckedAdd(two.value, shared[1].value));
  }

  /** Scratch is linear in the rows above none, and refused for a negative count or an overflow. */
  lemma TotalExact(e: ScratchEstimate, rows: int)
    ensures var t := e.TotalBytes(rows);
            && (t.Some? <==> rows == 0 || (rows > 0 && e.rowBytes >= 0 && e.fixedBytes >= 0
                                           && e.fixedBytes + rows * e.rowBytes <= MAX_INT))
            && (t.Some? ==> t.value == if rows == 0 then 0 else e.fixedBytes + rows * e.rowBytes)
  {
    CheckedProductExact(rows, e.rowBytes);
  }

  /** More rows never need less scratch, and overflow only gets worse. */
  lemma TotalMono(e: ScratchEstimate, a: nat, b: nat)
    requires a <= b && e.rowBytes >= 0 && e.fixedBytes >= 0
    ensures e.TotalBytes(b).Some? ==> e.TotalBytes(a).Some? && e.TotalBytes(a).value <= e.TotalBytes(b).value
  {
    CheckedProductExact(a, e.rowBytes);
    CheckedProductExact(b, e.rowBytes);
    ProductMono(a, b, e.rowBytes);
  }

  // ---------------------------------------------------------------------------------------------
  // Allowed sizes

  predicate Ascending(s: seq<int>) {
    forall i, j :: 0 <= i < j < |s| ==> s[i] < s[j]
  }

  predicate Ordered(s: seq<int>) {
    forall i, j :: 0 <= i < j < |s| ==> s[i] <= s[j]
  }

  function Insert(x: int, s: seq<int>): (r: seq<int>)
    requires Ordered(s)
    ensures Ordered(r) && |r| == |s| + 1 && (forall y :: y in r <==> y == x || y in s)
  {
    if s == [] then [x]
    else if x <= s[0] then [x] + s
    else
      var rest := Insert(x, s[1..]);
      assert forall i :: 0 <= i < |rest| ==> rest[i] in rest;
      [s[0]] + rest
  }

  /** The library sort. */
  function Sorted(s: seq<int>): (r: seq<int>)
    ensures Ordered(r) && |r| == |s| && (forall y :: y in r <==> y in s)
  {
    if s == [] then [] else Insert(s[0], Sorted(s[1..]))
  }

  /** Sorted without repeats; refused when any size is not positive. No sizes mean the defaults. */
  method NormalizeSizes(sizes: seq<int>) returns (r: Result<seq<int>>)
    ensures r.Ok? <==> forall i :: 0 <= i < |sizes| ==> sizes[i] > 0
    ensures r.Ok? ==> r.value != [] && Ascending(r.value) && r.value[0] > 0
    ensures r.Ok? ==> forall x :: x in r.value <==> if sizes == [] then x in {32, 64, 128} else x in sizes
  {
    if sizes == [] {
      return Ok([32, 64, 128]);
    }
    var norm := Sorted(sizes);
    assert forall i :: 0 <= i < |sizes| ==> sizes[i] in norm;
    r := DropRepeats(norm);
  }

  /** One pass over sorted sizes. */
  method DropRepeats(norm: seq<int>) returns (r: Result<seq<int>>)
    requires Ordered(norm) && norm != []
    ensures r.Ok? <==> forall x :: x in norm ==> x > 0
    ensures r.Ok? ==> r.value != [] && Ascending(r.value) && r.value[0] > 0 && forall x :: x in r.value <==> x in norm
  {
    var out: seq<int> := [];
    var last := 0;
    for i := 0 to |norm|
      invariant forall j :: 0 <= j < i ==> norm[j] > 0
      invariant Ascending(out) && (forall x :: x in out <==> x in norm[..i])
      invariant i == 0 ==> out == []
      invariant i > 0 ==> out != [] && out[0] > 0 && last == out[|out| - 1] == norm[i - 1]
    {
      assert norm[..i + 1] == norm[..i] + [norm[i]];
      assert i > 0 ==> norm[i - 1] <= norm[i];
      if norm[i] <= 0 {
        assert norm[i] in norm;
        return Err;
      }
      if i > 0 && norm[i] == last {
        continue;
      }
      out := out + [norm[i]];
      last := norm[i];
    }
    assert norm[..|norm|] == norm;
    return Ok(out);
  }

  // ---------------------------------------------------------------------------------------------
  // Spans

  datatype Span = Span(start: int, end: int)

  /** Consecutive non-empty ranges from `from` on, each of `size` tokens except possibly the last. */
  predicate Tiles(spans: seq<Span>, from: int, to: int, size: int) {
    if spans == [] then from == to
    else
      var n := |spans| - 1;
      && spans[n].start < spans[n].end == to
      && (spans[n].end - spans[n].start <= size)
      && Tiles(spans[..n], from, spans[n].start, size)
      && (forall i :: 0 <= i < n ==> spans[i].end - spans[i].start == size)
  }

  /** Start of the last chunk. */
  function LastStart(tokens: int, size: int): (s: int)
    requires size > 0 && tokens > 0
    ensures 0 <= s < tokens <= s + size
    decreases tokens
  {
    if tokens <= size then 0 else size + LastStart(tokens - size, size)
  }

  /** Splits `[0, tokens)` in order; only the end of the last chunk can overflow. */
  method BuildSpans(tokens: int, size: int) returns (r: Result<seq<Span>>)
    requires tokens <= MAX_INT
    ensures r.Ok? <==> tokens == 0 || (tokens > 0 && size > 0 && LastStart(tokens, size) + size <= MAX_INT)
    ensures r.Ok? ==> Tiles(r.value, 0, tokens, size) && (tokens > 0 ==> r.value != [])
  {
    if tokens < 0 {
      return Err;
    }
    if tokens == 0 {
      return Ok([]);
    }
    if size <= 0 {
      return Err;
    }
    var spans: seq<Span> := [];
    var start := 0;
    while start < tokens
      invariant 0 <= start <= tokens && Tiles(spans, 0, start, size) && (start > 0 ==> spans != [])
      invariant start < tokens ==> LastStart(tokens, size) == start + LastStart(tokens - start, size)
      invariant start < tokens ==> forall i :: 0 <= i < |spans| ==> spans[i].end - spans[i].start == size
      invariant start == tokens ==> LastStart(tokens, size) + size <= MAX_INT
      decreases tokens - start
    {
      if start > MAX_INT - size {
        return Err;
      }
      var end := start + size;
      if end > tokens {
        end := tokens;
      }
      assert (spans + [Span(start, end)])[..|spans|] == spans;
      spans := spans + [Span(start, end)];
      start := end;
    }
    return Ok(spans);
  }

  /** What tiling means: neighbours touch, and every token is in exactly one span. */
  lemma {:induction false} TilesOnce(spans: seq<Span>, from: int, to: int, size: int, t: int)
    requires Tiles(spans, from, to, size) && from <= t < to
    ensures exists i :: 0 <= i < |spans| && spans[i].start <= t < spans[i].end
    ensures forall i, j :: 0 <= i < j < |spans| ==>
                             !(spans[i].start <= t < spans[i].end && spans[j].start <= t < spans[j].end)
    decreases |spans|
  {
    var n := |spans| - 1;
    TilesBelow(spans[..n], from, spans[n].start, size);
    if t < spans[n].start {
      TilesOnce(spans[..n], from, spans[n].start, size, t);
      var i :| 0 <= i < n && spans[..n][i].start <= t < spans[..n][i].end;
      assert spans[i] == spans[..n][i];
      forall i, j | 0 <= i < j < |spans|
        ensures !(spans[i].start <= t < spans[i].end && spans[j].start <= t < spans[j].end)
      {
        if j < n {
          assert spans[i] == spans[..n][i] && spans[j] == spans[..n][j];
        }
      }
    } else {
      forall i, j | 0 <= i < j < |spans|
        ensures !(spans[i].start <= t < spans[i].end && spans[j].start <= t < spans[j].end)
      {
        assert spans[i] == spans[..n][i];
      }
    }
  }

  lemma {:induction false} TilesBelow(spans: seq<Span>, from: int, to: int, size: int)
    requires Tiles(spans, from, to, size)
    ensures from <= to && forall i :: 0 <= i < |spans| ==>
                                        from <= spans[i].start < spans[i].end <= to
                                        && spans[i].end - spans[i].start <= size
    decreases |spans|
  {
    if spans != [] {
      var n := |spans| - 1;
      TilesBelow(spans[..n], from, spans[n].start, size);
      forall i | 0 <= i < |spans|
        ensures from <= spans[i].start < spans[i].end <= to && spans[i].end - spans[i].start <= size
      {
        if i < n {
          assert spans[i] == spans[..n][i];
        }
      }
    }
  }

  // ---------------------------------------------------------------------------------------------
  // The plan

  const UNLIMITED := -1

  datatype Plan = Plan(tokens: int, sizes: seq<int>, budget: int, chunkSize: int, disabled: bool, spans: seq<Span>,
                       peakRows: int, peakBytes: int)

  /** The chunk size a finite budget allows: the largest allowed size that is not longer than the prompt
      and fits; a prompt shorter than every size is one chunk. */
  ghost predicate Chosen(e: ScratchEstimate, sizes: seq<int>, tokens: int, budget: int, size: int)
    requires sizes != []
  {
    && e.TotalBytes(size).Some? && e.TotalBytes(size).value <= budget
    && if tokens < sizes[0] then size == tokens
       else
         size in sizes && size <= tokens
         && forall s :: s in sizes && size < s <= tokens ==>
                          e.TotalBytes(s).Some? && e.TotalBytes(s).value > budget
  }

  /** The search from the largest size down. An estimate that overflows ends it, even if a smaller size
      would fit. */
  method ChooseSize(e: ScratchEstimate, sizes: seq<int>, tokens: int, budget: int) returns (r: Result<int>)
    requires sizes != [] && Ascending(sizes) && sizes[0] > 0 && tokens > 0
    ensures r.Ok? ==> 0 < r.value <= tokens && Chosen(e, sizes, tokens, budget, r.value)
    ensures r.Err? ==> forall size :: !Chosen(e, sizes, tokens, budget, size)
  {
    if tokens < sizes[0] {
      var need := e.TotalBytes(tokens);
      if need.None? || need.value > budget {
        return Err;
      }
      return Ok(tokens);
    }
    var i := |sizes| - 1;
    while i >= 0
      invariant -1 <= i < |sizes|
      invariant forall j :: i < j < |sizes| && sizes[j] <= tokens ==>
                              e.TotalBytes(sizes[j]).Some? && e.TotalBytes(sizes[j]).value > budget
    {
      if sizes[i] <= tokens {
        var need := e.TotalBytes(sizes[i]);
        if need.None? {
          assert sizes[i] in sizes;
          return Err;
        }
        if need.value <= budget {
          return Ok(sizes[i]);
        }
      }
      i := i - 1;
    }
    return Err;
  }

  /** When some allowed size fits, the search finds one if and only if the estimate of no allowed size up
      to the prompt length overflows: a single overflow ends it, however small the size that fits. */
  lemma ChosenExists(e: ScratchEstimate, sizes: seq<int>, tokens: int, budget: int, s: int)
    requires sizes != [] && Ascending(sizes) && sizes[0] > 0 && tokens >= sizes[0] && s in sizes && s <= tokens
    requires e.rowBytes >= 0 && e.fixedBytes >= 0
    requires e.TotalBytes(s).Some? && e.TotalBytes(s).value <= budget
    ensures (exists size :: Chosen(e, sizes, tokens, budget, size)) <==>
            forall t :: t in sizes && t <= tokens ==> e.TotalBytes(t).Some?
  {
    if forall t :: t in sizes && t <= tokens ==> e.TotalBytes(t).Some? {
      var i :| 0 <= i < |sizes| && sizes[i] == s;
      LargestFit(e, sizes, tokens, budget, i);
    }
    if size :| Chosen(e, sizes, tokens, budget, size) {
      forall t | t in sizes && t <= tokens
        ensures e.TotalBytes(t).Some?
      {
        if t <= size {
          TotalMono(e, t, size);
        }
      }
    }
  }

  /** One row of a terabyte-wide model fits a budget of 2^48 bytes and 2^40 rows overflow: with both sizes
      allowed, a prompt of 2^40 tokens gets no plan. */
  lemma OverflowHidesFit()
    ensures var e, sizes := ScratchEstimate(0x100_0000_0000, 0, 0x100_0000_0000, 288), [1, 0x100_0000_0000];
            && e.TotalBytes(1) == Some(0x100_0000_0120) && 0x100_0000_0120 <= 0x1_0000_0000_0000
            && e.TotalBytes(0x100_0000_0000).None?
            && forall size :: !Chosen(e, sizes, 0x100_0000_0000, 0x1_0000_0000_0000, size)
  {
    var e, sizes := ScratchEstimate(0x100_0000_0000, 0, 0x100_0000_0000, 288), [1, 0x100_0000_0000];
    assert sizes[1] in sizes && sizes[0] in sizes;
    ChosenExists(e, sizes, 0x100_0000_0000, 0x1_0000_0000_0000, 1);
  }

  lemma {:induction false} LargestFit(e: ScratchEstimate, sizes: seq<int>, tokens: int, budget: int, i: nat)
    requires i < |sizes| && Ascending(sizes) && sizes[0] > 0 && tokens >= sizes[0] && sizes[i] <= tokens
    requires forall t :: t in sizes && t <= tokens ==> e.TotalBytes(t).Some?
    requires e.TotalBytes(sizes[i]).value <= budget
    ensures exists size :: Chosen(e, sizes, tokens, budget, size)
    decreases |sizes| - i
  {
    if j :| i < j < |sizes| && sizes[j] <= tokens && e.TotalBytes(sizes[j]).value <= budget {
      LargestFit(e, sizes, tokens, budget, j);
    } else {
      assert Chosen(e, sizes, tokens, budget, sizes[i]);
    }
  }

  /** Plans a prompt. Whatever the budget, the spans tile the prompt in order; under a finite one no chunk
      needs more scratch than the budget and the chunk is as large as the budget allows. */
  method NewPlan(tokens: int, dims: ModelDims, budget: int, allowed: seq<int>)
    returns (r: Result<Plan>, ghost sizes: seq<int>)
    requires tokens <= MAX_INT && budget <= MAX_INT
    ensures r.Err? ==>
              || tokens < 0 || budget < UNLIMITED || Estimate(dims).None?
              || (exists i :: 0 <= i < |allowed| && allowed[i] <= 0)
              || (budget == UNLIMITED && Estimate(dims).value.TotalBytes(tokens).None?)
              || (budget != UNLIMITED && sizes != []
                  && forall size :: Chosen(Estimate(dims).value, sizes, tokens, budget, size) ==>
                                      size > 0 && tokens > 0 && LastStart(tokens, size) + size > MAX_INT)
    ensures r.Ok? ==> r.value.sizes == sizes && r.value.tokens == tokens && r.value.budget == budget
    ensures r.Ok? ==> r.value.disabled == (tokens > 0 && budget == UNLIMITED)
    ensures r.Ok? ==>
              tokens >= 0 && budget >= UNLIMITED && Estimate(dims).Some?
              && forall i :: 0 <= i < |allowed| ==>
                               allowed[i] > 0
    ensures r.Ok? && tokens > 0 ==>
              Tiles(r.value.spans, 0, tokens, r.value.chunkSize) && r.value.peakRows == r.value.chunkSize
    ensures r.Ok? && tokens == 0 ==>
              r.value.spans == [] && r.value.chunkSize == r.value.peakRows == r.value.peakBytes == 0
    ensures r.Ok? && tokens > 0 ==> Estimate(dims).value.TotalBytes(r.value.peakRows) == Some(r.value.peakBytes)
    ensures r.Ok? && tokens > 0 && budget == UNLIMITED ==> r.value.chunkSize == tokens
    ensures r.Ok? && tokens > 0 && budget != UNLIMITED ==>
              && r.value.peakBytes <= budget && r.value.sizes != []
              && Chosen(Estimate(dims).value, r.value.sizes, tokens, budget, r.value.chunkSize)
              && forall x :: x in r.value.sizes <==> if allowed == [] then x in {32, 64, 128} else x in allowed
  {
    sizes := [];
    if tokens < 0 || budget < UNLIMITED {
      return Err, sizes;
    }
    var estimate := Estimate(dims);
    if estimate.None? {
      return Err, sizes;
    }
    hide Estimate;
    var normalized := NormalizeSizes(allowed);
    if normalized.Err? {
      return Err, sizes;
    }
    sizes := normalized.value;
    if tokens == 0 {
      return Ok(Plan(0, normalized.value, budget, 0, false, [], 0, 0)), sizes;
    }
    var size := tokens;
    if budget != UNLIMITED {
      var chosen := ChooseSize(estimate.value, normalized.value, tokens, budget);
      if chosen.Err? {
        return Err, sizes;
      }
      size := chosen.value;
    }
    hide ScratchEstimate.TotalBytes, Chosen;
    var spans := BuildSpans(tokens, size);
    if spans.Err? {
      return Err, sizes;
    }
    var peakRows := if budget == UNLIMITED then tokens else 0;
    if budget != UNLIMITED {
      peakRows := PeakRows(spans.value, tokens, size);
    }
    var peakBytes := estimate.value.TotalBytes(peakRows);
    if peakBytes.None? {
      return Err, sizes;
    }
    return Ok(Plan(tokens, normalized.value, budget, size, budget == UNLIMITED, spans.value, peakRows,
                   peakBytes.value)), sizes;
  }

  /** The longest span, which is a whole chunk. */
  method PeakRows(spans: seq<Span>, tokens: int, size: int) returns (peak: int)
    requires Tiles(spans, 0, tokens, size) && 0 < size <= tokens && spans != []
    ensures peak == size
  {
    peak := 0;
    TilesBelow(spans, 0, tokens, size);
    for i := 0 to |spans|
      invariant 0 <= peak <= size && (i > 0 ==> peak == size)
    {
      var rows := spans[i].end - spans[i].start;
      if rows > peak {
        peak := rows;
      }
    }
  }

}
