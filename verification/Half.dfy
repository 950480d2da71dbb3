/** Half-precision conversion on bit patterns. Magnitudes are exact integers: a float32 magnitude counts
    units of 2^-149, its smallest subnormal; a binary16 magnitude counts units of 2^-24. */
module Half {

  /** `a` shifted left by `k` bits. */
  function Shl(a: nat, k: nat): nat {
    if k == 0 then a else 2 * Shl(a, k - 1)
  }

  /** `n` shifted right by `k` bits. */
  function Shr(n: nat, k: nat): nat {
    if k == 0 then n else Shr(n / 2, k - 1)
  }

  /** The `k` bits a right shift drops. */
  function Low(n: nat, k: nat): nat {
    if k == 0 then 0 else 2 * Low(n / 2, k - 1) + n % 2
  }

  lemma {:induction false} ShlOrder(a: nat, b: nat, k: nat)
    ensures a < b <==> Shl(a, k) < Shl(b, k)
    ensures a == b <==> Shl(a, k) == Shl(b, k)
  {
    if k > 0 {
      ShlOrder(a, b, k - 1);
    }
  }

  lemma {:induction false} ShlAdd(a: nat, b: nat, k: nat)
    ensures Shl(a + b, k) == Shl(a, k) + Shl(b, k)
  {
    if k > 0 {
      ShlAdd(a, b, k - 1);
    }
  }

  lemma {:induction false} ShlTwice(a: nat, j: nat, k: nat)
    ensures Shl(Shl(a, j), k) == Shl(a, j + k)
  {
    if k > 0 {
      ShlTwice(a, j, k - 1);
    }
  }

  lemma {:induction false} ShlMore(a: nat, j: nat, k: nat)
    requires j <= k
    ensures Shl(a, j) <= Shl(a, k)
  {
    if j < k {
      ShlMore(a, j, k - 1);
    }
  }

  lemma ShlSmall()
    ensures Shl(1, 10) == 1024 && Shl(1, 12) == 0x1000 && Shl(1, 13) == 8192 && Shl(1, 23) == 0x80_0000
            && Shl(1, 24) == 0x100_0000
    ensures Shl(1024, 13) == 0x80_0000 && Shl(1, 14) == 16384
  {
    assert Shl(1, 4) == 16 && Shl(1, 5) == 32;
    ShlTwice(1, 5, 5);
    assert Shl(32, 5) == 1024;
    ShlTwice(1, 10, 3);
    assert Shl(1024, 3) == 8192;
    assert Shl(1024, 2) == 4096;
    ShlTwice(1, 10, 2);
    ShlTwice(1, 10, 13);
    ShlTwice(1024, 3, 10);
    ShlTwice(8192, 5, 5);
    assert Shl(8192, 5) == 262144 && Shl(262144, 5) == 0x80_0000;
  }

  /** A right shift and the bits it drops make up the number. */
  lemma {:induction false} ShrLow(n: nat, k: nat)
    ensures n == Shl(Shr(n, k), k) + Low(n, k) && Low(n, k) < Shl(1, k)
  {
    if k > 0 {
      ShrLow(n / 2, k - 1);
    }
  }

  lemma {:induction false} ShrUnique(n: nat, k: nat, q: nat, r: nat)
    requires n == Shl(q, k) + r && r < Shl(1, k)
    ensures Shr(n, k) == q && Low(n, k) == r
  {
    if k > 0 {
      ShrUnique(n / 2, k - 1, q, r / 2);
    }
  }

  lemma ShrBelow(n: nat, k: nat, bound: nat)
    requires n < Shl(bound, k)
    ensures Shr(n, k) < bound
  {
    ShrLow(n, k);
    ShlOrder(Shr(n, k), bound, k);
  }

  /** Adding half a step before shifting rounds halves up. */
  lemma HalfUp(n: nat, k: nat)
    requires k > 0
    ensures Shr(n + Shl(1, k - 1), k) == if Low(n, k) >= Shl(1, k - 1) then Shr(n, k) + 1 else Shr(n, k)
  {
    ShrLow(n, k);
    var q, r, half := Shr(n, k), Low(n, k), Shl(1, k - 1);
    if r >= half {
      ShlAdd(q, 1, k);
      ShrUnique(n + half, k, q + 1, r - half);
    } else {
      ShrUnique(n + half, k, q, r + half);
    }
  }

  // ---------------------------------------------------------------------------------------------
  // Bit patterns and their values

  const INFINITY16 := 0x7c00
  const INFINITY32 := 0x7f80_0000

  newtype uint16 = x: int | 0 <= x < 0x1_0000
  newtype uint32 = x: int | 0 <= x < 0x1_0000_0000

  function Sign16(bits: uint32): (s: int)
    ensures s == 0 || s == 0x8000
  {
    if bits >= 0x8000_0000 then 0x8000 else 0
  }

  function Magnitude32(bits: uint32): (m: nat)
    ensures m < 0x8000_0000
  {
    bits as int % 0x8000_0000
  }

  predicate IsNaN(bits: uint32) {
    Magnitude32(bits) > INFINITY32
  }

  /** Value of a float32 magnitude pattern; the infinite pattern stands for something beyond every half. */
  function Value32(m: nat): nat
    requires m < 0x8000_0000
  {
    var e, f := m / 0x80_0000, m % 0x80_0000;
    if e == 0 then f else Shl(0x80_0000 + f, e - 1)
  }

  /** Value of a binary16 magnitude pattern; the infinite pattern stands for the first power of two past
      the largest finite half, where rounding to nearest overflows. */
  function Value16(h: nat): nat
    requires h <= INFINITY16
  {
    var e, f := h / 1024, h % 1024;
    if e == 0 then f else Shl(1024 + f, e - 1)
  }

  /** The same value in float32 units. */
  function Wide(h: nat): nat
    requires h <= INFINITY16
  {
    Shl(Value16(h), 125)
  }

  /** Consecutive halves of one binade are evenly spaced, and a carry runs into the next binade. */
  lemma Value16At(e: nat, q: nat)
    requires e <= 30 && q <= 1024
    ensures e * 1024 + q <= INFINITY16
    ensures Value16(e * 1024 + q) == if e == 0 then q else Shl(1024 + q, e - 1)
  {
    var h := e * 1024 + q;
    if q == 1024 {
      assert h / 1024 == e + 1 && h % 1024 == 0;
      if e > 0 {
        ShlTwice(1024, 1, e - 1);
      }
    } else {
      assert h / 1024 == e && h % 1024 == q;
    }
  }

  lemma WideStep(h: nat)
    requires h < INFINITY16
    ensures Wide(h) < Wide(h + 1)
  {
    var e, q := h / 1024, h % 1024;
    Value16At(e, q);
    Value16At(e, q + 1);
    assert h + 1 == e * 1024 + (q + 1);
    if e > 0 {
      ShlOrder(1024 + q, 1024 + q + 1, e - 1);
    }
    ShlOrder(Value16(h), Value16(h + 1), 125);
  }

  lemma {:induction false} WideMono(g: nat, h: nat)
    requires g <= h <= INFINITY16
    ensures Wide(g) <= Wide(h) && (g < h ==> Wide(g) < Wide(h))
    decreases h
  {
    if g < h {
      hide Wide;
      WideMono(g, h - 1);
      WideStep(h - 1);
    }
  }

  // ---------------------------------------------------------------------------------------------
  // roundTiesToEven

  function Distance(a: int, b: int): nat {
    if a < b then b - a else a - b
  }

  /** Section 4.3.1 of IEEE 754-2019 on the binary16 magnitudes of its section 3.4: the nearest one, and
      of two equally near the one with an even last bit. From halfway past the largest finite half on,
      that is infinity. */
  ghost predicate RoundsTiesToEven(v: nat, h: nat) {
    && h <= INFINITY16
    && forall g :: 0 <= g <= INFINITY16 && g != h ==> Beats(v, h, g)
  }

  ghost predicate Beats(v: nat, h: nat, g: nat)
    requires h <= INFINITY16 && g <= INFINITY16
  {
    Distance(v, Wide(h)) < Distance(v, Wide(g)) || (Distance(v, Wide(h)) == Distance(v, Wide(g)) && h % 2 == 0)
  }

  /** The result is unique: of two adjacent halves one is odd. */
  lemma RoundingUnique(v: nat, h: nat, g: nat)
    requires RoundsTiesToEven(v, h) && RoundsTiesToEven(v, g)
    ensures h == g
  {
    hide Wide;
    if h != g {
      var low, high := if h < g then h else g, if h < g then g else h;
      assert Beats(v, low, low + 1) && Beats(v, low, high) && Beats(v, high, low);
      WideMono(low, low + 1);
      WideMono(low + 1, high);
    }
  }

  /** The choice between the two halves around a value. */
  function Nearer(below: nat, above: nat, h: nat): nat {
    if below < above then h else if above < below then h + 1 else if h % 2 == 0 then h else h + 1
  }

  /** Between two adjacent halves, the nearer one is the rounded value. */
  lemma RoundBetween(v: nat, h: nat)
    requires h < INFINITY16 && Wide(h) <= v <= Wide(h + 1)
    ensures RoundsTiesToEven(v, Nearer(v - Wide(h), Wide(h + 1) - v, h))
  {
    hide Wide;
    var r := Nearer(v - Wide(h), Wide(h + 1) - v, h);
    WideStep(h);
    forall g | 0 <= g <= INFINITY16 && g != r
      ensures Beats(v, r, g)
    {
      if g < h {
        WideMono(g, h);
      } else if g > h + 1 {
        WideMono(h + 1, g);
      }
    }
  }

  lemma RoundBeyond(v: nat)
    requires v >= Wide(INFINITY16)
    ensures RoundsTiesToEven(v, INFINITY16)
  {
    hide Wide;
    forall g | 0 <= g <= INFINITY16 && g != INFINITY16
      ensures Beats(v, INFINITY16, g)
    {
      WideMono(g, INFINITY16);
    }
  }

  // ---------------------------------------------------------------------------------------------
  // The pieces both conversions share

  /** Rebased exponent of a magnitude. */
  function Exponent(m: nat): int {
    m / 0x80_0000 - 127 + 15
  }

  function Mantissa(m: nat): (f: nat)
    ensures f < 0x80_0000
  {
    m % 0x80_0000
  }

  /** Too small for any half but zero: less than half the smallest subnormal. */
  lemma Underflow(m: nat)
    requires m < INFINITY32 && Exponent(m) < -10
    ensures Wide(0) == 0 && Wide(1) == 2 * Shl(1, 124) && Value32(m) < Shl(1, 124)
    ensures RoundsTiesToEven(Value32(m), 0)
  {
    hide Shl, RoundsTiesToEven;
    ShlSmall();
    var e, v := m / 0x80_0000, Value32(m);
    if e > 0 {
      ShlOrder(0x80_0000 + Mantissa(m), 0x100_0000, e - 1);
      ShlTwice(1, 24, e - 1);
      ShlMore(1, 24 + e - 1, 124);
    } else {
      ShlMore(1, 23, 124);
    }
    ZeroWide(125);
    RoundBetween(v, 0);
  }

  lemma ZeroWide(k: nat)
    requires k > 0
    ensures Shl(0, k) == 0 && Shl(1, k) == 2 * Shl(1, k - 1)
  {
    ShlAdd(0, 0, k);
  }

  /** A normal magnitude is at least the start of its binade. */
  lemma BinadeStart(m: nat)
    requires 0x80_0000 <= m < 0x8000_0000
    ensures m / 0x80_0000 > 0 && Value32(m) >= Shl(0x80_0000, m / 0x80_0000 - 1)
  {
    hide Shl;
    ShlAdd(0x80_0000, Mantissa(m), m / 0x80_0000 - 1);
  }

  lemma Overflow(m: nat)
    requires m <= INFINITY32 && Exponent(m) >= 31
    ensures RoundsTiesToEven(Value32(m), INFINITY16) && Value32(m) >= Wide(INFINITY16)
  {
    hide Shl, Wide, Value32, RoundsTiesToEven;
    BinadeStart(m);
    ShlMore(0x80_0000, 142, m / 0x80_0000 - 1);
    TopWide();
    RoundBeyond(Value32(m));
  }

  lemma TopWide()
    ensures Wide(INFINITY16) == Shl(0x80_0000, 142)
  {
    ShlSmall();
    Value16At(30, 1024);
    assert Shl(1024, 1) == 2048;
    ShlTwice(1024, 1, 12);
    hide Shl;
    ShlTwice(2048, 29, 125);
    ShlTwice(2048, 12, 142);
  }

  /** A magnitude between two adjacent halves: `rem` of the `2^shift` units that separate them, each of
      value `2^k`. */
  ghost predicate Between(m: nat, h: nat, shift: nat, rem: nat, k: nat) {
    && shift > 0 && rem < Shl(1, shift) && m < 0x8000_0000 && h < INFINITY16
    && Value32(m) == Wide(h) + Shl(rem, k) && Wide(h + 1) == Wide(h) + Shl(Shl(1, shift), k)
  }

  lemma SubnormalBetween(m: nat)
    requires m < 0x8000_0000 && -10 <= Exponent(m) <= 0
    ensures var shift: nat := 14 - Exponent(m);
            var mant := Mantissa(m) + 0x80_0000;
            Shr(mant, shift) < 1024
            && Between(m, Shr(mant, shift), shift, Low(mant, shift), Exponent(m) + 111)
  {
    hide Shr, Low;
    ShlSmall();
    var mant, shift: nat, k: nat := Mantissa(m) + 0x80_0000, 14 - Exponent(m), Exponent(m) + 111;
    var q, rem := Shr(mant, shift), Low(mant, shift);
    ShlMore(1024, 14, shift);
    ShlTwice(1024, 13, 1);
    ShrBelow(mant, shift, 1024);
    ShrLow(mant, shift);
    Value16At(0, q);
    Value16At(0, q + 1);
    assert Value32(m) == Shl(mant, k);
    ShlAdd(Shl(q, shift), rem, k);
    ShlTwice(q, shift, k);
    ShlAdd(q, 1, 125);
    ShlTwice(1, shift, k);
  }

  lemma NormalWide(e: nat, q: nat)
    requires 1 <= e <= 30 && q < 1024
    ensures var h := e * 1024 + q;
            h < INFINITY16 && Wide(h) == Shl(1024 + q, e + 124)
            && Wide(h + 1) == Shl(1024 + q, e + 124) + Shl(1, e + 124)
  {
    Value16At(e, q);
    Value16At(e, q + 1);
    assert e * 1024 + q + 1 == e * 1024 + (q + 1);
    hide Value16;
    ShlTwice(1024 + q, e - 1, 125);
    ShlTwice(1024 + q + 1, e - 1, 125);
    ShlAdd(1024 + q, 1, e + 124);
  }

  lemma NormalValue(m: nat)
    requires m < 0x8000_0000 && 1 <= Exponent(m) <= 30
    ensures Value32(m) == Shl(0x80_0000 + Mantissa(m), Exponent(m) + 111)
  {
    hide Shl;
  }

  lemma NormalBetween(m: nat)
    requires m < 0x8000_0000 && 1 <= Exponent(m) <= 30
    ensures Shr(Mantissa(m), 13) < 1024
    ensures Between(m, Exponent(m) * 1024 + Shr(Mantissa(m), 13), 13, Low(Mantissa(m), 13), Exponent(m) + 111)
  {
    hide Shr, Low, Wide, Value32, Shl;
    ShlSmall();
    NormalValue(m);
    var exp: nat, f, k: nat := Exponent(m), Mantissa(m), Exponent(m) + 111;
    var q, rem := Shr(f, 13), Low(f, 13);
    ShrBelow(f, 13, 1024);
    ShrLow(f, 13);
    NormalWide(exp, q);
    ShlAdd(1024, q, 13);
    ShlAdd(Shl(1024 + q, 13), rem, k);
    ShlTwice(1024 + q, 13, k);
    ShlTwice(1, 13, k);
  }

  /** Guard bits decide: comparing the remainder with half a step compares the distances. */
  lemma GuardBits(m: nat, h: nat, shift: nat, rem: nat, k: nat)
    requires Between(m, h, shift, rem, k)
    ensures RoundsTiesToEven(Value32(m),
                             if rem > Shl(1, shift - 1) || (rem == Shl(1, shift - 1) && h % 2 != 0) then h + 1 else h)
    ensures Distance(Value32(m), Wide(h)) >= Distance(Value32(m), Wide(h + 1)) <==> rem >= Shl(1, shift - 1)
    ensures Wide(h) <= Value32(m) < Wide(h + 1)
  {
    var rest: nat := Shl(1, shift) - rem;
    ShlAdd(rem, rest, k);
    ShlOrder(rem, rest, k);
    ShlOrder(rest, rem, k);
    ShlOrder(rem, Shl(1, shift), k);
    hide Wide, Value32;
    RoundBetween(Value32(m), h);
  }

  // ---------------------------------------------------------------------------------------------
  // Guard-bit conversion

  /** Round to nearest even from the bits shifted out. It does not look for NaN. */
  function GgmlF32ToF16Even(bits: uint32): (r: int)
    ensures 0 <= r < 0x1_0000
  {
    Sign16(bits) + GgmlMagnitude(Magnitude32(bits))
  }

  function GgmlMagnitude(m: nat): (r: nat)
    requires m < 0x8000_0000
    ensures r <= INFINITY16
  {
    var exp, f := Exponent(m), Mantissa(m);
    if exp <= 0 then
      if exp < -10 then 0
      else
        SubnormalBetween(m);
        var mant, shift: nat := f + 0x80_0000, 14 - exp;
        var base, rem, half := Shr(mant, shift), Low(mant, shift), Shl(1, shift - 1);
        if rem > half || (rem == half && base % 2 != 0) then base + 1 else base
    else if exp >= 31 then INFINITY16
    else
      NormalBetween(m);
      var base, rem := Shr(f, 13), Low(f, 13);
      if rem > 0x1000 || (rem == 0x1000 && base % 2 != 0) then
        if base + 1 == 0x400 then
          if exp + 1 >= 31 then INFINITY16 else (exp + 1) * 1024
        else exp * 1024 + base + 1
      else exp * 1024 + base
  }

  /** On every magnitude that is not NaN, subnormals, ties, carries and overflow included, the guard-bit
      conversion is roundTiesToEven. */
  lemma GgmlRounds(m: nat)
    requires m <= INFINITY32
    ensures RoundsTiesToEven(Value32(m), GgmlMagnitude(m))
  {
    hide Shl, Shr, Low, Value32, Wide, RoundsTiesToEven;
    var exp, f := Exponent(m), Mantissa(m);
    if exp < -10 {
      Underflow(m);
    } else if exp <= 0 {
      SubnormalBetween(m);
      var mant, shift: nat := f + 0x80_0000, 14 - exp;
      GuardBits(m, Shr(mant, shift), shift, Low(mant, shift), exp + 111);
    } else if exp >= 31 {
      Overflow(m);
    } else {
      NormalBetween(m);
      ShlSmall();
      GuardBits(m, exp * 1024 + Shr(f, 13), 13, Low(f, 13), exp + 111);
    }
  }

  // ---------------------------------------------------------------------------------------------
  // Legacy conversion: ties away from zero

  function F32ToF16(bits: uint32): (r: int)
    ensures 0 <= r < 0x1_0000
  {
    var m := Magnitude32(bits);
    Sign16(bits) + if m > INFINITY32 then NaN16(m) else AwayMagnitude(m)
  }

  /** A NaN keeps its upper payload bits and becomes quiet. */
  function NaN16(m: nat): (r: nat)
    requires INFINITY32 < m < 0x8000_0000
    ensures INFINITY16 < r < 0x8000
  {
    var payload := Mantissa(m) / 8192;
    INFINITY16 + if payload / 512 % 2 == 0 then payload + 0x200 else payload
  }

  function AwayMagnitude(m: nat): (r: nat)
    requires m < 0x8000_0000
    ensures r <= INFINITY16
  {
    var exp, f := Exponent(m), Mantissa(m);
    if exp <= 0 then
      if exp < -10 then 0
      else
        var mant, shift: nat := f + 0x80_0000, 14 - exp;
        SubnormalBetween(m);
        HalfUp(mant, shift);
        Shr(mant + Shl(1, shift - 1), shift)
    else if exp >= 31 then INFINITY16
    else
      var rounded := f + 0x1000;
      if rounded >= 0x80_0000 then
        if exp + 1 >= 31 then INFINITY16 else (exp + 1) * 1024
      else
        ShlSmall();
        ShrBelow(rounded, 13, 1024);
        exp * 1024 + Shr(rounded, 13)
  }

  /** `h` is a nearest half, and no even one above it is as near: ties have gone away from zero. */
  ghost predicate RoundsTiesAway(v: nat, h: nat) {
    && h <= INFINITY16
    && (h > 0 ==> Distance(v, Wide(h)) <= Distance(v, Wide(h - 1)))
    && (h < INFINITY16 ==> Distance(v, Wide(h)) < Distance(v, Wide(h + 1)))
  }

  lemma AwayBetween(v: nat, h: nat, up: bool)
    requires h < INFINITY16 && Wide(h) <= v < Wide(h + 1)
    requires up <==> Distance(v, Wide(h)) >= Distance(v, Wide(h + 1))
    ensures RoundsTiesAway(v, if up then h + 1 else h)
  {
    hide Wide;
    if up && h + 1 < INFINITY16 {
      WideStep(h + 1);
    }
    if !up && h > 0 {
      WideStep(h - 1);
    }
  }

  lemma AwayRounds(m: nat)
    requires m <= INFINITY32
    ensures RoundsTiesAway(Value32(m), AwayMagnitude(m))
  {
    hide Shl, Shr, Low, Value32, Wide, RoundsTiesToEven, RoundsTiesAway;
    var exp, f := Exponent(m), Mantissa(m);
    if exp < -10 {
      AwayUnderflow(m);
    } else if exp <= 0 {
      var mant, shift: nat := f + 0x80_0000, 14 - exp;
      SubnormalBetween(m);
      HalfUp(mant, shift);
      GuardBits(m, Shr(mant, shift), shift, Low(mant, shift), exp + 111);
      AwayBetween(Value32(m), Shr(mant, shift), Low(mant, shift) >= Shl(1, shift - 1));
    } else if exp >= 31 {
      AwayOverflow(m);
    } else {
      NormalBetween(m);
      ShlSmall();
      NormalAway(m);
      GuardBits(m, exp * 1024 + Shr(f, 13), 13, Low(f, 13), exp + 111);
      AwayBetween(Value32(m), exp * 1024 + Shr(f, 13), Low(f, 13) >= 0x1000);
    }
  }

  lemma AwayUnderflow(m: nat)
    requires m < INFINITY32 && Exponent(m) < -10
    ensures RoundsTiesAway(Value32(m), 0)
  {
    Underflow(m);
  }

  lemma AwayOverflow(m: nat)
    requires m <= INFINITY32 && Exponent(m) >= 31
    ensures RoundsTiesAway(Value32(m), INFINITY16)
  {
    Overflow(m);
    hide Wide, Value32;
    WideStep(INFINITY16 - 1);
  }

  /** The carry out of a full mantissa is the next half in sequence. */
  lemma NormalAway(m: nat)
    requires m < 0x8000_0000 && 1 <= Exponent(m) <= 30
    ensures AwayMagnitude(m) == Exponent(m) * 1024 + Shr(Mantissa(m), 13) + if Low(Mantissa(m), 13) >= 0x1000 then 1
                                else 0
  {
    ShlSmall();
    var f := Mantissa(m);
    HalfUp(f, 13);
    ShrLow(f, 13);
    ShrLow(f + 0x1000, 13);
    if f + 0x1000 >= 0x80_0000 {
      ShrUnique(f + 0x1000, 13, 1024, f + 0x1000 - 0x80_0000);
    }
  }

  // ---------------------------------------------------------------------------------------------
  // Widening

  const WORD := 0x1_0000_0000

  /** Half to float32. Every finite half keeps its exact value, infinities and NaNs stay what they are. */
  method F16ToF32(u: uint16) returns (bits: uint32)
    ensures (bits >= 0x8000_0000) == (u >= 0x8000)
    ensures var h := u as int % 0x8000; var m := Magnitude32(bits);
                                        if h < INFINITY16 then m < INFINITY32 && Value32(m) == Wide(h)
                                        else if h == INFINITY16 then m == INFINITY32
                                        else m == INFINITY32 + (h - INFINITY16) * 8192
  {
    hide Value32, Wide, Magnitude32;
    var sign := if u >= 0x8000 then 0x8000_0000 else 0;
    var exp: int, mant: nat := u as int / 1024 % 32, u as int % 1024;
    HalfFields(u as int);
    if exp == 31 {
      Packed(sign, 255, mant * 8192);
      return (sign + INFINITY32 + mant * 8192) as uint32;
    }
    if exp == 0 {
      if mant == 0 {
        ZeroValue();
        Packed(sign, 0, 0);
        return sign as uint32;
      }
      exp, mant := Normalise(mant);
    } else {
      Widened(exp, mant);
    }
    var e := (exp + 112) % WORD;
    Packed(sign, e, mant * 8192);
    bits := (sign + e * 0x80_0000 + mant * 8192) as uint32;
  }

  /** Exponent and mantissa make up the magnitude of a half. */
  lemma HalfFields(u: nat)
    requires u < 0x1_0000
    ensures u % 0x8000 == u / 1024 % 32 * 1024 + u % 1024
  {
  }

  /** A sign and two fields laid side by side do not disturb each other. */
  lemma Packed(sign: nat, e: nat, f: nat)
    requires (sign == 0 || sign == 0x8000_0000) && e <= 255 && f < 0x80_0000
    ensures sign + e * 0x80_0000 + f < 0x1_0000_0000
    ensures Magnitude32((sign + e * 0x80_0000 + f) as uint32) == e * 0x80_0000 + f
    ensures (sign + e * 0x80_0000 + f >= 0x8000_0000) == (sign == 0x8000_0000)
  {
  }

  lemma ZeroValue()
    ensures Value32(0) == 0 == Wide(0)
  {
    ZeroWide(125);
  }

  /** Shifts a subnormal's leading one into place, counting down a wrapping 32-bit exponent. */
  method Normalise(h: nat) returns (exp: int, mant: nat)
    requires 0 < h < 1024
    ensures mant < 1024 && 103 <= (exp + 112) % WORD <= 113
    ensures var m := (exp + 112) % WORD * 0x80_0000 + mant * 8192; m < INFINITY32 && Value32(m) == Wide(h)
  {
    ShlSmall();
    hide Value32, Wide;
    exp, mant := 0, h;
    ghost var k: nat := 0;
    while mant < 1024
      invariant 0 < mant < 2048 && k <= 10 && (k > 0 <==> mant > h) && exp == if k == 0 then 0 else WORD - k
      invariant mant == Shl(h, k) && mant >= Shl(1, k)
      decreases 1024 - mant
    {
      ShlMore(1, k, 10);
      if k == 10 {
        assert false;
      }
      mant := mant * 2;
      exp := if exp == 0 then WORD - 1 else exp - 1;
      k := k + 1;
    }
    exp := if exp == WORD - 1 then 0 else exp + 1;
    mant := mant - 1024;
    Normalised(h, k, mant);
  }

  lemma Eight(a: nat)
    ensures Shl(a, 3) == 8 * a
  {
    assert Shl(a, 1) == 2 * a;
    assert Shl(a, 2) == 4 * a;
  }

  lemma Thirteen(a: nat)
    ensures Shl(a, 13) == 8192 * a
  {
    Eight(a);
    Eight(8 * a);
    Eight(64 * a);
    Eight(512 * a);
    ShlTwice(a, 3, 3);
    ShlTwice(a, 6, 3);
    ShlTwice(a, 9, 3);
  }

  lemma Widened(e: nat, f: nat)
    requires 1 <= e <= 30 && f < 1024
    ensures (e + 112) % WORD == e + 112
    ensures var m := (e + 112) * 0x80_0000 + f * 8192; m < INFINITY32 && Value32(m) == Wide(e * 1024 + f)
  {
    var m := (e + 112) * 0x80_0000 + f * 8192;
    assert m / 0x80_0000 == e + 112 && m % 0x80_0000 == f * 8192;
    Thirteen(1024 + f);
    Value16At(e, f);
    ShlTwice(1024 + f, 13, e + 111);
    ShlTwice(1024 + f, e - 1, 125);
  }

  lemma Normalised(h: nat, k: nat, f: nat)
    requires h < 1024 && k <= 10 && f < 1024 && 1024 + f == Shl(h, k)
    ensures var m := (113 - k) * 0x80_0000 + f * 8192; m < INFINITY32 && Value32(m) == Wide(h)
  {
    var m := (113 - k) * 0x80_0000 + f * 8192;
    assert m / 0x80_0000 == 113 - k && m % 0x80_0000 == f * 8192;
    Thirteen(1024 + f);
    ShlTwice(1024 + f, 13, 112 - k);
    ShlTwice(h, k, 125 - k);
    Value16At(0, h);
  }

  // ---------------------------------------------------------------------------------------------
  // Neighbour-search conversion

  /** Around a ties-away result, the even neighbour at the same distance is the rounded value. */
  lemma EvenNeighbour(v: nat, h: nat)
    requires RoundsTiesAway(v, h)
    ensures RoundsTiesToEven(v, EvenOf(v, h))
  {
    hide Wide;
    if h > 0 {
      WideStep(h - 1);
    }
    if v >= Wide(h) {
      if h < INFINITY16 {
        WideStep(h);
        RoundBetween(v, h);
      } else {
        RoundBeyond(v);
      }
    } else if h > 0 {
      RoundBetween(v, h - 1);
    } else {
      ZeroIsLeast(v);
    }
  }

  lemma ZeroIsLeast(v: nat)
    ensures Wide(0) <= v
  {
    ZeroWide(125);
  }

  /** The even neighbour at the same distance, if the ties-away result is odd. */
  function EvenOf(v: nat, h: nat): (r: nat)
    requires h <= INFINITY16
    ensures r <= INFINITY16
  {
    if h > 0 && Distance(v, Wide(h - 1)) == Distance(v, Wide(h)) && h % 2 != 0 then h - 1 else h
  }

  /** Rounding of a difference to float32, of which only this is used: it keeps the order and leaves float32
      values as they are. Every rounding direction of section 4.3 of IEEE 754-2019 does. */
  ghost predicate Rounding(round: int -> int) {
    && (forall a, b :: a <= b ==> round(a) <= round(b))
    && (forall p: nat :: p < INFINITY32 ==> round(Value32(p)) == Value32(p) && round(0 - Value32(p)) == 0 - Value32(p))
  }

  ghost predicate IsFloat(v: nat) {
    exists p: nat :: p < INFINITY32 && Value32(p) == v
  }

  lemma {:induction false} ShortIsFloat(d: nat, k: nat)
    requires d <= 0x100_0000 && k <= 252
    ensures IsFloat(Shl(d, k))
    decreases k
  {
    if d == 0x100_0000 {
      ShlTwice(0x80_0000, 1, k);
      assert Value32((k + 2) * 0x80_0000) == Shl(0x80_0000, k + 1);
    } else if d >= 0x80_0000 {
      var p := (k + 1) * 0x80_0000 + (d - 0x80_0000);
      assert p / 0x80_0000 == k + 1 && p % 0x80_0000 == d - 0x80_0000;
      assert Value32(p) == Shl(d, k);
    } else if k == 0 {
      assert Value32(d) == d;
    } else {
      ShlTwice(d, 1, k - 1);
      ShortIsFloat(2 * d, k - 1);
    }
  }

  /** Number of the bit by which half `h` and the next one differ, in float32 units. */
  function StepBit(h: nat): (j: nat)
    requires h < INFINITY16
    ensures 125 <= j <= 154
  {
    if h < 1024 then 125 else h / 1024 + 124
  }

  lemma WideGap(h: nat)
    requires h < INFINITY16
    ensures Wide(h + 1) == Wide(h) + Shl(1, StepBit(h)) && Shl(1, StepBit(h)) == 2 * Shl(1, StepBit(h) - 1)
  {
    if h < 1024 {
      Value16At(0, h);
      Value16At(0, h + 1);
      ShlAdd(h, 1, 125);
    } else {
      NormalWide(h / 1024, h % 1024);
    }
  }

  /** The distance to the ties-away result is a float32 value. */
  lemma NearIsFloat(m: nat)
    requires m < INFINITY32 && AwayMagnitude(m) < INFINITY16
    ensures IsFloat(Distance(Value32(m), Wide(AwayMagnitude(m))))
  {
    hide Shl, Shr, Low, Value32, Wide;
    var exp, f := Exponent(m), Mantissa(m);
    if exp < -10 {
      Underflow(m);
    } else if exp <= 0 {
      var mant, shift: nat := f + 0x80_0000, 14 - exp;
      SubnormalBetween(m);
      HalfUp(mant, shift);
      ShlSmall();
      ShlMore(1, shift, 24);
      RestIsFloat(m, Shr(mant, shift), shift, Low(mant, shift), exp + 111);
    } else {
      NormalBetween(m);
      NormalAway(m);
      ShlSmall();
      RestIsFloat(m, exp * 1024 + Shr(f, 13), 13, Low(f, 13), exp + 111);
    }
  }

  lemma RestIsFloat(m: nat, h: nat, shift: nat, rem: nat, k: nat)
    requires Between(m, h, shift, rem, k) && Shl(1, shift) <= 0x100_0000 && k <= 252
    ensures IsFloat(Distance(Value32(m), Wide(h))) && IsFloat(Distance(Value32(m), Wide(h + 1)))
  {
    hide Wide, Value32, IsFloat, Shl;
    ShlAdd(rem, Shl(1, shift) - rem, k);
    ShortIsFloat(rem, k);
    ShortIsFloat(Shl(1, shift) - rem, k);
  }

  /** Some power of two separates the distance to a ties-away result from that to a neighbour that is
      farther away. */
  lemma PowerBetween(v: nat, h: nat, c: nat)
    requires RoundsTiesAway(v, h) && h < INFINITY16 && c < INFINITY16 && (c == h + 1 || c == h - 1)
    requires Distance(v, Wide(c)) != Distance(v, Wide(h))
    ensures exists j: nat :: j <= 154 && Distance(v, Wide(h)) < Shl(1, j) <= Distance(v, Wide(c))
  {
    hide Wide, Shl;
    WideGap(h);
    if h > 0 {
      WideGap(h - 1);
      ShlMore(1, StepBit(h) - 1, StepBit(h - 1));
      ShlMore(1, StepBit(h - 1), StepBit(h));
    } else {
      ZeroIsLeast(v);
    }
    var half, j: nat := StepBit(h) - 1, if h > 0 then StepBit(h - 1) else 0;
    if v >= Wide(h) {
      assert Distance(v, Wide(h)) < Shl(1, half) <= Distance(v, Wide(c));
    } else if c == h + 1 {
      assert Distance(v, Wide(h)) < Shl(1, j) <= Distance(v, Wide(c));
    } else {
      assert Distance(v, Wide(h)) < Shl(1, j - 1) <= Distance(v, Wide(c));
    }
  }

  /** The distance between two magnitudes as computed, with a rounded subtraction. */
  function Measured(round: int -> int, a: int, b: int): nat {
    Distance(round(a - b), 0)
  }

  lemma MeasuredExact(round: int -> int, a: int, b: int)
    requires Rounding(round) && IsFloat(Distance(a, b))
    ensures Measured(round, a, b) == Distance(a, b)
  {
    hide Value32;
    var p: nat :| p < INFINITY32 && Value32(p) == Distance(a, b);
    assert round(Value32(p)) == Value32(p) && round(0 - Value32(p)) == 0 - Value32(p);
  }

  lemma MeasuredAtLeast(round: int -> int, a: int, b: int, v: nat)
    requires Rounding(round) && IsFloat(v) && v <= Distance(a, b)
    ensures Measured(round, a, b) >= v
  {
    hide Value32;
    var p: nat :| p < INFINITY32 && Value32(p) == v;
    assert round(Value32(p)) == Value32(p) && round(0 - Value32(p)) == 0 - Value32(p);
    if a >= b {
      assert round(v) <= round(a - b);
    } else {
      assert round(a - b) <= round(0 - v);
    }
  }

  /** Rounding the subtractions cannot mislead the search: a neighbour measures as near as the ties-away
      result exactly when it is as near, and never nearer. */
  lemma SearchCompares(round: int -> int, m: nat, c: nat)
    requires Rounding(round) && m < INFINITY32 && AwayMagnitude(m) < INFINITY16
    requires c < INFINITY16 && (c == AwayMagnitude(m) + 1 || c == AwayMagnitude(m) - 1)
    ensures var v, h := Value32(m), AwayMagnitude(m);
            && Measured(round, v, Wide(h)) <= Measured(round, v, Wide(c))
            && (Measured(round, v, Wide(c)) == Measured(round, v, Wide(h)) <==>
                c < h && Distance(v, Wide(c)) == Distance(v, Wide(h)))
  {
    var v, h := Value32(m), AwayMagnitude(m);
    AwayRounds(m);
    NearIsFloat(m);
    assert c > h ==> Distance(v, Wide(c)) > Distance(v, Wide(h));
    hide Value32, Wide, AwayMagnitude, RoundsTiesAway, IsFloat, Rounding, Measured, Shl;
    MeasuredExact(round, v, Wide(h));
    if Distance(v, Wide(c)) == Distance(v, Wide(h)) {
      MeasuredExact(round, v, Wide(c));
    } else {
      PowerBetween(v, h, c);
      var j: nat :| j <= 154 && Distance(v, Wide(h)) < Shl(1, j) <= Distance(v, Wide(c));
      ShortIsFloat(1, j);
      MeasuredAtLeast(round, v, Wide(c), Shl(1, j));
    }
  }

  /** Starts from the ties-away result and searches its two neighbours for a nearer or equally near even
      half, with subtractions rounded to float32 in whatever direction. For everything but NaN the result is
      roundTiesToEven of the magnitude under the same sign, and so has the bits of the guard-bit conversion. */
  method F32ToF16Even(round: int -> int, bits: uint32) returns (r: int)
    requires Rounding(round)
    ensures Sign16(bits) <= r < Sign16(bits) + 0x8000
    ensures !IsNaN(bits) ==> RoundsTiesToEven(Value32(Magnitude32(bits)), r - Sign16(bits))
    ensures !IsNaN(bits) ==> r == GgmlF32ToF16Even(bits)
    ensures IsNaN(bits) ==> r == F32ToF16(bits)
  {
    hide Rounding;
    var sign, m := Sign16(bits), Magnitude32(bits);
    assert Magnitude32(m as uint32) == m && Sign16(m as uint32) == 0;
    var h := F32ToF16(m as uint32);
    if m <= INFINITY32 {
      AwayRounds(m);
      Agree(m, h);
    }
    if m == INFINITY32 {
      Overflow(m);
    }
    hide Value32, Wide, AwayMagnitude, GgmlMagnitude, RoundsTiesToEven, RoundsTiesAway;
    if m >= INFINITY32 || h == INFINITY16 {
      return sign + h;
    }
    var best := Search(round, m, h);
    return sign + best;
  }

  method Search(round: int -> int, m: nat, h: nat) returns (best: nat)
    requires Rounding(round) && m < INFINITY32 && h == AwayMagnitude(m) < INFINITY16
    ensures best == EvenOf(Value32(m), h) < INFINITY16
  {
    hide Value32, Wide, AwayMagnitude, Rounding, Measured, Magnitude32, Distance;
    ghost var near := Measured(round, Value32(m), Wide(h));
    var center := F16ToF32(h as uint16);
    var distance;
    best, distance := h, Measured(round, Value32(m), Value32(Magnitude32(center)));
    for i := 0 to 2
      invariant 0 <= best < INFINITY16 && distance == near
      invariant best == if i == 0 then h else EvenOf(Value32(m), h)
    {
      var candidate := h + if i == 0 then -1 else 1;
      if 0 <= candidate < INFINITY16 {
        SearchCompares(round, m, candidate);
        var wide := F16ToF32(candidate as uint16);
        var d := Measured(round, Value32(m), Value32(Magnitude32(wide)));
        if d < distance || (d == distance && candidate % 2 == 0) {
          best, distance := candidate, d;
        }
      }
    }
  }

  /** Both round-to-even results coincide. */
  lemma Agree(m: nat, h: nat)
    requires m <= INFINITY32 && RoundsTiesAway(Value32(m), h)
    ensures RoundsTiesToEven(Value32(m), EvenOf(Value32(m), h)) && GgmlMagnitude(m) == EvenOf(Value32(m), h)
    ensures h == INFINITY16 ==> EvenOf(Value32(m), h) == h
  {
    EvenNeighbour(Value32(m), h);
    GgmlRounds(m);
    hide Value32, Wide, GgmlMagnitude, RoundsTiesToEven, RoundsTiesAway;
    RoundingUnique(Value32(m), GgmlMagnitude(m), EvenOf(Value32(m), h));
  }

  /** NaN is the one disagreement: the guard-bit conversion, which does not look for it, makes an infinity. */
  lemma DisagreeOnNaN(bits: uint32)
    ensures IsNaN(bits) <==> F32ToF16(bits) - Sign16(bits) > INFINITY16
    ensures IsNaN(bits) ==> GgmlF32ToF16Even(bits) == Sign16(bits) + INFINITY16 != F32ToF16(bits)
  {
    assert Magnitude32(bits) > INFINITY32 ==> Exponent(Magnitude32(bits)) >= 31;
  }

  // ---------------------------------------------------------------------------------------------
  // bfloat16

  /** The upper half of the pattern, rounded by adding just under half a step plus the last kept bit. */
  function F32ToBF16(bits: uint32): (r: int)
    ensures 0 <= r <= 0x1_0000
  {
    if IsNaN(bits) then QuietBF16(bits as int / 0x1_0000)
    else (bits as int + 0x7fff + bits as int / 0x1_0000 % 2) / 0x1_0000
  }

  /** Sets the quiet bit. */
  function QuietBF16(b: nat): (q: nat)
    ensures b < 0x1_0000 ==> q < 0x1_0000
  {
    if b / 0x40 % 2 == 0 then b + 0x40 else b
  }

  lemma Bf16Value(e: nat, f: nat)
    requires f <= 0x80_0000 && e <= 254
    ensures Value32(e * 0x80_0000 + f) == if e == 0 then f else Shl(0x80_0000 + f, e - 1)
  {
    var m := e * 0x80_0000 + f;
    if f == 0x80_0000 {
      assert m / 0x80_0000 == e + 1 && m % 0x80_0000 == 0;
      if e > 0 {
        ShlTwice(0x80_0000, 1, e - 1);
      }
    } else {
      assert m / 0x80_0000 == e && m % 0x80_0000 == f;
    }
  }

  /** A distance within the binade of `m`, counted in its own units. */
  function InBinade(m: nat, units: nat): nat {
    var e := m / 0x80_0000;
    if e == 0 then units else Shl(units, e - 1)
  }

  /** The dropped bits are the low part of the mantissa. */
  lemma Bf16Fields(m: nat)
    requires m < INFINITY32
    ensures m / 0x80_0000 <= 254 && m % 0x1_0000 <= m % 0x80_0000
    ensures m % 0x80_0000 - m % 0x1_0000 + 0x1_0000 <= 0x80_0000
    ensures m / 0x1_0000 * 0x1_0000 == m / 0x80_0000 * 0x80_0000 + (m % 0x80_0000 - m % 0x1_0000)
  {
  }

  lemma Bf16Bracket(m: nat)
    requires m < INFINITY32
    ensures var h, low := m / 0x1_0000, m % 0x1_0000;
            && Value32(m) == Value32(h * 0x1_0000) + InBinade(m, low)
            && Value32((h + 1) * 0x1_0000) == Value32(m) + InBinade(m, 0x1_0000 - low)
  {
    hide Value32;
    Bf16Fields(m);
    var h, low, e: nat, f := m / 0x1_0000, m % 0x1_0000, m / 0x80_0000, m % 0x80_0000;
    var f0 := f - low;
    Bf16Value(e, f0);
    Bf16Value(e, f);
    Bf16Value(e, f0 + 0x1_0000);
    assert m == e * 0x80_0000 + f && (h + 1) * 0x1_0000 == e * 0x80_0000 + (f0 + 0x1_0000);
    if e > 0 {
      ShlAdd(0x80_0000 + f0, low, e - 1);
      ShlAdd(0x80_0000 + f, 0x1_0000 - low, e - 1);
    }
  }

  lemma Bf16Pick(m: nat)
    requires m < INFINITY32
    ensures var h, low := m / 0x1_0000, m % 0x1_0000; F32ToBF16(m as uint32) == Nearer(low, 0x1_0000 - low, h)
  {
  }

  /** Truncation to 16 bits and its successor bracket the value, and the conversion picks the nearer one,
      an even pattern on a tie; past the largest finite value that is infinity. */
  lemma Bf16Rounds(m: nat)
    requires m < INFINITY32
    ensures var h := m / 0x1_0000;
            var r := F32ToBF16(m as uint32);
            && Value32(h * 0x1_0000) <= Value32(m) < Value32((h + 1) * 0x1_0000)
            && r == Nearer(Value32(m) - Value32(h * 0x1_0000), Value32((h + 1) * 0x1_0000) - Value32(m), h)
  {
    Bf16Bracket(m);
    Bf16Pick(m);
    hide Value32, F32ToBF16;
    var low, e := m % 0x1_0000, m / 0x80_0000;
    if e > 0 {
      ShlOrder(low, 0x1_0000 - low, e - 1);
      ShlOrder(0x1_0000 - low, low, e - 1);
      ShlOrder(0, 0x1_0000 - low, e - 1);
    }
  }

  /** Every conversion to sixteen bits treats a negated pattern as the positive one with the sign bit set. */
  lemma SignKept(m: nat)
    requires m < 0x8000_0000
    ensures var plus, minus := m as uint32, (m + 0x8000_0000) as uint32;
            && F32ToF16(plus) < 0x8000 && F32ToF16(minus) == F32ToF16(plus) + 0x8000
            && GgmlF32ToF16Even(plus) < 0x8000 && GgmlF32ToF16Even(minus) == GgmlF32ToF16Even(plus) + 0x8000
            && F32ToBF16(plus) < 0x8000 && F32ToBF16(minus) == F32ToBF16(plus) + 0x8000
  {
    var plus, minus := m as uint32, (m + 0x8000_0000) as uint32;
    assert Magnitude32(plus) == Magnitude32(minus) == m;
    hide GgmlMagnitude, AwayMagnitude, NaN16;
    UpperHalf(m);
  }

  lemma UpperHalf(n: nat)
    requires n < 0x8000_0000
    ensures (n + 0x8000_0000) / 0x1_0000 == n / 0x1_0000 + 0x8000 && n / 0x1_0000 < 0x8000
    ensures (n + 0x8000_0000) / 0x1_0000 % 2 == n / 0x1_0000 % 2
    ensures (n / 0x1_0000 + 0x8000) / 0x40 % 2 == n / 0x1_0000 / 0x40 % 2
  {
  }

  lemma QuietHalf(m: nat)
    requires INFINITY32 < m < 0x8000_0000
    ensures NaN16(m) / 0x200 % 2 == 1 && NaN16(m) - INFINITY16 - (m - INFINITY32) / 0x2000 in {0, 0x200}
  {
    assert Mantissa(m) == m - INFINITY32;
  }

  lemma QuietBrain(b: nat)
    requires 0x7f80 <= b < 0x8000
    ensures var q := QuietBF16(b); q > 0x7f80 && q / 0x40 % 2 == 1 && q - b in {0, 0x40}
  {
  }

  lemma FiniteBrain(m: nat)
    requires m <= INFINITY32
    ensures F32ToBF16(m as uint32) <= 0x7f80
  {
    assert m / 0x1_0000 % 2 <= 1;
    if m < INFINITY32 {
      assert m + 0x8000 < 0x7f81 * 0x1_0000;
    }
  }

  lemma NaNHalf(m: nat)
    requires m < 0x8000_0000
    ensures F32ToF16(m as uint32) == if m > INFINITY32 then NaN16(m) else AwayMagnitude(m)
  {
  }

  /** A NaN stays one: it keeps the payload bits there is room for and its quiet bit is set. Nothing else
      becomes a NaN. */
  lemma NaNKept(m: nat)
    requires m < 0x8000_0000
    ensures var h, b := F32ToF16(m as uint32), F32ToBF16(m as uint32);
            && (h > INFINITY16 <==> m > INFINITY32) && (b > 0x7f80 <==> m > INFINITY32)
            && (m > INFINITY32 ==>
                  && h / 0x200 % 2 == 1 && h - INFINITY16 - (m - INFINITY32) / 0x2000 in {0, 0x200}
                  && b / 0x40 % 2 == 1 && b - m / 0x1_0000 in {0, 0x40})
  {
    NaNHalf(m);
    if m > INFINITY32 {
      QuietHalf(m);
      QuietBrain(m / 0x1_0000);
      assert F32ToBF16(m as uint32) == QuietBF16(m / 0x1_0000);
    } else {
      FiniteBrain(m);
    }
    hide AwayMagnitude, NaN16, F32ToBF16, QuietBF16, F32ToF16;
  }
}
