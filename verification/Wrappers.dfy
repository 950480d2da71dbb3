/** Values for missing results, error returns and machine-integer limits. */
module Wrappers {
  datatype Option<+T> = None | Some(value: T)

  datatype Result<+T> = Ok(value: T) | Err

  /** The largest 64-bit signed integer. */
  const MAX_INT := 0x7fff_ffff_ffff_ffff

  function Min(a: int, b: int): int {
    if a < b then a else b
  }

  /** The sum of two non-negative integers, unless it overflows. */
  function CheckedAdd(a: int, b: int): Option<int> {
    if a < 0 || b < 0 || a > MAX_INT - b then None else Some(a + b)
  }

  /** The product of two non-negative integers, unless it overflows. */
  function CheckedProduct(a: int, b: int): Option<int> {
    if a < 0 || b < 0 || (b != 0 && a > MAX_INT / b) then None else Some(a * b)
  }

  /** Euclidean division is unique. */
  lemma QuotientUnique(n: int, s: int, q: int, r: int)
    requires s > 0 && n == q * s + r && 0 <= r < s
    ensures n / s == q
  {
    var q', r' := n / s, n % s;
    assert n == q' * s + r';
    if q' > q {
      AtLeast(q' - q, s);
    } else if q' < q {
      AtLeast(q - q', s);
    }
  }

  lemma AtLeast(d: int, s: int)
    requires d >= 1 && s > 0
    ensures d * s >= s
  {
  }
}
