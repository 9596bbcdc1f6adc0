/** Small definitions every component shares. */
module Common {
  datatype Option<+T> = None | Some(value: T)

  datatype Result<+T> = Ok(value: T) | Err(message: string)

  function Lookup<K, V>(m: map<K, V>, k: K): Option<V> {
    if k in m then Some(m[k]) else None
  }

  function Min(a: int, b: int): int { if a < b then a else b }

  // Go's int64.

  const TWO_63: int := 0x8000_0000_0000_0000
  const TWO_64: int := 0x1_0000_0000_0000_0000

  predicate InInt64(x: int) {
    -TWO_63 <= x < TWO_63
  }

  type Int64 = x: int | -TWO_63 <= x < TWO_63

  /** What is left of x after an int64 operation. */
  function Wrap64(x: int): (r: Int64)
    ensures InInt64(x) ==> r == x
    ensures (x - r) % TWO_64 == 0
  {
    (x + TWO_63) % TWO_64 - TWO_63
  }

  /** Go's integer division: the quotient is truncated toward zero. */
  function TruncDiv(a: int, b: int): (q: int)
    requires b != 0
    ensures a == q * b + TruncRem(a, b)
  {
    if a >= 0 then a / b else -((-a) / b)
  }

  function TruncRem(a: int, b: int): (r: int)
    requires b != 0
  {
    if a >= 0 then a % b else -((-a) % b)
  }

  /** What truncation toward zero means: the largest multiple of b that is no further from zero than a. */
  lemma TruncTowardZero(a: int, b: int)
    requires 0 < b
    ensures a >= 0 ==> TruncDiv(a, b) * b <= a < (TruncDiv(a, b) + 1) * b
    ensures a < 0 ==> (TruncDiv(a, b) - 1) * b < a <= TruncDiv(a, b) * b
    ensures a >= 0 ==> 0 <= TruncRem(a, b) < b
    ensures a < 0 ==> -b < TruncRem(a, b) <= 0
  {
    QuotientBrackets(if a >= 0 then a else -a, b);
    var n := if a >= 0 then a / b else (-a) / b;
    assert (n + 1) * b == n * b + b;
    assert (-n - 1) * b == -(n * b) - b;
  }

  // Facts about products and quotients that the solver should not have to search for.

  lemma MulLe(a: int, b: int, c: int)
    requires 0 <= a && 0 <= b <= c
    ensures 0 <= a * b <= a * c
  {
    assert a * (c - b) >= 0;
  }

  lemma PositiveFactor(x: int, b: int)
    requires 0 < b && 0 < x * b
    ensures 0 < x
  {
  }

  lemma QuotientBrackets(a: int, b: int)
    requires 0 < b
    ensures (a / b) * b <= a < (a / b + 1) * b
  {
    var q := a / b;
    assert a == q * b + a % b;
    assert (q + 1) * b == q * b + b;
  }

  lemma QuotientBounds(a: int, b: int)
    requires 0 <= a && 0 < b
    ensures 0 <= a / b <= a
  {
    QuotientBrackets(a, b);
    PositiveFactor(a / b + 1, b);
    MulLe(a / b, 1, b);
  }

  lemma QuotientAtLeast(a: int, b: int, k: int)
    requires 0 < b && k * b <= a
    ensures k <= a / b
  {
    QuotientBrackets(a, b);
    assert (a / b + 1 - k) * b == (a / b + 1) * b - k * b;
    PositiveFactor(a / b + 1 - k, b);
  }
}
