/** Integer helpers shared by the launcher model: the `Math.min`/`Math.max`
    clamping idiom the paging code uses everywhere, and Java's integer
    division, which truncates toward zero where Dafny's is Euclidean. */
module JavaInt {

  const INT_MAX: int := 0x7fff_ffff

  /** A value that may be absent: a Java `null`, or a result the source
      cannot produce because it would throw. */
  datatype Option<T> = None | Some(value: T)

  function Min(a: int, b: int): int { if a <= b then a else b }

  function Max(a: int, b: int): int { if a >= b then a else b }

  /** `Math.max(lo, Math.min(x, hi))`: the clamp the source writes out at every call site. */
  function Clamp(x: int, lo: int, hi: int): (r: int)
    requires lo <= hi
    ensures lo <= r <= hi
    ensures lo <= x <= hi ==> r == x
    ensures x < lo ==> r == lo
    ensures x > hi ==> r == hi
  {
    Max(lo, Min(x, hi))
  }

  function Abs(x: int): nat { if x < 0 then -x else x }

  /** `Math.signum` of an int, as -1, 0 or 1. */
  function Sign(x: int): int { if x < 0 then -1 else if x == 0 then 0 else 1 }

  /** Java's `a / b` on ints for a positive divisor: rounds toward zero. */
  function JavaDiv(a: int, b: int): (q: int)
    requires b > 0
    ensures a >= 0 ==> q == a / b
    ensures a >= 0 ==> q * b <= a < q * b + b
    ensures a < 0 ==> q <= 0 && q * b - b < a <= q * b
    ensures Abs(q) * b <= Abs(a)
  {
    if a >= 0 then a / b else -((-a) / b)
  }
}
