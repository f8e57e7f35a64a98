/**
 * The 32-bit signed integers of C#: the range, the unchecked wrap-around of
 * `+`, `-` and `*`, and the division `/`, which truncates toward zero.
 */
module Int32 {

  const Int32Min: int := -0x8000_0000
  const Int32Max: int := 0x7FFF_FFFF
  const TwoTo32: int := 0x1_0000_0000

  type int32 = x: int | -0x8000_0000 <= x < 0x8000_0000

  /** The value C# computes for an `int` expression whose exact value is `x` (unchecked context). */
  function Wrap32(x: int): (r: int32)
    ensures Int32Min <= x <= Int32Max ==> r == x
    ensures (r - x) % TwoTo32 == 0
  {
    (x - Int32Min) % TwoTo32 + Int32Min
  }

  /** C#'s integer division: the quotient rounded toward zero. */
  function TruncDiv(a: int, b: int): (q: int)
    requires b > 0
    ensures a >= 0 ==> 0 <= q <= a && q * b <= a < q * b + b
    ensures a < 0 ==> a <= q <= 0 && q * b - b < a <= q * b
  {
    if a >= 0 then DivBound(a, b); a / b else DivBound(-a, b); NegDiv(a, b); -((-a) / b)
  }

  /** For a negative dividend, the negated quotient of its magnitude is rounded up. */
  lemma NegDiv(a: int, b: int)
    requires a < 0 && b > 0
    ensures var q := -((-a) / b); q * b - b < a <= q * b
  {
    var p := (-a) / b;
    var r := (-a) % b;
    assert p * b + r == -a && 0 <= r < b;
    assert (-p) * b == -(p * b);
  }

  /** Dividing a natural number by a positive one does not make it larger. */
  lemma DivBound(a: nat, b: int)
    requires b > 0
    ensures 0 <= a / b <= a
  {
    var q := a / b;
    assert q * b + a % b == a;
    assert q >= 0;
    MulMono(q, b);
  }

  lemma {:induction false} MulMono(q: nat, b: int)
    requires b >= 1
    ensures q <= q * b
    decreases q
  {
    if q > 0 {
      MulMono(q - 1, b);
      assert q * b == (q - 1) * b + b;
    }
  }

  function Min(a: int, b: int): int { if a <= b then a else b }

  function Max(a: int, b: int): int { if a >= b then a else b }
}
