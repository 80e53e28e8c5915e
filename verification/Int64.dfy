/** Signed 64-bit arithmetic as the engine's Go code performs it: two's complement wrap-around on
    overflow, division that truncates toward zero, a floored remainder, and the saturating
    helpers built on top of them, of which the runtime and the operators have one each. */
module Int64 {

  const TWO_63: int := 0x8000_0000_0000_0000
  const TWO_64: int := 0x1_0000_0000_0000_0000
  const MIN_INT64: int := -TWO_63
  const MAX_INT64: int := TWO_63 - 1

  type int64 = x: int | MIN_INT64 <= x <= MAX_INT64

  function Min(a: int, b: int): int { if a <= b then a else b }

  function Max(a: int, b: int): int { if a >= b then a else b }

  /** The int64 that is congruent to `x` modulo two to the 64. */
  function Wrap(x: int): (r: int64)
    ensures MIN_INT64 <= x <= MAX_INT64 ==> r == x
    ensures (r - x) % TWO_64 == 0
  {
    var m := x % TWO_64;
    if m >= TWO_63 then m - TWO_64 else m
  }

  /** Two's complement reading of an int64 as an unsigned 64-bit number. */
  function ToUint64(x: int64): (u: int)
    ensures 0 <= u < TWO_64 && Wrap(u) == x
  {
    if x < 0 then x + TWO_64 else x
  }

  /** The two readings are inverse. */
  lemma {:induction false} WrapInverse(u: nat)
    requires u < TWO_64
    ensures ToUint64(Wrap(u)) == u
  {}

  /** Go's truncated division, for a positive divisor. */
  function TruncDiv(a: int, b: int): int
    requires b > 0
  {
    if a >= 0 then a / b else -((-a) / b)
  }

  /** Go's truncated remainder, for a positive divisor. */
  function TruncMod(a: int, b: int): int
    requires b > 0
  {
    a - b * TruncDiv(a, b)
  }

  /** The runtime's subtraction: it detects a wrap by comparing the wrapped result with an
      operand. The contract is what that test achieves, clamping at both ends. */
  function SubClamp(a: int64, b: int64): (d: int64)
    ensures d == Max(MIN_INT64, Min(MAX_INT64, a - b))
  {
    var d := Wrap(a - b);
    if b < 0 && d < a then MAX_INT64
    else if b > 0 && d > a then MIN_INT64
    else d
  }

  /** The window operators' subtraction, which only ever subtracts a non-negative amount and
      clamps at the bottom alone. */
  function SubFloor(a: int64, b: int64): (d: int64)
    requires b >= 0
    ensures d == Max(MIN_INT64, a - b)
  {
    var d := Wrap(a - b);
    if b > 0 && d > a then MIN_INT64 else d
  }

  /** Addition of a non-negative amount, clamped at the top. */
  function AddCeil(a: int64, b: int64): (s: int64)
    requires b >= 0
    ensures s == Min(MAX_INT64, a + b)
  {
    var s := Wrap(a + b);
    if b > 0 && s < a then MAX_INT64 else s
  }

  /** Floored remainder computed from Go's truncated one. */
  function FloorMod(a: int64, b: int64): (m: int64)
    requires b > 0
    ensures 0 <= m < b && (a - m) % b == 0
  {
    FloorModIsEuclidean(a, b);
    var m := TruncMod(a, b);
    if m < 0 then m + b else m
  }

  lemma {:induction false} FloorModIsEuclidean(a: int, b: int)
    requires b > 0
    ensures (if TruncMod(a, b) < 0 then TruncMod(a, b) + b else TruncMod(a, b)) == a % b
    ensures (a - a % b) % b == 0
  {
    if a >= 0 {
      assert TruncMod(a, b) == a % b;
    } else {
      var q, r := (-a) / b, (-a) % b;
      assert -a == b * q + r;
      assert TruncMod(a, b) == -r;
      if r == 0 {
        ModuloUnique(a, b, -q, 0);
      } else {
        assert b * (-q - 1) == -(b * q) - b;
        ModuloUnique(a, b, -q - 1, b - r);
      }
    }
    ModuloUnique(a - a % b, b, a / b, 0);
  }

  /** Quotient and remainder are unique. */
  lemma {:induction false} ModuloUnique(a: int, b: int, q: int, r: int)
    requires 0 <= r < b && a == b * q + r
    ensures a / b == q && a % b == r
  {
    var d := a / b - q;
    assert b * d == r - a % b by {
      assert a == b * (a / b) + a % b;
      assert b * d == b * (a / b) - b * q;
    }
    assert d >= 1 ==> b * d >= b;
    assert d <= -1 ==> b * d <= -b;
  }

  lemma {:induction false} MulMonotone(a: int, b: int, c: int)
    requires a <= b && 0 <= c
    ensures a * c <= b * c
  {
    assert (b - a) * c >= 0;
    assert b * c == a * c + (b - a) * c;
  }
}
