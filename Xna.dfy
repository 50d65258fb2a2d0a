/** The framework value types the core computes with: C# integer division, XNA's `Rectangle`
    and `Vector2`, and `TimeSpan` as a count of 100-nanosecond ticks. */
module Xna {

  /** The quotient of two naturals, as a natural. */
  function Quot(n: nat, d: nat): nat
    requires d > 0
  {
    n / d
  }

  /** C#'s `/` on `int`: the quotient truncated toward zero (Dafny's own `/` is Euclidean). */
  function Div(a: int, b: int): (q: int)
    requires b != 0
    ensures a >= 0 && b > 0 ==> q == a / b
    ensures (a < 0) == (b < 0) ==> q >= 0
    ensures (a < 0) != (b < 0) ==> q <= 0
  {
    if a >= 0 && b > 0 then Quot(a, b)
    else if a < 0 && b > 0 then 0 - (Quot(-a, b) as int)
    else if a >= 0 then 0 - (Quot(a, -b) as int)
    else Quot(-a, -b)
  }

  /** Truncation is symmetric: `(-a) / b == -(a / b)`, so `-w / 2` mirrors `w / 2`. */
  lemma DivNegate(a: int, b: int)
    requires b != 0
    ensures Div(-a, b) == -Div(a, b)
  {
  }

  /** For a non-negative dividend and a positive divisor the truncated quotient times the
      divisor stays within the dividend and loses less than one divisor. */
  lemma DivBounds(a: int, b: int)
    requires a >= 0 && b > 0
    ensures 0 <= Div(a, b) * b <= a < Div(a, b) * b + b
  {
    var q := a / b;
    assert a == q * b + a % b;
  }

  lemma MulAtLeast(k: int, c: int)
    requires k >= 1 && c > 0
    ensures k * c >= c
  {
    assert k * c == (k - 1) * c + c;
    assert (k - 1) * c >= 0;
  }

  /** Quotient and remainder are unique. */
  lemma ModUnique(a: int, c: int, q: int, r: int)
    requires 0 <= r < c && a == q * c + r
    ensures a % c == r && a / c == q
  {
    var q', r' := a / c, a % c;
    assert a == q' * c + r';
    assert (q - q') * c == r' - r;
    if q > q' {
      MulAtLeast(q - q', c);
    } else if q < q' {
      MulAtLeast(q' - q, c);
    }
  }

  /** Counting up by one modulo `c`. */
  lemma ModSucc(a: int, c: int)
    requires c > 0
    ensures (a + 1) % c == if a % c + 1 < c then a % c + 1 else 0
  {
    var q, r := a / c, a % c;
    if r + 1 < c {
      ModUnique(a + 1, c, q, r + 1);
    } else {
      ModUnique(a + 1, c, q + 1, 0);
    }
  }

  /** Counting down by one modulo `c`. */
  lemma ModPred(a: int, c: int)
    requires c > 0
    ensures (a - 1) % c == if a % c > 0 then a % c - 1 else c - 1
  {
    var q, r := a / c, a % c;
    if r > 0 {
      ModUnique(a - 1, c, q, r - 1);
    } else {
      ModUnique(a - 1, c, q - 1, c - 1);
    }
  }

  /** Microsoft.Xna.Framework.Rectangle: integer position and size. */
  datatype Rectangle = Rectangle(x: int, y: int, width: int, height: int) {
    function Left(): int { x }
    function Top(): int { y }
    function Right(): int { x + width }
    function Bottom(): int { y + height }
  }

  /** Microsoft.Xna.Framework.Vector2, over the reals. */
  datatype Vec2 = Vec2(x: real, y: real) {
    function Plus(v: Vec2): Vec2 { Vec2(x + v.x, y + v.y) }
    function Minus(v: Vec2): Vec2 { Vec2(x - v.x, y - v.y) }
    function Times(k: real): Vec2 { Vec2(x * k, y * k) }
    function LengthSquared(): real { x * x + y * y }
  }

  const Zero2: Vec2 := Vec2(0.0, 0.0)

  /** Vec2 built from two ints, as `new Vector2(a, b)` does with int arguments. */
  function FromInts(a: int, b: int): Vec2
  {
    Vec2(a as real, b as real)
  }

  /** TimeSpan.TicksPerSecond */
  const TicksPerSecond: int := 10_000_000
  /** TimeSpan.Zero */
  const ZeroTicks: int := 0

  /** `TimeSpan.FromSeconds(v)` for the constants the core uses. .NET rounds the argument to
      whole milliseconds, so `FromSeconds(0.1f)` is exactly 100 ms although 0.1f is not 0.1. */
  function MillisecondsToTicks(ms: int): int
  {
    ms * 10_000
  }
}
