/** Unsigned fixed-width arithmetic: 16-bit sequence numbers and 32-bit Q16 clocks,
    both of which wrap around. */
module Serial {

  type byte = x: int | 0 <= x < 256
  type uint16 = x: int | 0 <= x < 65536
  type uint32 = x: int | 0 <= x < 4294967296

  function Wrap16(x: int): uint16 { x % 65536 }

  function Wrap32(x: int): uint32 { x % 4294967296 }

  /** Unsigned 16-bit subtraction. */
  function Sub16(a: int, b: int): uint16 { Wrap16(a - b) }

  /** Unsigned 32-bit subtraction. */
  function Sub32(a: int, b: int): uint32 { Wrap32(a - b) }

  function Min(a: int, b: int): int { if a <= b then a else b }

  function Max(a: int, b: int): int { if a <= b then b else a }

  function MinReal(a: real, b: real): real { if a <= b then a else b }

  function MaxReal(a: real, b: real): real { if a <= b then b else a }

  /** Conversion of a floating-point value to an int: toward zero. */
  function Truncate(x: real): int { if x >= 0.0 then x.Floor else -(-x).Floor }

  lemma Turns16(x: int, m: int)
    ensures Wrap16(x + 65536 * m) == Wrap16(x)
  {
  }

  /** Wrapping before a subtraction makes no difference. */
  lemma WrapThenSub16(a: int, b: int)
    ensures Sub16(Wrap16(a), b) == Wrap16(a - b)
  {
    var q: int := a / 65536;
    assert a % 65536 - b == a - b + 65536 * (-q);
    Turns16(a - b, -q);
  }

  lemma WrapThenAdd16(a: int, b: int)
    ensures Wrap16(Wrap16(a) + b) == Wrap16(a + b)
  {
    WrapThenSub16(a, -b);
  }

  lemma QuotientIff(a: real, d: real, x: real)
    requires d > 0.0
    ensures a / d < x <==> a < x * d
    ensures a / d > x <==> a > x * d
    ensures a / d * d == a
  {
    var q := a / d;
    assert q * d == a && (x - q) * d == x * d - a;
    if q < x {
      assert (x - q) * d > 0.0;
    } else if q > x {
      assert (q - x) * d > 0.0;
      assert (q - x) * d == a - x * d;
    }
  }
}
