/** Fixed-width arithmetic of the C sources, written out over unbounded integers. */
module Machine {
  const TWO_31: int := 0x8000_0000
  const TWO_32: int := 0x1_0000_0000
  const TWO_64: int := 0x1_0000_0000_0000_0000

  /** The value a C `int` holds after `x` is converted to 32 bits. */
  function Int32(x: int): (r: int)
    ensures -TWO_31 <= r < TWO_31
    ensures -TWO_31 <= x < TWO_31 ==> r == x
  {
    var low := x % TWO_32;
    if low < TWO_31 then low else low - TWO_32
  }

  /** Adding before or after the conversion to 32 bits gives the same int. */
  lemma Int32Add(x: int, y: int)
    ensures Int32(Int32(x) + y) == Int32(x + y)
  {
    var q := x / TWO_32;
    assert Int32(x) == x - TWO_32 * q || Int32(x) == x - TWO_32 * (q + 1);
    var k := if Int32(x) == x - TWO_32 * q then q else q + 1;
    assert (Int32(x) + y) % TWO_32 == (x + y) % TWO_32 by {
      assert Int32(x) + y == (x + y) - TWO_32 * k;
    }
  }

  /** Subtracting two wrapped 64-bit clock values gives the wrapped difference. */
  lemma WrappedDifference(a: int, b: int)
    ensures (b % TWO_64 - a % TWO_64) % TWO_64 == (b - a) % TWO_64
  {
    var k := b / TWO_64 - a / TWO_64;
    assert b % TWO_64 - a % TWO_64 == (b - a) - TWO_64 * k;
  }

  lemma Unwrapped(x: nat)
    requires x < TWO_64
    ensures x % TWO_64 == x
  {
  }

  function Abs(x: int): nat {
    if x < 0 then -x else x
  }

  function Signed(negative: bool, q: int): int {
    if negative then -q else q
  }

  /** C's integer division, which truncates toward zero. */
  function TruncDiv(a: int, b: int): int
    requires b != 0
  {
    Signed((a < 0) != (b < 0), Abs(a) / Abs(b))
  }

  lemma CancelFactor(a: int, b: int, n: int)
    requires n > 0 && a * n < b * n
    ensures a < b
  {
  }
}
