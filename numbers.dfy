/** Kotlin `Int` arithmetic and decimal rendering of non-negative numbers. */
module Numbers {

  const TwoTo31: int := 0x8000_0000
  const TwoTo32: int := 0x1_0000_0000

  /** Values of Kotlin's 32-bit `Int`. */
  type Int32 = x: int | -TwoTo31 <= x < TwoTo31

  /** Two's-complement wrap-around of an unbounded integer into `Int`
      (what `Long.toInt()`, `++`, `--` and `+` on `Int` do). */
  function Wrap32(x: int): (r: Int32)
    ensures (r - x) % TwoTo32 == 0
    ensures -TwoTo31 <= x < TwoTo31 ==> r == x
  {
    var m := (x + TwoTo31) % TwoTo32;
    assert x + TwoTo31 == TwoTo32 * ((x + TwoTo31) / TwoTo32) + m;
    m - TwoTo31
  }

  /** Two integers that differ by a multiple of 2^32 wrap to the same `Int`. */
  lemma {:induction false} WrapCongruent(x: int, y: int)
    requires (x - y) % TwoTo32 == 0
    ensures Wrap32(x) == Wrap32(y)
  {
    var k := (x - y) / TwoTo32;
    assert x == y + TwoTo32 * k;
    var qx := (x + TwoTo31) / TwoTo32;
    var qy := (y + TwoTo31) / TwoTo32;
    var mx := (x + TwoTo31) % TwoTo32;
    var my := (y + TwoTo31) % TwoTo32;
    assert x + TwoTo31 == TwoTo32 * qx + mx;
    assert y + TwoTo31 == TwoTo32 * qy + my;
    assert mx - my == TwoTo32 * (qy + k - qx);
    assert 0 <= mx < TwoTo32 && 0 <= my < TwoTo32;
    assert qy + k - qx == 0;
  }

  /** Wrapping an intermediate result does not change a wrapped sum. */
  lemma WrapAddLeft(a: int, b: int)
    ensures Wrap32(Wrap32(a) + b) == Wrap32(a + b)
  {
    WrapCongruent(Wrap32(a) + b, a + b);
  }

  function DigitChar(d: nat): (c: char)
    requires d < 10
    ensures '0' <= c <= '9'
  {
    "0123456789"[d]
  }

  predicate IsDigit(c: char) {
    '0' <= c <= '9'
  }

  predicate AllDigits(s: string) {
    forall i :: 0 <= i < |s| ==> IsDigit(s[i])
  }

  /** The decimal text of a non-negative number, as `toString()` prints it. */
  function NatToString(n: nat): (s: string)
    ensures |s| >= 1 && AllDigits(s)
    ensures n < 10 <==> |s| == 1
    ensures s[0] == '0' <==> n == 0
    decreases n
  {
    if n < 10 then [DigitChar(n)] else NatToString(n / 10) + [DigitChar(n % 10)]
  }

  /** The value of a string of decimal digits. */
  function DecimalValue(s: string): nat
    requires AllDigits(s)
  {
    if s == [] then 0
    else DecimalValue(s[..|s| - 1]) * 10 + (s[|s| - 1] as int - '0' as int)
  }

  /** Reading back the decimal text of a number gives the number. */
  lemma {:induction false} DecimalRoundTrip(n: nat)
    ensures DecimalValue(NatToString(n)) == n
    decreases n
  {
    var s := NatToString(n);
    if n >= 10 {
      DecimalRoundTrip(n / 10);
      assert s[..|s| - 1] == NatToString(n / 10);
      assert "0123456789"[n % 10] as int - '0' as int == n % 10;
    } else {
      assert "0123456789"[n] as int - '0' as int == n;
    }
  }
}
