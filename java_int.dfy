/** Java's 32-bit `int`: its range and its wrap-around on overflow. */
module JavaInt {

  const MinInt: int := -0x8000_0000
  const MaxInt: int := 0x7fff_ffff

  /** The values a Java `int` can hold. */
  type Int32 = x: int | -0x8000_0000 <= x <= 0x7fff_ffff

  /** The value Java's `int` arithmetic produces for the mathematical result `x`. */
  function Wrap(x: int): (r: Int32)
    ensures MinInt <= x <= MaxInt ==> r == x
    ensures x > MaxInt && x <= MaxInt - MinInt + MaxInt ==> r == x - 0x1_0000_0000
    ensures x < MinInt && x >= MinInt - (MaxInt - MinInt) - 1 ==> r == x + 0x1_0000_0000
  {
    (x - MinInt) % 0x1_0000_0000 + MinInt
  }

  /**
   * Java's `(int)` cast of a `double`: rounds toward zero and saturates at
   * the ends of the range (NaN is not modelled).
   */
  function TruncToInt(x: real): (r: Int32)
    ensures 0.0 <= x ==> 0 <= r && r as real <= x && (r < MaxInt ==> x < r as real + 1.0)
    ensures x <= 0.0 ==> r <= 0 && x <= r as real && (r > MinInt ==> r as real - 1.0 < x)
  {
    if x >= 0.0 then (if x.Floor > MaxInt then MaxInt else x.Floor)
    else
      var n := -((-x).Floor);
      if n < MinInt then MinInt else n
  }
}
