/** Go's `int32`: addition and multiplication wrap around silently. */
module Int32 {

  const MIN := -0x8000_0000
  const MAX := 0x7fff_ffff
  const MODULUS := 0x1_0000_0000

  predicate InRange(x: int) {
    MIN <= x <= MAX
  }

  /** The `int32` that Go computes when the exact result is `x`. */
  function Wrap(x: int): (r: int)
    ensures InRange(r) && (x - r) % MODULUS == 0
    ensures InRange(x) ==> r == x
  {
    (x - MIN) % MODULUS + MIN
  }

  /** The sign test on a wrapped sum is exactly the test that the true sum is a non-negative `int32`:
      an overflowing increment is refused as if stock were short, never stored. */
  lemma {:induction false} SignTestIsExact(stock: int, delta: int)
    requires 0 <= stock <= MAX && InRange(delta)
    ensures Wrap(stock + delta) >= 0 <==> 0 <= stock + delta <= MAX
    ensures Wrap(stock + delta) >= 0 ==> Wrap(stock + delta) == stock + delta
  {
  }
}
