/** JavaScript number operators whose result differs from Dafny's on integers. */
module JsNumber {

  /** JavaScript's `a % b` for a positive divisor: the remainder takes the
      sign of the dividend (Dafny's `%` never returns a negative number). */
  function JsRem(a: int, b: int): (r: int)
    requires b > 0
    ensures a >= 0 ==> r == a % b
    ensures a < 0 ==> r <= 0 && (a - r) % b == 0
    ensures -b < r < b
  {
    if a >= 0 then a % b
    else
      NegatedRem(a, b);
      -((-a) % b)
  }

  /** For a negative dividend, the negated remainder of `-a` is at most zero and
      leaves a multiple of `b` when taken from `a`. */
  lemma NegatedRem(a: int, b: int)
    requires a < 0 && b > 0
    ensures var r := -((-a) % b); -b < r <= 0 && (a - r) % b == 0
  {
    var q := (-a) / b;
    assert a + (-a) % b == b * -q;
    MultipleRem(b, -q);
  }

  /** Any multiple of `b` leaves no remainder. */
  lemma MultipleRem(b: int, q: int)
    requires b > 0
    ensures (b * q) % b == 0
  {
    var k := q - (b * q) / b;
    assert b * k == (b * q) % b;
    if k >= 1 {
      assert b * k == b + b * (k - 1);
    } else if k <= -1 {
      assert b * k == -b + b * (k + 1);
    }
  }
}
