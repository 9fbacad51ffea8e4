/** Decimal rounding, half to even, over exact reals. */
module Rounding {

  function Nearest(x: real): int {
    var below := x.Floor;
    var rest := x - below as real;
    if rest < 0.5 || (rest == 0.5 && below % 2 == 0) then below else below + 1
  }

  /** `round(x, digits)` with scale = 10^digits. */
  function Round(x: real, scale: real): real
    requires scale > 0.0
  {
    Nearest(x * scale) as real / scale
  }

  /** n is an integer nearest to x, the even one of two. */
  ghost predicate IsNearest(n: int, x: real) {
    && x - 0.5 <= n as real <= x + 0.5
    && (n as real == x - 0.5 || n as real == x + 0.5 ==> n % 2 == 0)
  }

  /** r is the multiple of 1 / scale nearest to x, the even one of two. */
  ghost predicate RoundedTo(r: real, x: real, scale: real) {
    var n := (r * scale).Floor;
    r * scale == n as real && IsNearest(n, x * scale)
  }

  lemma NearestMeaning(x: real)
    ensures IsNearest(Nearest(x), x)
  {
  }

  lemma NearestIsUnique(m: int, n: int, x: real)
    requires IsNearest(m, x) && IsNearest(n, x)
    ensures m == n
  {
  }

  lemma RoundMeaning(x: real, scale: real)
    requires scale > 0.0
    ensures RoundedTo(Round(x, scale), x, scale)
  {
    NearestMeaning(x * scale);
    Quotient(Nearest(x * scale) as real, scale);
    OnGrid(Round(x, scale), Nearest(x * scale), x, scale);
  }

  lemma OnGrid(r: real, n: int, x: real, scale: real)
    requires r * scale == n as real && IsNearest(n, x * scale)
    ensures RoundedTo(r, x, scale)
  {
  }

  /** Rounding has one answer. */
  lemma RoundedOnce(r: real, x: real, scale: real)
    requires scale > 0.0
    ensures RoundedTo(r, x, scale) <==> r == Round(x, scale)
  {
    RoundMeaning(x, scale);
    if RoundedTo(r, x, scale) {
      var n := (r * scale).Floor;
      NearestMeaning(x * scale);
      NearestIsUnique(n, Nearest(x * scale), x * scale);
      SameProduct(r, Round(x, scale), scale, n as real);
    }
  }

  lemma Quotient(x: real, scale: real)
    requires scale > 0.0
    ensures x / scale * scale == x
  {
  }

  lemma SameProduct(r: real, s: real, scale: real, product: real)
    requires scale > 0.0 && r * scale == product && s == product / scale
    ensures r == s
  {
  }

  lemma NearestMonotone(x: real, y: real)
    requires x <= y
    ensures Nearest(x) <= Nearest(y)
  {
    if x.Floor < y.Floor {
      assert Nearest(x) <= x.Floor + 1;
    }
  }

  lemma DivideMonotone(a: real, b: real, scale: real)
    requires a <= b && scale > 0.0
    ensures a / scale <= b / scale
  {
    assert (b - a) / scale >= 0.0;
  }

  lemma RoundMonotone(x: real, y: real, scale: real)
    requires x <= y && scale > 0.0
    ensures Round(x, scale) <= Round(y, scale)
  {
    assert x * scale <= y * scale;
    NearestMonotone(x * scale, y * scale);
    DivideMonotone(Nearest(x * scale) as real, Nearest(y * scale) as real, scale);
  }

  /** A value already on the decimal grid is left alone. */
  lemma RoundExact(n: int, x: real, scale: real)
    requires scale > 0.0 && x * scale == n as real
    ensures Round(x, scale) == x
  {
    assert x == n as real / scale;
  }
}
