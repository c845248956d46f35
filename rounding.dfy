/** The completion rate both task widgets show:
    `total > 0 ? Math.round((completed / total) * 100) : 0`. */
module Rounding {

  /** Math.round rounds halves upwards, so on exact rationals the rate is
      floor(100 * part / whole + 1/2) = (200 * part + whole) / (2 * whole). */
  function CompletionRate(part: nat, whole: nat): (r: nat)
    ensures whole == 0 ==> r == 0
    ensures whole > 0 ==> 2 * whole * r <= 200 * part + whole < 2 * whole * (r + 1)
    ensures part <= whole ==> r <= 100
  {
    if whole == 0 then 0
    else
      DivBounds(200 * part + whole, 2 * whole);
      (200 * part + whole) / (2 * whole)
  }

  lemma DivBounds(a: nat, b: nat)
    requires b > 0
    ensures b * (a / b) <= a < b * (a / b + 1)
    ensures a < b * 101 ==> a / b <= 100
  {
    if a < b * 101 {
      MonotoneFactor(b, a / b, 100);
    }
  }

  lemma MonotoneFactor(b: nat, x: nat, y: nat)
    requires b > 0 && b * x < b * (y + 1)
    ensures x <= y
  {
    assert b * (y + 1 - x) > 0;
  }

  /** The figures quoted for the widgets: nothing done is 0, half done is 50,
      everything done is 100. */
  lemma CompletionRateExamples(n: nat)
    requires n > 0
    ensures CompletionRate(0, n) == 0
    ensures CompletionRate(n, n) == 100
    ensures CompletionRate(1, 2) == 50
  {
    assert 2 * n * 100 <= 200 * n + n < 2 * n * 101;
    Unique(200 * n + n, 2 * n, 100, CompletionRate(n, n));
    Unique(n, 2 * n, 0, CompletionRate(0, n));
  }

  lemma Unique(a: nat, b: nat, q: nat, q': nat)
    requires b > 0
    requires b * q <= a < b * (q + 1)
    requires b * q' <= a < b * (q' + 1)
    ensures q == q'
  {
    MonotoneFactor(b, q, q');
    MonotoneFactor(b, q', q);
  }
}
