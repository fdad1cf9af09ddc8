/** The percentages of a run summary: rounded half to even, then adjusted so that nothing is hidden. */
module Percents {
  /** The integer nearest to n/d, the even one when two are equally near. */
  function Round(n: int, d: nat): int
    requires d > 0
  {
    var q, r := n / d, n % d;
    if 2 * r < d then q
    else if 2 * r > d then q + 1
    else if q % 2 == 0 then q else q + 1
  }

  datatype Summary = Summary(okPercent: int, nokPercent: int)

  /** The number of unexpected results may exceed the total: a result counts once per error meta. */
  function Summarize(total: nat, nok: nat): Summary {
    var ok := total - nok;
    var okPercent := if total != 0 then Round(ok * 100, total) else 0;
    var nokPercent := if total != 0 then Round(nok * 100, total) else 0;
    if nokPercent == 0 && nok != 0 then Summary(okPercent - 1, nokPercent + 1)
    else if okPercent == 0 && ok != 0 then Summary(okPercent + 1, nokPercent - 1)
    else Summary(okPercent, nokPercent)
  }

  lemma {:induction false} TimesMonotone(d: nat, a: int, b: int)
    requires a < b
    ensures d * a + d <= d * b
    decreases b - a
  {
    assert d * b == d * (b - 1) + d;
    if a < b - 1 {
      TimesMonotone(d, a, b - 1);
    }
  }

  lemma {:induction false} QuotientUnique(d: nat, q: int, r: nat, q': int, r': nat)
    requires d > 0 && d * q + r == d * q' + r' && r < d && r' < d
    ensures q == q' && r == r'
  {
    if q < q' {
      TimesMonotone(d, q, q');
    } else if q' < q {
      TimesMonotone(d, q', q);
    }
  }

  lemma {:induction false} DivMod(n: int, d: nat, q: int, r: nat)
    requires d > 0 && n == d * q + r && r < d
    ensures n / d == q && n % d == r
  {
    QuotientUnique(d, q, r, n / d, n % d);
  }

  /** Rounding is to the nearest integer: off by at most a half. */
  lemma {:induction false} RoundNearest(n: int, d: nat)
    requires d > 0
    ensures 2 * (d * Round(n, d) - n) <= d && 2 * (n - d * Round(n, d)) <= d
  {
    var q, r := n / d, n % d;
    assert n == d * q + r;
    assert d * (q + 1) == d * q + d;
  }

  /** Rounding, given quotient and remainder. */
  lemma {:induction false} RoundOf(n: int, d: nat, q: int, r: nat)
    requires d > 0 && n == d * q + r && r < d
    ensures Round(n, d) == if 2 * r < d || (2 * r == d && q % 2 == 0) then q else q + 1
  {
    DivMod(n, d, q, r);
  }

  /** What rounds to 0. */
  lemma {:induction false} RoundZero(n: int, d: nat)
    requires d > 0
    ensures Round(n, d) == 0 <==> -2 * n <= d && 2 * n <= d
  {
    RoundNearest(n, d);
    if -2 * n <= d && 2 * n <= d {
      hide Round;
      if n >= 0 {
        RoundOf(n, d, 0, n);
      } else {
        RoundOf(n, d, -1, n + d);
      }
    }
  }

  /** The other part's quotient and remainder. */
  lemma {:induction false} Complement(a: int, b: int, d: nat, q: int, r: nat)
    requires d > 0 && a + b == d * 100 && a == d * q + r
    ensures r == 0 ==> b == d * (100 - q)
    ensures b == d * (99 - q) + (d - r)
  {
    assert d * (100 - q) == d * 100 - d * q;
    assert d * (99 - q) == d * 99 - d * q;
  }

  /** Two parts of a whole of 100 round to a sum of exactly 100: half to even never rounds both the same way. */
  lemma {:induction false} RoundComplement(a: int, b: int, d: nat)
    requires d > 0 && a + b == d * 100
    ensures Round(a, d) + Round(b, d) == 100
  {
    var q, r := a / d, a % d;
    Complement(a, b, d, q, r);
    hide Round;
    RoundOf(a, d, q, r);
    if r == 0 {
      RoundOf(b, d, 100 - q, 0);
    } else {
      RoundOf(b, d, 99 - q, d - r);
    }
  }

  /** `p` is within 1 of the percentage that `n` is of `d`. */
  predicate Near(d: nat, n: int, p: int) {
    d * p - 100 * n <= d && 100 * n - d * p <= d
  }

  /** A rounded percentage is near; moved by one it is still near if that is towards the true one. */
  lemma {:induction false} RoundNear(d: nat, n: int, p: int)
    requires d > 0 && p == Round(n * 100, d)
    ensures Near(d, n, p)
    ensures p == 0 ==> (Near(d, n, 1) <==> n >= 0)
    ensures p == 100 ==> (Near(d, n, 99) <==> n <= d)
    ensures p == 0 <==> -200 * n <= d && 200 * n <= d
    ensures n >= 0 ==> p >= 0
  {
    RoundNearest(n * 100, d);
    RoundZero(n * 100, d);
    if p < 0 {
      TimesMonotone(d, p, 0);
    }
  }

  /** With at least one result, the two percentages add up to exactly 100 and a part that is not empty never
      shows as 0.  Both are within 1 of the true percentages except when there are more unexpected results
      than results at all, by at most half a percent. */
  lemma {:induction false} SummaryFaithful(total: nat, nok: nat)
    requires 0 < total
    ensures var s, ok := Summarize(total, nok), total - nok;
            && s.okPercent + s.nokPercent == 100
            && (nok > 0 ==> s.nokPercent > 0) && (ok > 0 ==> s.okPercent > 0)
            && (Near(total, nok, s.nokPercent) && Near(total, ok, s.okPercent) <==>
                  !(nok > total && 200 * (nok - total) <= total))
  {
    hide Round, Near;
    var ok := total - nok;
    RoundComplement(ok * 100, nok * 100, total);
    RoundNear(total, ok, Round(ok * 100, total));
    RoundNear(total, nok, Round(nok * 100, total));
  }

  /** 200 results, 201 times unexpected: shown as 1 percent expected, 99 percent not. */
  lemma {:induction false} ExcessShownAsExpected()
    ensures Summarize(200, 201) == Summary(1, 99) && !Near(200, -1, 1)
  {
    assert Round(-100, 200) == 0 && Round(20100, 200) == 100;
  }
}
