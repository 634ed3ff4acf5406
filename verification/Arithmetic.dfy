/** The few facts about products and quotients that frame and chunk counting needs. */
module Arithmetic {

  lemma Division(n: nat, unit: nat)
    requires unit > 0
    ensures n / unit >= 0 && 0 <= n / unit * unit <= n < n / unit * unit + unit
  {
    assert n == n / unit * unit + n % unit;
  }

  lemma TimesMonotone(a: nat, b: nat, size: nat)
    requires a <= b
    ensures a * size <= b * size
  {
    assert b * size == a * size + (b - a) * size;
  }

  lemma TimesReflects(a: nat, b: nat, size: nat)
    requires a * size < b * size + size
    ensures a <= b
  {
    if b < a {
      assert (b + 1) * size == b * size + size;
      TimesMonotone(b + 1, a, size);
    }
  }

  lemma QuotientIs(a: nat, d: nat, q: nat, r: nat)
    requires d > 0 && r < d && a == q * d + r
    ensures a / d == q
  {
    Division(a, d);
    TimesReflects(q, a / d, d);
    TimesReflects(a / d, q, d);
  }

  lemma OneMore(n: nat, size: nat)
    ensures (n + 1) * size == n * size + size
  {
  }
}
