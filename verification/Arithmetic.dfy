/** Machine word limits and a few facts about products. */
module Arithmetic {
  const U64_MAX: nat := 0xFFFF_FFFF_FFFF_FFFF
  const U128_MAX: nat := 0xFFFF_FFFF_FFFF_FFFF_FFFF_FFFF_FFFF_FFFF

  function Min(a: nat, b: nat): nat { if a < b then a else b }

  function Max(a: nat, b: nat): nat { if a < b then b else a }

  lemma ProductBound(a: nat, b: nat, m: nat, k: nat)
    requires a <= m && b <= k
    ensures a * b <= m * k
  {
    assert m * k == a * k + (m - a) * k;
    assert a * k == a * b + a * (k - b);
    assert (m - a) * k >= 0 && a * (k - b) >= 0;
  }

  /** `m` added up `n` times. */
  function Times(n: nat, m: nat): nat { if n == 0 then 0 else Times(n - 1, m) + m }

  lemma {:induction false} TimesIsProduct(n: nat, m: nat)
    ensures Times(n, m) == n * m
  {
    if n > 0 {
      TimesIsProduct(n - 1, m);
      assert n * m == (n - 1) * m + m;
    }
  }
}
