/** The cost of looking for k bad items among n by halving whatever fails. */
module Halving {

  function CeilLog2(n: nat): nat {
    if n <= 1 then 0 else 1 + CeilLog2((n + 1) / 2)
  }

  lemma {:induction false} CeilLogMonotone(a: nat, b: nat)
    requires a <= b
    ensures CeilLog2(a) <= CeilLog2(b)
  {
    if b > 1 && a > 1 {
      CeilLogMonotone((a + 1) / 2, (b + 1) / 2);
    }
  }

  /** 1 + 2k * ceil(log2 n) calls for n items with k bad ones. */
  function CallBound(n: nat, k: nat): nat {
    1 + 2 * k * CeilLog2(n)
  }

  lemma CallsAddUp(n: nat, k1: nat, k2: nat)
    requires n >= 2 && k1 + k2 >= 1
    ensures 1 + CallBound(n / 2, k1) + CallBound(n - n / 2, k2) <= CallBound(n, k1 + k2)
  {
    var l, r, t := CeilLog2(n / 2), CeilLog2(n - n / 2), CeilLog2(n);
    assert n - n / 2 == (n + 1) / 2;
    CeilLogMonotone(n / 2, n - n / 2);
    SplitProduct(k1, k2, l, r, t);
  }

  lemma SplitProduct(k1: nat, k2: nat, l: nat, r: nat, t: nat)
    requires l <= r && t == r + 1 && k1 + k2 >= 1
    ensures 3 + 2 * k1 * l + 2 * k2 * r <= 1 + 2 * (k1 + k2) * t
  {
    var a, b, c := k1 * l, k1 * r, k2 * r;
    Below(k1, l, r);
    assert (k1 + k2) * t == (k1 + k2) * r + (k1 + k2);
    assert (k1 + k2) * r == b + c;
  }

  lemma {:induction false} Below(k: nat, l: nat, r: nat)
    requires l <= r
    ensures k * l <= k * r
  {
  }
}
