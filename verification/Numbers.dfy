/** Functions on numbers that several parts of the gateway share. */
module Numbers {

  function Least(a: int, b: int): int { if a < b then a else b }

  function Power(base: nat, k: nat): nat { if k == 0 then 1 else base * Power(base, k - 1) }

  lemma {:induction false} PowerPositive(base: nat, k: nat)
    requires base > 0
    ensures Power(base, k) >= 1
  {
    if k > 0 { PowerPositive(base, k - 1); }
  }
}
