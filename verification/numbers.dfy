/** Plain arithmetic that several state machines share. */
module Numbers {
  function Min(a: nat, b: nat): nat { if a < b then a else b }

  function Max(a: nat, b: nat): nat { if a < b then b else a }

  function Pow2(k: nat): nat {
    if k == 0 then 1 else 2 * Pow2(k - 1)
  }

  function RoundUp4(n: nat): (r: nat)
    ensures n <= r < n + 4 && r % 4 == 0
  {
    (n + 3) / 4 * 4
  }

  function RoundUp8(n: nat): (r: nat)
    ensures n <= r < n + 8 && r % 8 == 0
  {
    (n + 7) / 8 * 8
  }

  /** There is but one multiple of four from a number on and below four more. */
  lemma Only4(n: nat, a: nat, b: nat)
    requires n <= a < n + 4 && n <= b < n + 4 && a % 4 == 0 && b % 4 == 0
    ensures a == b
  {}

  lemma Only8(n: nat, a: nat, b: nat)
    requires n <= a < n + 8 && n <= b < n + 8 && a % 8 == 0 && b % 8 == 0
    ensures a == b
  {}

  lemma RoundUpAfter12(n: nat)
    ensures RoundUp4(12 + n) == 12 + RoundUp4(n)
  {
    hide RoundUp4;
    assert (12 + RoundUp4(n)) % 4 == 0;
    Only4(12 + n, RoundUp4(12 + n), 12 + RoundUp4(n));
  }

  lemma RoundUpAfter16(n: nat)
    ensures RoundUp8(16 + n) == 16 + RoundUp8(n)
  {
    hide RoundUp8;
    assert (16 + RoundUp8(n)) % 8 == 0;
    Only8(16 + n, RoundUp8(16 + n), 16 + RoundUp8(n));
  }
}
