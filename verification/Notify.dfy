/** Sizes in completion messages: the scaling loop behind "1.5 GiB", in 64-bit arithmetic. */
module Notify {
  const TWO63: int := 0x8000_0000_0000_0000
  const SUFFIXES: string := "KMGTPE"

  /** Plain counts are shown as they are; Scaled ones as count/div with the suffix at exp, whose letter is unit. */
  datatype Size = Plain(count: int) | Scaled(count: int, div: int, exp: nat, unit: char)

  function Pow1024(k: nat): (p: int)
    ensures p >= 1
  {
    if k == 0 then 1 else 1024 * Pow1024(k - 1)
  }

  lemma {:induction false} PowNext(k: nat)
    ensures Pow1024(0) == 1 && Pow1024(k + 1) == 1024 * Pow1024(k)
  {
  }

  lemma Powers()
    ensures Pow1024(6) == 0x1000_0000_0000_0000
  {
    assert Pow1024(2) == 0x10_0000 && Pow1024(4) == 0x100_0000_0000;
  }

  lemma {:induction false} PowMonotone(j: nat, k: nat)
    requires j <= k
    ensures Pow1024(j) <= Pow1024(k)
  {
    if j < k { PowMonotone(j, k - 1); }
  }

  lemma Distribute(q: int, r: int, d: int)
    ensures (1024 * q + r) * d == 1024 * (q * d) + r * d
    ensures (1024 * q + r + 1) * d == 1024 * (q * d) + r * d + d
    ensures q * (1024 * d) == 1024 * (q * d) && (q + 1) * (1024 * d) == 1024 * (q * d) + 1024 * d
  {
  }

  lemma Remainder(r: int, d: int)
    requires 0 <= r <= 1023 && 0 < d
    ensures 0 <= r * d <= 1023 * d
  {
  }

  /** n whole divisors fit. */
  predicate Counts(b: int, n: int, div: int) { n * div <= b < (n + 1) * div }

  lemma CountsFirst(b: int)
    requires b >= 1024
    ensures Counts(b, b / 1024, 1024)
  {
  }

  lemma DivideByUnit(b: int, n: int, div: int)
    requires 0 < div && n >= 1024 && Counts(b, n, div)
    ensures Counts(b, n / 1024, div * 1024) && 1024 * div <= b
  {
    var q, r := n / 1024, n % 1024;
    Distribute(q, r, div);
    Remainder(r, div);
    assert n == 1024 * q + r && 1024 * div <= n * div;
  }

  lemma CountsBound(b: int, n: int, div: int)
    requires 0 < div && 1 <= n < 1024 && Counts(b, n, div)
    ensures div <= b < 1024 * div
  {
    assert 1 * div <= n * div && (n + 1) * div <= 1024 * div;
  }

  lemma {:induction false} UnitOf(b: int, exp: nat)
    requires exp <= 5 && Pow1024(exp + 1) <= b < 1024 * Pow1024(exp + 1)
    ensures b < 0x10_0000 ==> SUFFIXES[exp] == 'K'
    ensures 0x10_0000 <= b < 0x4000_0000 ==> SUFFIXES[exp] == 'M'
    ensures 0x4000_0000 <= b < 0x100_0000_0000 ==> SUFFIXES[exp] == 'G'
    ensures 0x100_0000_0000 <= b < 0x4_0000_0000_0000 ==> SUFFIXES[exp] == 'T'
    ensures 0x4_0000_0000_0000 <= b < 0x1000_0000_0000_0000 ==> SUFFIXES[exp] == 'P'
    ensures 0x1000_0000_0000_0000 <= b ==> SUFFIXES[exp] == 'E'
  {
    assert Pow1024(1) == 1024 && Pow1024(2) == 0x10_0000 && Pow1024(3) == 0x4000_0000;
    assert Pow1024(4) == 0x100_0000_0000 && Pow1024(5) == 0x4_0000_0000_0000 && Pow1024(6) == 0x1000_0000_0000_0000;
  }

  /** The divisor never leaves 64 bits, the suffix index never leaves the six suffixes, and the scaled
      number is at least 1 and below 1024. */
  method HumanBytes(b: int) returns (size: Size)
    requires -TWO63 <= b < TWO63
    ensures b < 1024 ==> size == Plain(b)
    ensures b >= 1024 ==> size.Scaled? && size.count == b && size.exp < |SUFFIXES|
    ensures 0x400 <= b < 0x10_0000 ==> size.unit == 'K'
    ensures 0x10_0000 <= b < 0x4000_0000 ==> size.unit == 'M'
    ensures 0x4000_0000 <= b < 0x100_0000_0000 ==> size.unit == 'G'
    ensures 0x100_0000_0000 <= b < 0x4_0000_0000_0000 ==> size.unit == 'T'
    ensures 0x4_0000_0000_0000 <= b < 0x1000_0000_0000_0000 ==> size.unit == 'P'
    ensures 0x1000_0000_0000_0000 <= b ==> size.unit == 'E'
    ensures b >= 1024 ==> size.div == Pow1024(size.exp + 1) < TWO63 && size.div <= b < 1024 * size.div
  {
    hide Pow1024, Counts;
    if b < 1024 { return Plain(b); }
    CountsFirst(b);
    PowNext(0);
    Powers();
    var div, exp := 1024, 0;
    var n := b / 1024;
    while n >= 1024
      invariant 1 <= n && exp <= 5 && div == Pow1024(exp + 1) && Counts(b, n, div)
      decreases n
    {
      DivideByUnit(b, n, div);
      PowNext(exp + 1);
      if exp == 5 { assert false; }
      div := div * 1024;
      exp := exp + 1;
      n := n / 1024;
    }
    CountsBound(b, n, div);
    PowMonotone(exp + 1, 6);
    UnitOf(b, exp);
    size := Scaled(b, div, exp, SUFFIXES[exp]);
  }

  /** No other suffix would do: the bounds determine it. */
  lemma SuffixIsForced(b: int, j: nat, k: nat)
    requires Pow1024(j + 1) <= b < 1024 * Pow1024(j + 1) && Pow1024(k + 1) <= b < 1024 * Pow1024(k + 1)
    ensures j == k
  {
    if j < k { PowMonotone(j + 2, k + 1); }
    if k < j { PowMonotone(k + 2, j + 1); }
  }
}
