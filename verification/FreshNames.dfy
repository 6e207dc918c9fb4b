/** Searching for a free name: `stem_n`, `stem_(n+1)`, … until one is not taken. */
module FreshNames {
  import opened Text

  /** `format!("{stem}_{n}")` */
  function Numbered(stem: string, n: nat): string {
    stem + "_" + Decimal(n)
  }

  lemma NumberedInjective(stem: string, m: nat, n: nat)
    requires Numbered(stem, m) == Numbered(stem, n)
    ensures m == n
  {
    var k := |stem| + 1;
    assert Numbered(stem, m)[k..] == Decimal(m) && Numbered(stem, n)[k..] == Decimal(n);
    DecimalInjective(m, n);
  }

  /** The first number from `start` on whose name is free. A name that is taken can be crossed
      off, because no later number gives it again: at most `|taken|` numbers are tried. */
  function FirstFree(stem: string, start: nat, taken: set<string>): (k: nat)
    ensures start <= k <= start + |taken|
    ensures Numbered(stem, k) !in taken
    ensures forall j :: start <= j < k ==> Numbered(stem, j) in taken
    decreases |taken|
  {
    var name := Numbered(stem, start);
    if name !in taken then start
    else
      var rest := taken - {name};
      var k := FirstFree(stem, start + 1, rest);
      assert Numbered(stem, k) !in taken by {
        if Numbered(stem, k) == name { NumberedInjective(stem, start, k); }
      }
      k
  }

  /** The search stops only at the first free number. */
  lemma FirstFreeIsLeast(stem: string, start: nat, taken: set<string>, k: nat)
    requires start <= k && Numbered(stem, k) !in taken
    requires forall j :: start <= j < k ==> Numbered(stem, j) in taken
    ensures k == FirstFree(stem, start, taken)
  {
  }

  function Pow10(k: nat): nat { if k == 0 then 1 else 10 * Pow10(k - 1) }

  lemma {:induction false} DecimalLength(n: nat, k: nat)
    requires k > 0 && n < Pow10(k)
    ensures |Decimal(n)| <= k
  {
    if n >= 10 {
      assert k > 1 by { assert Pow10(1) == 10 * Pow10(0) == 10; }
      assert Pow10(k) == 10 * Pow10(k - 1);
      DecimalLength(n / 10, k - 1);
    }
  }

  /** A `u32` prints in at most ten digits. */
  lemma ShortDecimal(n: nat)
    requires n < 0x1_0000_0000
    ensures |Decimal(n)| <= 10
  {
    assert Pow10(1) == 10 && Pow10(2) == 100 && Pow10(3) == 1_000;
    assert Pow10(4) == 10_000 && Pow10(5) == 100_000 && Pow10(6) == 1_000_000;
    assert Pow10(7) == 10_000_000 && Pow10(8) == 100_000_000;
    assert Pow10(9) == 1_000_000_000 && Pow10(10) == 10_000_000_000;
    DecimalLength(n, 10);
  }
}
