/** Division by a power of ten as a multiplication and a shift. */
module DivideByPow10 {
  import opened Arithmetic

  const TWO37: nat := 0x20_0000_0000

  /** 2^37 / 100 and 2^71 / 1000, rounded up. */
  const MAGIC_100: nat := 1374389535
  const MAGIC_1000: nat := 2361183241434822607

  /** The 32-bit form: a 64-bit product shifted by 37, cut off at 32 bits. */
  function DivideBy100(n: nat): nat { n * MAGIC_100 / TWO37 % UINT32_MOD }

  /** The 64-bit form: the upper word of the 128-bit product, shifted by 7. */
  function DivideBy1000(n: nat): nat { n * MAGIC_1000 / UINT64_MOD / 128 }

  lemma Product32(a: nat, b: nat)
    requires b < 100 && a * 100 + b < 0x1_0000_0000
    ensures var rest := a * 28 + b * 1374389535;
            (a * 100 + b) * 1374389535 == a * 0x20_0000_0000 + rest && rest < 0x20_0000_0000
  {
  }

  /** The 32-bit form divides every number by 100. */
  lemma DividesBy100(n: nat)
    requires n < UINT32_MOD
    ensures DivideBy100(n) == n / 100
  {
    var a, b := n / 100, n % 100;
    assert n == a * 100 + b;
    Product32(a, b);
    assert n * MAGIC_100 == n * 1374389535;
    DivUnique(0x20_0000_0000, n * 1374389535, a, a * 28 + b * 1374389535);
    DivUnique(UINT32_MOD, a, 0, a);
  }

  lemma Product64(a: nat, b: nat)
    requires b < 1000 && a * 1000 + b < 0x1_0000_0000_0000_0000
    ensures var rest := a * 152 + b * 2361183241434822607;
            && (a * 1000 + b) * 2361183241434822607 == a * 0x80_0000_0000_0000_0000 + rest
            && rest < 2 * 0x80_0000_0000_0000_0000
            && (rest < 0x80_0000_0000_0000_0000 <==> b != 999 || a < 15534100272597517)
  {
  }

  /** Dividing by 2^64 and by 2^7 is dividing by 2^71. */
  lemma TwoShifts(x: nat, q: nat, r: nat)
    requires x == q * 0x80_0000_0000_0000_0000 + r && r < 0x80_0000_0000_0000_0000
    ensures x / 0x1_0000_0000_0000_0000 / 128 == q
  {
    var h, l := r / 0x1_0000_0000_0000_0000, r % 0x1_0000_0000_0000_0000;
    assert x == (q * 128 + h) * 0x1_0000_0000_0000_0000 + l;
    DivUnique(0x1_0000_0000_0000_0000, x, q * 128 + h, l);
    DivUnique(128, q * 128 + h, q, h);
  }

  /** The 64-bit form divides by 1000 exactly when the last three digits are not 999 or the number is not too large;
      otherwise it is one too large. */
  lemma DividesBy1000ExactlyWhen(n: nat)
    requires n < UINT64_MOD
    ensures DivideBy1000(n) == n / 1000 <==> n % 1000 != 999 || n / 1000 < 15534100272597517
    ensures n / 1000 <= DivideBy1000(n) <= n / 1000 + 1
  {
    var a, b := n / 1000, n % 1000;
    assert n == a * 1000 + b;
    Product64(a, b);
    assert n * MAGIC_1000 == n * 2361183241434822607;
    var rest := a * 152 + b * 2361183241434822607;
    if rest < 0x80_0000_0000_0000_0000 {
      TwoShifts(n * 2361183241434822607, a, rest);
    } else {
      TwoShifts(n * 2361183241434822607, a + 1, rest - 0x80_0000_0000_0000_0000);
    }
  }

  /** The first number for which it is wrong. */
  lemma FirstWrong(n: nat)
    requires n < UINT64_MOD
    ensures DivideBy1000(n) != n / 1000 ==> n >= 15534100272597517999
    ensures DivideBy1000(15534100272597517999) == 15534100272597518
  {
    DividesBy1000ExactlyWhen(n);
    DividesBy1000ExactlyWhen(15534100272597517999);
  }
}
