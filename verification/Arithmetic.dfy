/** Division of natural numbers. */
module Arithmetic {

  /** The sizes of unsigned machine words. */
  const UINT32_MOD: nat := 0x1_0000_0000
  const UINT64_MOD: nat := 0x1_0000_0000_0000_0000

  lemma MulMono(a: nat, b: nat, d: nat)
    requires a <= b
    ensures a * d <= b * d
  {
  }

  lemma Distribute(a: nat, d: nat)
    ensures (a + 1) * d == a * d + d
  {
  }

  lemma DivUnique(d: nat, a: nat, q: nat, r: nat)
    requires 0 < d && r < d && a == q * d + r
    ensures a / d == q && a % d == r
  {
    var q', r' := a / d, a % d;
    assert a == q' * d + r';
    if q' > q {
      MulMono(q + 1, q', d);
    } else if q > q' {
      MulMono(q' + 1, q, d);
    }
  }

  lemma DivSplit(n: nat, d: nat) returns (q: nat, r: nat)
    requires 0 < d
    ensures n == q * d + r && r < d && q == n / d && r == n % d
  {
    q, r := n / d, n % d;
  }

  lemma DivStep(d: nat, i: nat)
    requires 0 < d
    ensures if i % d + 1 == d then (i + 1) % d == 0 && (i + 1) / d == i / d + 1
            else (i + 1) % d == i % d + 1 && (i + 1) / d == i / d
  {
    var q, r := i / d, i % d;
    assert i == q * d + r;
    if r + 1 == d {
      Distribute(q, d);
      DivUnique(d, i + 1, q + 1, 0);
    } else {
      DivUnique(d, i + 1, q, r + 1);
    }
  }

  lemma DivBounds(a: nat, b: nat)
    requires 0 < b
    ensures (a / b) * b <= a < (a / b + 1) * b
  {
    var q := a / b;
    assert a == q * b + a % b;
    assert (q + 1) * b == q * b + b;
  }

  lemma DivAtLeast(a: nat, b: nat, q: nat)
    requires 0 < b && q * b <= a
    ensures q <= a / b
  {
    DivBounds(a, b);
    if a / b + 1 <= q { MulMono(a / b + 1, q, b); }
  }

  lemma DivBelow(a: nat, b: nat, q: nat)
    requires 0 < b && a < q * b
    ensures a / b < q
  {
    DivBounds(a, b);
    if q <= a / b { MulMono(q, a / b, b); }
  }
}
