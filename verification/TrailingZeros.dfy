/** Removing trailing decimal zeros without a division: multiplication by a modular inverse, rotation, comparison. */
module TrailingZeros {
  import opened Arithmetic
  import opened Basics
  import opened ParseInt

  const TEN8: nat := 100_000_000

  /** 2^90 / 10^8, rounded up. */
  const MAGIC: nat := 12379400392853802749

  // ---------------------------------------------------------------- what the zeros of a number are

  function Zeros(n: nat): nat
    requires n > 0
  {
    if n % 10 != 0 then 0 else 1 + Zeros(n / 10)
  }

  function WithoutZeros(n: nat): (m: nat)
    requires n > 0
    ensures 0 < m <= n
  {
    if n % 10 != 0 then n else WithoutZeros(n / 10)
  }

  /** `m` and `k` are the number without its trailing zeros and how many there were, and no other pair is. */
  lemma {:induction false} ZerosUnique(n: nat, m: nat, k: nat)
    requires n > 0
    ensures n == m * Pow10(k) && m % 10 != 0 <==> m == WithoutZeros(n) && k == Zeros(n)
  {
    if n % 10 != 0 {
      if k > 0 { TenTimes(m, Pow10(k - 1)); } else { assert m * Pow10(0) == m; }
    } else if k > 0 {
      TenTimes(m, Pow10(k - 1));
      ZerosUnique(n / 10, m, k - 1);
    } else {
      assert m * Pow10(0) == m;
    }
  }

  lemma TenTimes(m: nat, p: nat)
    ensures m * (10 * p) == 10 * (m * p) && (10 * (m * p)) % 10 == 0
  {
  }

  lemma TwoZeros(n: nat)
    requires n > 0 && n % 100 == 0
    ensures 0 < n / 100 && Zeros(n) == 2 + Zeros(n / 100) && WithoutZeros(n) == WithoutZeros(n / 100)
  {
    assert n / 10 / 10 == n / 100;
    assert Zeros(n / 10) == 1 + Zeros(n / 100);
    assert WithoutZeros(n / 10) == WithoutZeros(n / 100);
  }

  lemma EightZeros(a: nat)
    requires a > 0
    ensures Zeros(TEN8 * a) == 8 + Zeros(a) && WithoutZeros(TEN8 * a) == WithoutZeros(a)
  {
    TwoZeros(100 * a);
    TwoZeros(10000 * a);
    TwoZeros(1000000 * a);
    TwoZeros(TEN8 * a);
  }

  // ---------------------------------------------------------------- rotation

  function Pow2(k: nat): (p: nat)
    ensures p > 0
  {
    if k == 0 then 1 else 2 * Pow2(k - 1)
  }

  /** Bitwise disjunction. */
  function Or(a: nat, b: nat): nat {
    if a == 0 && b == 0 then 0 else 2 * Or(a / 2, b / 2) + if a % 2 == 1 || b % 2 == 1 then 1 else 0
  }

  /** Both shifts of a rotation, the left one cut off at the word size, and their disjunction. */
  function OrOfShifts(n: nat, step: nat, top: nat, m: nat): nat
    requires 0 < step && 0 < m
  {
    Or(n / step, (n * top) % m)
  }

  /** `rotr` for words of `w` bits. */
  function RotateRight(n: nat, r: nat, w: nat): nat
    requires 0 < r < w
  {
    OrOfShifts(n, Pow2(r), Pow2(w - r), Pow2(w))
  }

  /** The same in arithmetic, for `m` = `step` * `top`: a division by `step` and a multiplication by `top` that is cut
      off at the word size. */
  function Rotr(n: nat, step: nat, top: nat, m: nat): nat
    requires 0 < step && 0 < m
  {
    n / step + (n * top) % m
  }

  lemma Expand(a: nat, b: nat, c: nat, d: nat, x: nat)
    requires x == b * c + d
    ensures a * x == (a * b) * c + a * d
  {
    assert a * (b * c) == (a * b) * c;
  }

  lemma Swap(a: nat, b: nat, c: nat, x: nat, y: nat)
    requires x == b * c && y == a * c
    ensures a * x == b * y
  {
  }

  lemma RotrSplit(n: nat, q: nat, r: nat, step: nat, top: nat, m: nat)
    requires 0 < top && m == step * top && r < step && n == q * step + r && r * top < m
    ensures 0 < m && Rotr(n, step, top, m) == q + r * top
  {
    HalvesOf(n, q, r, step, top, m);
  }

  lemma BelowTop(r: nat, step: nat, top: nat)
    requires 0 < top && r < step
    ensures r * top < step * top
  {
    MulMono(r + 1, step, top);
    Distribute(r, top);
  }

  lemma {:induction false} Pow2Add(a: nat, b: nat)
    ensures Pow2(a + b) == Pow2(a) * Pow2(b)
  {
    if a == 0 {
    } else {
      Pow2Add(a - 1, b);
      assert Pow2(a) * Pow2(b) == 2 * (Pow2(a - 1) * Pow2(b));
    }
  }

  lemma {:induction false} OrZero(b: nat)
    ensures Or(0, b) == b
  {
    if b == 0 {
    } else {
      OrZero(b / 2);
    }
  }

  /** A number below a power of two has no bit in common with a multiple of it: their disjunction is their sum. */
  lemma {:induction false} OrDisjoint(a: nat, c: nat, k: nat)
    requires a < Pow2(k)
    ensures Or(a, c * Pow2(k)) == a + c * Pow2(k)
  {
    if k == 0 {
      OrZero(c);
    } else {
      var half := c * Pow2(k - 1);
      assert c * Pow2(k) == 2 * half;
      OrDisjoint(a / 2, c, k - 1);
    }
  }

  lemma DisjointParts(n: nat, q: nat, l: nat, step: nat, top: nat, m: nat, k: nat)
    requires 0 < step && top == Pow2(k) && m == step * top && l < step && n == q * step + l && q < top
    ensures 0 < m && OrOfShifts(n, step, top, m) == Rotr(n, step, top, m)
  {
    BelowTop(l, step, top);
    HalvesOf(n, q, l, step, top, m);
    OrDisjoint(q, l, k);
  }

  /** The two halves of a rotation have no bit in common, so that the rotation is the arithmetic one. */
  lemma HalvesAreDisjoint(n: nat, step: nat, top: nat, m: nat, k: nat)
    requires 0 < step && top == Pow2(k) && m == step * top && n < m
    ensures OrOfShifts(n, step, top, m) == Rotr(n, step, top, m)
  {
    var q, l := DivSplit(n, step);
    if q >= top { MulMono(top, q, step); }
    DisjointParts(n, q, l, step, top, m, k);
  }

  lemma HalvesOf(n: nat, q: nat, l: nat, step: nat, top: nat, m: nat)
    requires 0 < top && m == step * top && l < step && n == q * step + l && l * top < m
    ensures n / step == q && (n * top) % m == l * top
  {
    DivUnique(step, n, q, l);
    Expand(top, q, step, l, n);
    Swap(top, q, step, q * step, m);
    DivUnique(m, n * top, q, l * top);
  }

  lemma RotateIsRotr(n: nat, r: nat, w: nat)
    requires 0 < r < w && n < Pow2(w)
    ensures RotateRight(n, r, w) == Rotr(n, Pow2(r), Pow2(w - r), Pow2(w))
  {
    Pow2Add(r, w - r);
    HalvesAreDisjoint(n, Pow2(r), Pow2(w - r), Pow2(w), w - r);
  }

  /** The rotations that the loops use. */
  lemma Rotations32(n: nat)
    requires n < UINT32_MOD
    ensures RotateRight(n, 2, 32) == Rotr(n, 4, UINT32_MOD / 4, UINT32_MOD)
    ensures RotateRight(n, 1, 32) == Rotr(n, 2, UINT32_MOD / 2, UINT32_MOD)
  {
    Powers();
    RotateIsRotr(n, 2, 32);
    RotateIsRotr(n, 1, 32);
  }

  lemma Rotations64(n: nat)
    requires n < UINT64_MOD
    ensures RotateRight(n, 2, 64) == Rotr(n, 4, UINT64_MOD / 4, UINT64_MOD)
    ensures RotateRight(n, 1, 64) == Rotr(n, 2, UINT64_MOD / 2, UINT64_MOD)
  {
    Powers();
    RotateIsRotr(n, 2, 64);
    RotateIsRotr(n, 1, 64);
  }

  lemma Powers()
    ensures Pow2(1) == 2 && Pow2(2) == 4
    ensures Pow2(30) == UINT32_MOD / 4 && Pow2(31) == UINT32_MOD / 2 && Pow2(32) == UINT32_MOD
    ensures Pow2(62) == UINT64_MOD / 4 && Pow2(63) == UINT64_MOD / 2 && Pow2(64) == UINT64_MOD
  {
    assert Pow2(8) == 0x100;
    Pow2Add(8, 8);
    Pow2Add(16, 14);
    Pow2Add(32, 30);
  }

  // ---------------------------------------------------------------- divisibility by multiplication

  /** The word size `m` = `step` * `top`, the divisor `d` = `odd` * `step`, and the inverse of `odd` modulo `m`. */
  predicate Suits(odd: nat, inverse: nat, step: nat, top: nat, m: nat, d: nat) {
    && 0 < odd && 0 < step && 0 < top && 1 < m && 0 < d
    && m == step * top && d == odd * step
    && (odd * inverse) % m == 1 && (m - 1) / d < top
  }

  /** What the loops compute: multiply by the inverse, rotate. */
  function Quotient(n: nat, inverse: nat, step: nat, top: nat, m: nat): nat
    requires 0 < step && 0 < m
  {
    Rotr((n * inverse) % m, step, top, m)
  }

  /** Adding multiples of the modulus changes nothing. */
  lemma ModAdd(a: nat, k: nat, m: nat)
    requires 0 < m
    ensures (k * m + a) % m == a % m
  {
    var q, r := a / m, a % m;
    assert a == q * m + r;
    assert k * m + a == (k + q) * m + r;
    DivUnique(m, k * m + a, k + q, r);
  }

  lemma TimesBothValues(n: nat, a: nat, b: nat, m: nat, x: nat, y: nat, u: nat, p: nat, t: nat)
    requires x == n * b && y == a * b && x == u * m + p && y == t * m + 1 && n < m
    ensures (a * p) % m == n
  {
    Expand(a, u, m, p, x);
    Expand(n, t, m, 1, y);
    Swap(a, n, b, x, y);
    ModAdd(a * p, a * u, m);
    DivUnique(m, a * x, n * t, n);
  }

  /** If `a` * `b` is 1, multiplying `n` by `b` and then by `a` gives `n` again. */
  lemma TimesBoth(n: nat, a: nat, b: nat, m: nat)
    requires n < m && (a * b) % m == 1
    ensures (a * ((n * b) % m)) % m == n
  {
    var x, y := n * b, a * b;
    DivBounds(x, m);
    TimesBothValues(n, a, b, m, x, y, x / m, x % m, y / m);
  }

  lemma Regroup(n: nat, p: nat, a: nat, b: nat, y: nat)
    requires n == a * p && y == a * b
    ensures n * b == p * y
  {
    assert n * b == (a * p) * b;
  }

  /** Multiplying a multiple of `odd` by the inverse divides it. */
  lemma DividesMultiple(n: nat, p: nat, odd: nat, inverse: nat, m: nat)
    requires p <= n < m && n == odd * p && (odd * inverse) % m == 1
    ensures (n * inverse) % m == p
  {
    var y := odd * inverse;
    Regroup(n, p, odd, inverse, y);
    Expand(p, y / m, m, 1, y);
    DivUnique(m, n * inverse, p * (y / m), p);
  }

  lemma QuotientOfMultiple(n: nat, k: nat, odd: nat, inverse: nat, step: nat, top: nat, m: nat, d: nat)
    requires Suits(odd, inverse, step, top, m, d) && n == k * d < m
    ensures Quotient(n, inverse, step, top, m) == k <= (m - 1) / d
  {
    var p := k * step;
    Swap(k, odd, step, d, p);
    MulMono(1, odd, p);
    DividesMultiple(n, p, odd, inverse, m);
    RotrSplit(p, k, 0, step, top, m);
    DivAtLeast(m - 1, d, k);
  }

  /** A small quotient has nothing in its upper half. */
  lemma UpperHalfEmpty(p: nat, a: nat, b: nat, step: nat, top: nat, m: nat, bound: nat)
    requires 0 < top && 0 < m == step * top && b < step && p == a * step + b && bound < top
    requires Rotr(p, step, top, m) <= bound
    ensures Rotr(p, step, top, m) == a && p == a * step
  {
    BelowTop(b, step, top);
    RotrSplit(p, a, b, step, top, m);
    if b > 0 { MulMono(1, b, top); }
  }

  lemma SmallQuotient(n: nat, odd: nat, inverse: nat, step: nat, top: nat, m: nat, d: nat)
    requires Suits(odd, inverse, step, top, m, d) && n < m && Quotient(n, inverse, step, top, m) <= (m - 1) / d
    ensures n == Quotient(n, inverse, step, top, m) * d
  {
    var p := (n * inverse) % m;
    UpperHalfEmpty(p, p / step, p % step, step, top, m, (m - 1) / d);
    NoRemainder(n, p / step, p, odd, inverse, step, m, d);
  }

  lemma NoRemainder(n: nat, q: nat, p: nat, odd: nat, inverse: nat, step: nat, m: nat, d: nat)
    requires 1 < m && 0 < d == odd * step && n < m && (odd * inverse) % m == 1
    requires p == (n * inverse) % m == q * step && q <= (m - 1) / d
    ensures n == q * d
  {
    Swap(odd, q, step, p, d);
    DivBounds(m - 1, d);
    MulMono(q, (m - 1) / d, d);
    TimesBoth(n, odd, inverse, m);
    DivUnique(m, q * d, 0, q * d);
  }

  /** The quotient is small exactly when `d` divides `n`, and is the true quotient then. */
  lemma QuotientTest(n: nat, odd: nat, inverse: nat, step: nat, top: nat, m: nat, d: nat)
    requires Suits(odd, inverse, step, top, m, d) && n < m
    ensures var q := Quotient(n, inverse, step, top, m);
            (q <= (m - 1) / d <==> n % d == 0) && (n % d == 0 ==> q == n / d)
  {
    var q := Quotient(n, inverse, step, top, m);
    if n % d == 0 {
      QuotientOfMultiple(n, n / d, odd, inverse, step, top, m, d);
    }
    if q <= (m - 1) / d {
      SmallQuotient(n, odd, inverse, step, top, m, d);
      DivUnique(d, n, q, 0);
    }
  }

  // ---------------------------------------------------------------- the 32-bit form

  const MOD_INV_5: nat := 0xcccc_cccd
  const MOD_INV_25: nat := 0xc28f_5c29

  /** The constants are inverses. */
  lemma Suits32()
    ensures Suits(25, MOD_INV_25, 4, UINT32_MOD / 4, UINT32_MOD, 100)
    ensures Suits(5, MOD_INV_5, 2, UINT32_MOD / 2, UINT32_MOD, 10)
  {
  }

  /** One or two zeros less. */
  lemma Test32(n: nat)
    requires 0 < n < UINT32_MOD
    ensures var q := RotateRight((n * MOD_INV_25) % UINT32_MOD, 2, 32);
            (q <= (UINT32_MOD - 1) / 100 <==> n % 100 == 0) && (n % 100 == 0 ==> q == n / 100)
    ensures var q := RotateRight((n * MOD_INV_5) % UINT32_MOD, 1, 32);
            (q <= (UINT32_MOD - 1) / 10 <==> n % 10 == 0) && (n % 10 == 0 ==> q == n / 10)
  {
    Suits32();
    Rotations32((n * MOD_INV_25) % UINT32_MOD);
    Rotations32((n * MOD_INV_5) % UINT32_MOD);
    QuotientTest(n, 25, MOD_INV_25, 4, UINT32_MOD / 4, UINT32_MOD, 100);
    QuotientTest(n, 5, MOD_INV_5, 2, UINT32_MOD / 2, UINT32_MOD, 10);
  }

  /** At most one zero is left. */
  lemma LastZero(n: nat)
    requires n > 0 && n % 100 != 0
    ensures Zeros(n) == (if n % 10 == 0 then 1 else 0)
    ensures WithoutZeros(n) == if n % 10 == 0 then n / 10 else n
  {
    if n % 10 == 0 { assert (n / 10) % 10 != 0; }
  }

  /** s | 1 */
  function SetLowBit(s: nat): nat { if s % 2 == 0 then s + 1 else s }

  /** Two zeros per round, and one more that may be lost. */
  lemma Total(start: nat, pairs: nat, last: nat, zeros: nat)
    requires last <= 1 && zeros == 2 * pairs + last
    ensures var s := start + 2 * pairs;
            (if last == 1 then SetLowBit(s) else s) == start + zeros - if start % 2 == 1 then zeros % 2 else 0
  {
  }

  /** `s` is a count of zeros already removed. The odd one is added by setting the lowest bit, so that it is counted
      only if `s` is even. */
  method RemoveTrailingZeros32(number: nat, start: nat) returns (n: nat, s: nat)
    requires 0 < number < UINT32_MOD
    ensures n == WithoutZeros(number)
    ensures s == start + Zeros(number) - if start % 2 == 1 then Zeros(number) % 2 else 0
  {
    n, s := number, start;
    ghost var pairs: nat := 0;
    while true
      invariant 0 < n <= number && WithoutZeros(n) == WithoutZeros(number)
      invariant s == start + 2 * pairs && Zeros(number) == 2 * pairs + Zeros(n)
      decreases n
    {
      Test32(n);
      var q := RotateRight((n * MOD_INV_25) % UINT32_MOD, 2, 32);
      if q > (UINT32_MOD - 1) / 100 { break; }
      TwoZeros(n);
      n := q;
      s := s + 2;
      pairs := pairs + 1;
    }
    LastZero(n);
    Total(start, pairs, Zeros(n), Zeros(number));
    var q := RotateRight((n * MOD_INV_5) % UINT32_MOD, 1, 32);
    if q <= (UINT32_MOD - 1) / 10 {
      n := q;
      s := SetLowBit(s);
    }
  }

  // ---------------------------------------------------------------- the 64-bit form

  const MOD_INV_5_LONG: nat := 0xcccc_cccc_cccc_cccd
  const MOD_INV_25_LONG: nat := 0x8f5c_28f5_c28f_5c29
  const TWO26: nat := 0x400_0000
  const TWO90: nat := 0x400_0000_0000_0000_0000_0000

  lemma Suits64()
    ensures Suits(25, MOD_INV_25_LONG, 4, UINT64_MOD / 4, UINT64_MOD, 100)
    ensures Suits(5, MOD_INV_5_LONG, 2, UINT64_MOD / 2, UINT64_MOD, 10)
  {
  }

  lemma Test64(n: nat)
    requires 0 < n < UINT64_MOD
    ensures var q := RotateRight((n * MOD_INV_25_LONG) % UINT64_MOD, 2, 64);
            (q <= (UINT64_MOD - 1) / 100 <==> n % 100 == 0) && (n % 100 == 0 ==> q == n / 100)
    ensures var q := RotateRight((n * MOD_INV_5_LONG) % UINT64_MOD, 1, 64);
            (q <= (UINT64_MOD - 1) / 10 <==> n % 10 == 0) && (n % 10 == 0 ==> q == n / 10)
  {
    Suits64();
    Rotations64((n * MOD_INV_25_LONG) % UINT64_MOD);
    Rotations64((n * MOD_INV_5_LONG) % UINT64_MOD);
    QuotientTest(n, 25, MOD_INV_25_LONG, 4, UINT64_MOD / 4, UINT64_MOD, 100);
    QuotientTest(n, 5, MOD_INV_5_LONG, 2, UINT64_MOD / 2, UINT64_MOD, 10);
  }

  /** The loop on the number itself. */
  method RemoveInPairs(number: nat) returns (n: nat, s: nat)
    requires 0 < number < UINT64_MOD
    ensures n == WithoutZeros(number) && s == Zeros(number)
  {
    n, s := number, 0;
    while true
      invariant 0 < n <= number && WithoutZeros(n) == WithoutZeros(number)
      invariant s + Zeros(n) == Zeros(number) && s % 2 == 0
      decreases n
    {
      Test64(n);
      var q := RotateRight((n * MOD_INV_25_LONG) % UINT64_MOD, 2, 64);
      if q > (UINT64_MOD - 1) / 100 { break; }
      TwoZeros(n);
      n := q;
      s := s + 2;
    }
    LastZero(n);
    var q := RotateRight((n * MOD_INV_5_LONG) % UINT64_MOD, 1, 64);
    if q <= (UINT64_MOD - 1) / 10 {
      n := q;
      s := SetLowBit(s);
    }
  }

  /** The product is the quotient times 2^90 and a rest that is small exactly when the division leaves none. */
  lemma MagicProduct(a: nat, b: nat)
    requires b < 100_000_000 && a * 100_000_000 + b < 0x1_0000_0000_0000_0000
    ensures var rest := a * 875776 + b * 12379400392853802749;
            && (a * 100_000_000 + b) * 12379400392853802749 == a * 0x400_0000_0000_0000_0000_0000 + rest
            && rest < 0x400_0000_0000_0000_0000_0000
            && (rest < 12379400392853802749 <==> b == 0)
  {
  }

  /** Cutting a number into words, and the high word again. */
  lemma Words(x: nat, a: nat, rest: nat)
    requires x == a * 0x400_0000_0000_0000_0000_0000 + rest && rest < 0x400_0000_0000_0000_0000_0000
    ensures var high, low := x / 0x1_0000_0000_0000_0000, x % 0x1_0000_0000_0000_0000;
            && high / 0x400_0000 == a
            && rest == (high % 0x400_0000) * 0x1_0000_0000_0000_0000 + low
  {
    var h, l := rest / 0x1_0000_0000_0000_0000, rest % 0x1_0000_0000_0000_0000;
    assert x == (a * 0x400_0000 + h) * 0x1_0000_0000_0000_0000 + l;
    DivUnique(0x1_0000_0000_0000_0000, x, a * 0x400_0000 + h, l);
    DivUnique(0x400_0000, a * 0x400_0000 + h, a, h);
  }

  /** With the high and low words of the full 128-bit product: the test is exact, and the bits above it are the
      quotient. */
  lemma MagicTest(n: nat)
    requires n < UINT64_MOD
    ensures var high, low := n * MAGIC / UINT64_MOD, n * MAGIC % UINT64_MOD;
            && (high % TWO26 == 0 && low < MAGIC <==> n % TEN8 == 0)
            && high / TWO26 == n / TEN8
  {
    var a, b := n / TEN8, n % TEN8;
    assert n == a * 100_000_000 + b;
    MagicProduct(a, b);
    Words(n * 12379400392853802749, a, a * 875776 + b * 12379400392853802749);
    assert n * MAGIC == n * 12379400392853802749;
  }

  /** The outcome of the 64-bit form. None stands for the call that the source forbids: the
      quotient, cut off at 32 bits, is zero. */
  function Removed64(number: nat): Option<(nat, nat)>
    requires 0 < number
  {
    if number % TEN8 != 0 then Some((WithoutZeros(number), Zeros(number)))
    else
      var cut := number / TEN8 % UINT32_MOD;
      if cut == 0 then None else Some((WithoutZeros(cut), 8 + Zeros(cut)))
  }

  method RemoveTrailingZeros64(number: nat) returns (r: Option<(nat, nat)>)
    requires 0 < number < UINT64_MOD
    ensures r == Removed64(number)
    ensures number % 100_000_000 != 0 ==> r == Some((WithoutZeros(number), Zeros(number)))
    ensures number % 100_000_000 == 0 ==>
              var cut := number / 100_000_000 % 0x1_0000_0000;
              r == if cut == 0 then None else Some((WithoutZeros(cut), 8 + Zeros(cut)))
  {
    var high, low := number * MAGIC / UINT64_MOD, number * MAGIC % UINT64_MOD;
    MagicTest(number);
    if high % TWO26 == 0 && low < MAGIC {
      var n32 := high / TWO26 % UINT32_MOD;
      if n32 == 0 {
        return None;
      }
      var n, s := RemoveTrailingZeros32(n32, 8);
      return Some((n, s));
    }
    var n, s := RemoveInPairs(number);
    return Some((n, s));
  }

  /** The zeros and the rest determine the number. */
  lemma SameZeros(a: nat, b: nat)
    requires a > 0 && b > 0
    ensures WithoutZeros(a) == WithoutZeros(b) && Zeros(a) == Zeros(b) <==> a == b
  {
    ZerosUnique(a, WithoutZeros(a), Zeros(a));
    ZerosUnique(b, WithoutZeros(b), Zeros(b));
  }

  lemma CutOff(a: nat, cut: nat)
    requires a > 0 && cut == a % 0x1_0000_0000
    ensures a < 0x1_0000_0000 <==> 0 < cut && WithoutZeros(cut) == WithoutZeros(a) && Zeros(cut) == Zeros(a)
  {
    if cut > 0 { SameZeros(cut, a); }
  }

  /** It is the number without its zeros, and their count, exactly when the quotient fits 32 bits or is not taken. */
  lemma RightExactlyWhen(number: nat)
    requires 0 < number < UINT64_MOD
    ensures (Removed64(number) == Some((WithoutZeros(number), Zeros(number))))
            <==> (number % TEN8 != 0 || number / TEN8 < UINT32_MOD)
  {
    if number % TEN8 == 0 {
      var a := number / TEN8;
      EightZeros(a);
      assert number == TEN8 * a;
      CutOff(a, a % UINT32_MOD);
    }
  }

  /** A number that comes out wrong: two zeros too many and another value. */
  lemma TooLarge()
    ensures var n := TEN8 * (UINT32_MOD + 100); n < UINT64_MOD && Removed64(n) == Some((1, 10)) && WithoutZeros(n) != 1
  {
    var a := UINT32_MOD + 100;
    EightZeros(a);
    TwoZeros(100);
    assert a % 10 == 6;
  }
}
