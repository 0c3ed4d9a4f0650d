/** Reading a decimal number with 32-bit arithmetic that may wrap around. */
module ParseInt {
  import opened Arithmetic
  import opened Strings

  const INT_MAX: nat := 0x7fff_ffff
  const DIGITS10: nat := 4 * 8 * 3 / 10   // digits that always fit an int

  predicate IsDigit(c: char) { '0' <= c <= '9' }

  function Digit(c: char): nat
    requires IsDigit(c)
  {
    c as nat - '0' as nat
  }

  /** What each digit is worth. */
  lemma DigitValues()
    ensures INT_MAX == 2147483647 && DIGITS10 + 1 == 10
    ensures Digit('0') == 0 && Digit('1') == 1 && Digit('2') == 2 && Digit('3') == 3 && Digit('4') == 4
    ensures Digit('5') == 5 && Digit('6') == 6 && Digit('7') == 7 && Digit('8') == 8 && Digit('9') == 9
    ensures forall c :: IsDigit(c) <==> c in "0123456789"
  {
    forall c ensures IsDigit(c) <==> c in "0123456789" {
      if IsDigit(c) { assert "0123456789"[Digit(c)] == c; }
    }
  }

  predicate AllDigits(s: string) { forall i :: 0 <= i < |s| ==> IsDigit(s[i]) }

  /** The number that a string of digits stands for. */
  function Decimal(s: string): nat
    requires AllDigits(s)
  {
    if s == "" then 0 else Decimal(s[..|s| - 1]) * 10 + Digit(s[|s| - 1])
  }

  /** The end of the run of digits that starts at `i`. */
  function RunEnd(s: string, i: nat): (e: nat)
    requires i <= |s|
    ensures i <= e <= |s|
    ensures forall k :: i <= k < e ==> IsDigit(s[k])
    ensures e < |s| ==> !IsDigit(s[e])
    decreases |s| - i
  {
    if i < |s| && IsDigit(s[i]) then RunEnd(s, i + 1) else i
  }

  function Pow10(n: nat): nat { if n == 0 then 1 else 10 * Pow10(n - 1) }

  lemma {:induction false} DecimalBound(s: string)
    requires AllDigits(s)
    ensures Decimal(s) < Pow10(|s|)
  {
    if s == "" {
    } else {
      DecimalBound(s[..|s| - 1]);
    }
  }

  lemma Pow10Values()
    ensures Pow10(9) == 1_000_000_000
  {
    assert Pow10(5) == 100_000;
  }

  lemma WrapStep(a: nat, d: nat)
    ensures ((a % UINT32_MOD) * 10 + d) % UINT32_MOD == (a * 10 + d) % UINT32_MOD
  {
    var q, r := a / UINT32_MOD, a % UINT32_MOD;
    var b := r * 10 + d;
    assert a * 10 + d == (q * 10 + b / UINT32_MOD) * UINT32_MOD + b % UINT32_MOD;
  }

  lemma {:induction false} Monotone(m: nat, n: nat)
    requires m <= n
    ensures Pow10(m) <= Pow10(n)
  {
    if m == n {
    } else {
      Monotone(m, n - 1);
    }
  }

  /** What the reader returns for a run of digits: its value if it has at most ten digits and fits an int. */
  function Parsed(run: string, error: int): int
    requires AllDigits(run)
  {
    if |run| <= DIGITS10 + 1 && Decimal(run) <= INT_MAX then Decimal(run) else error
  }

  lemma DecimalNext(s: string, c: char)
    requires AllDigits(s) && IsDigit(c)
    ensures AllDigits(s + [c]) && Decimal(s + [c]) == Decimal(s) * 10 + Digit(c)
    ensures ((Decimal(s) % UINT32_MOD) * 10 + Digit(c)) % UINT32_MOD == Decimal(s + [c]) % UINT32_MOD
  {
    assert (s + [c])[..|s|] == s;
    WrapStep(Decimal(s), Digit(c));
  }

  lemma SmallIsExact(n: nat)
    requires n < UINT32_MOD
    ensures n % UINT32_MOD == n
  {
  }

  lemma FewDigits(s: string)
    requires AllDigits(s) && |s| <= DIGITS10
    ensures Decimal(s) < 1_000_000_000
  {
    DecimalBound(s);
    Monotone(|s|, DIGITS10);
    Pow10Values();
  }

  /** How a number is printed. */
  function ToDecimal(n: nat): string {
    if n < 10 then [DigitChar(n)] else ToDecimal(n / 10) + [DigitChar(n % 10)]
  }

  function DigitChar(d: nat): (c: char)
    requires d < 10
    ensures IsDigit(c) && Digit(c) == d
  {
    '0' + d as char
  }

  /** What is printed reads back as the same number. */
  lemma {:induction false} DecimalRoundTrip(n: nat)
    ensures AllDigits(ToDecimal(n)) && Decimal(ToDecimal(n)) == n
  {
    if n < 10 {
      DecimalNext("", DigitChar(n));
      assert "" + [DigitChar(n)] == ToDecimal(n);
    } else {
      DecimalRoundTrip(n / 10);
      DecimalNext(ToDecimal(n / 10), DigitChar(n % 10));
    }
  }

  lemma {:induction false} RunEndIs(s: string, i: nat, e: nat)
    requires i <= e <= |s| && AllDigits(s[i..e]) && (e < |s| ==> !IsDigit(s[e]))
    ensures RunEnd(s, i) == e
    decreases e - i
  {
    if i == e {
    } else {
      assert s[i..e][0] == s[i] && s[i + 1..e] == s[i..e][1..];
      RunEndIs(s, i + 1, e);
    }
  }

  /** A printed number starts with a zero only if it is zero, and is one digit then. */
  lemma {:induction false} FirstDigit(n: nat)
    ensures ToDecimal(n) != "" && (ToDecimal(n)[0] == '0' <==> n == 0) && (n == 0 <==> ToDecimal(n) == "0")
  {
    if n < 10 {
    } else {
      FirstDigit(n / 10);
    }
  }

  /** A run of digits without a superfluous zero is the printed form of its value. */
  lemma {:induction false} PrintedRun(run: string)
    requires AllDigits(run) && run != "" && (run[0] != '0' || run == "0")
    ensures run == ToDecimal(Decimal(run))
  {
    var front, last := run[..|run| - 1], run[|run| - 1];
    assert run == front + [last];
    if front == "" {
      assert Decimal(run) == Digit(last);
    } else {
      PrintedRun(front);
      FirstDigit(Decimal(front));
      assert front[0] == run[0];
      assert Decimal(run) / 10 == Decimal(front) && Decimal(run) % 10 == Digit(last);
    }
  }

  lemma {:induction false} PrintedLength(n: nat, k: nat)
    requires 1 <= k && n < Pow10(k)
    ensures |ToDecimal(n)| <= k
  {
    if n < 10 {
    } else {
      assert Pow10(1) == 10;
      PrintedLength(n / 10, k - 1);
    }
  }

  /** A printed number that no digit follows: the run ends with it and has its value, which is read if it fits. */
  lemma PrintedAt(s: string, pos: nat, n: nat, error: int)
    requires StandsAt(s, pos, ToDecimal(n))
    requires var e := pos + |ToDecimal(n)|; e < |s| ==> !IsDigit(s[e])
    ensures var e := pos + |ToDecimal(n)|;
            && pos < e && RunEnd(s, pos) == e && s[pos] == ToDecimal(n)[0]
            && Decimal(s[pos..e]) == n
            && Parsed(s[pos..e], error) == if n <= INT_MAX then n else error
  {
    var e := pos + |ToDecimal(n)|;
    DecimalRoundTrip(n);
    FirstDigit(n);
    RunEndIs(s, pos, e);
    assert s[pos..e][0] == s[pos];
    if n <= INT_MAX {
      Pow10Values();
      assert Pow10(10) == 10 * Pow10(9);
      PrintedLength(n, 10);
    }
  }

  /** One round of the loop; the multiplication and the addition wrap around. */
  function Accumulate(value: nat, c: char): (r: nat)
    requires IsDigit(c)
  {
    (value * 10 + Digit(c)) % UINT32_MOD
  }

  /** The values after and before the last digit of a nonempty run. */
  ghost predicate Accumulated(run: string, value: nat, prev: nat) {
    && run != "" && AllDigits(run) && AllDigits(run[..|run| - 1])
    && value == Decimal(run) % UINT32_MOD && prev == Decimal(run[..|run| - 1]) % UINT32_MOD
  }

  lemma AccumulateNext(run: string, c: char, value: nat)
    requires AllDigits(run) && IsDigit(c) && value == Decimal(run) % UINT32_MOD
    ensures Accumulated(run + [c], Accumulate(value, c), value)
  {
    DecimalNext(run, c);
    assert (run + [c])[..|run + [c]| - 1] == run;
  }

  /** The test for overflow, made once the run has ended. */
  function Verdict(digits: nat, last: char, value: nat, prev: nat, error: int): int
    requires IsDigit(last)
  {
    if digits <= DIGITS10 || (digits == DIGITS10 + 1 && prev * 10 + Digit(last) <= INT_MAX) then value else error
  }

  /** The test, on wrapped values, tells whether the true value fits. */
  lemma VerdictIsParsed(run: string, value: nat, prev: nat, error: int)
    requires Accumulated(run, value, prev)
    ensures Verdict(|run|, run[|run| - 1], value, prev, error) == Parsed(run, error)
  {
    var front, last := run[..|run| - 1], run[|run| - 1];
    assert run == front + [last];
    DecimalNext(front, last);
    if |front| < DIGITS10 {
      FewDigits(run);
      SmallIsExact(Decimal(run));
    } else if |front| == DIGITS10 {
      FewDigits(front);
      SmallIsExact(Decimal(front));
      if Decimal(run) <= INT_MAX { SmallIsExact(Decimal(run)); }
    }
  }

  /** Reads the whole run of digits at `begin`, however long. */
  method ParseNonnegativeInt(s: string, begin: nat, error: int) returns (result: int, end: nat)
    requires begin < |s| && IsDigit(s[begin])
    ensures end == RunEnd(s, begin) && begin < end <= |s|
    ensures result == Parsed(s[begin..end], error)
    ensures var n := Decimal(s[begin..end]); result == if end - begin <= 10 && n <= 2147483647 then n else error
  {
    var value: nat, prev: nat := 0, 0;
    var p := begin;
    ghost var run := "";
    while p == begin || (p != |s| && IsDigit(s[p]))
      invariant begin <= p <= |s| && RunEnd(s, p) == RunEnd(s, begin)
      invariant run == s[begin..p] && AllDigits(run)
      invariant if run == "" then value == 0 else Accumulated(run, value, prev)
      decreases |s| - p
    {
      prev := value;
      value := Accumulate(value, s[p]);
      AccumulateNext(run, s[p], prev);
      run := run + [s[p]];
      p := p + 1;
    }
    VerdictIsParsed(run, value, prev, error);
    result, end := Verdict(p - begin, s[p - 1], value, prev, error), p;
  }
}
