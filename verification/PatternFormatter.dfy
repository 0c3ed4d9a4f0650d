/** Log patterns: compiling a pattern into formatters, and padding. */
module PatternFormatter {
  import opened Arithmetic
  import opened Basics
  import opened ParseInt
  import opened Strings

  const MAX_WIDTH: nat := 64

  datatype Side = Left | Right | Center

  /** `NoPad` is padding that is not enabled. */
  datatype PadInfo = NoPad | Pad(width: nat, side: Side, truncate: bool)

  /** What a pattern is compiled to. A built-in flag goes by one of its letters. */
  datatype Formatter =
    | Chars(text: string)
    | Percent
    | Flag(c: char, pad: PadInfo)
    | Custom(c: char, pad: PadInfo)

  /** The letter that stands for all letters of a flag. */
  function Canonical(c: char): char {
    if c == 'h' then 'b' else if c == 'x' then 'D' else if c == 'X' then 'T' else c
  }

  /** Flags that need the broken-down time. */
  predicate TimeFlag(c: char) {
    c == '+' || c == 'a' || c == 'A' || c == 'b' || c == 'B' || c == 'c' || c == 'C' || c == 'Y' || c == 'D'
    || c == 'm' || c == 'd' || c == 'H' || c == 'I' || c == 'M' || c == 'S' || c == 'p' || c == 'r' || c == 'R'
    || c == 'T' || c == 'z'
  }

  predicate OtherFlag(c: char) {
    c == 'n' || c == 'l' || c == 'L' || c == 't' || c == 'v' || c == 'e' || c == 'f' || c == 'F' || c == 'E'
    || c == 'P' || c == '^' || c == '$' || c == '@' || c == 's' || c == 'g' || c == '#' || c == '!' || c == 'u'
    || c == 'i' || c == 'o' || c == 'O' || c == '&'
  }

  predicate BuiltIn(c: char) { TimeFlag(Canonical(c)) || OtherFlag(Canonical(c)) }

  /** The letters of the built-in flags, those that need the broken-down time, and the letters that mean the same. */
  lemma FlagLetters(c: char)
    ensures BuiltIn(c) <==>
              c in {'+', 'n', 'l', 'L', 't', 'v', 'a', 'A', 'b', 'h', 'B', 'c', 'C', 'Y', 'D', 'x', 'm', 'd', 'H',
                    'I', 'M', 'S', 'e', 'f', 'F', 'E', 'p', 'r', 'R', 'T', 'X', 'z', 'P', '^', '$', '@', 's', 'g',
                    '#', '!', 'u', 'i', 'o', 'O', '&'}
    ensures TimeFlag(Canonical(c)) <==>
              c in {'+', 'a', 'A', 'b', 'h', 'B', 'c', 'C', 'Y', 'D', 'x', 'm', 'd', 'H', 'I', 'M', 'S', 'p', 'r',
                    'R', 'T', 'X', 'z'}
    ensures Canonical('h') == 'b' && Canonical('x') == 'D' && Canonical('X') == 'T'
    ensures c !in {'h', 'x', 'X'} ==> Canonical(c) == c
  {
  }

  predicate NeedsTime(fs: seq<Formatter>) { exists f :: f in fs && f.Flag? && TimeFlag(f.c) }

  /** One flag of these is enough, and nothing else is. */
  lemma NeedsTimeExactly(fs: seq<Formatter>)
    ensures NeedsTime(fs) <==>
              exists f :: f in fs && f.Flag?
                          && f.c in {'+', 'a', 'A', 'b', 'B', 'c', 'C', 'Y', 'D', 'm', 'd', 'H', 'I', 'M', 'S', 'p',
                                     'r', 'R', 'T', 'z'}
  {
  }

  lemma NeedsTimeConcat(a: seq<Formatter>, b: seq<Formatter>)
    ensures NeedsTime(a + b) == (NeedsTime(a) || NeedsTime(b))
  {
    if f :| f in a && f.Flag? && TimeFlag(f.c) { assert f in a + b; }
    if f :| f in b && f.Flag? && TimeFlag(f.c) { assert f in a + b; }
  }

  // ---------------------------------------------------------------- padding specifications

  /** A number as a machine word: the remainder modulo the size of a word. */
  function Wrap(n: nat): nat { if n < UINT64_MOD then n else Wrap(n - UINT64_MOD) }

  lemma {:induction false} WrapIsMod(n: nat)
    ensures Wrap(n) == n % UINT64_MOD
  {
    if n >= UINT64_MOD {
      WrapIsMod(n - UINT64_MOD);
      assert n % UINT64_MOD == (n - UINT64_MOD) % UINT64_MOD;
    }
  }

  /** The padding specification at `pos` and where it ends. A side without a width is skipped. */
  function PadSpec(s: string, pos: nat): (r: (PadInfo, nat))
    requires pos <= |s|
    ensures pos <= r.1 <= |s|
    ensures r.0.Pad? ==> r.0.width <= MAX_WIDTH
  {
    if pos == |s| then (NoPad, pos)
    else
      var side := if s[pos] == '-' then Right else if s[pos] == '=' then Center else Left;
      var p := if side.Left? then pos else pos + 1;
      if p == |s| || !IsDigit(s[p]) then (NoPad, p)
      else
        var end := RunEnd(s, p);
        var width := Wrap(Decimal(s[p..end]));
        var truncate := end < |s| && s[end] == '!';
        (Pad(if width < MAX_WIDTH then width else MAX_WIDTH, side, truncate), if truncate then end + 1 else end)
  }

  lemma WrapNext(a: nat, d: nat)
    ensures (Wrap(a) * 10 + d) % UINT64_MOD == Wrap(a * 10 + d)
  {
    WrapIsMod(a);
    WrapIsMod(a * 10 + d);
    var q, r := a / UINT64_MOD, a % UINT64_MOD;
    var b := r * 10 + d;
    assert a * 10 + d == (q * 10 + b / UINT64_MOD) * UINT64_MOD + b % UINT64_MOD;
  }

  /** The width accumulates modulo the size of a machine word. */
  method ParseWidth(s: string, pos: nat) returns (width: nat, end: nat)
    requires pos < |s| && IsDigit(s[pos])
    ensures end == RunEnd(s, pos) && width == Wrap(Decimal(s[pos..end]))
  {
    width, end := Digit(s[pos]), pos + 1;
    ghost var run := "" + [s[pos]];
    DecimalNext("", s[pos]);
    assert run == s[pos..end];
    while end != |s| && IsDigit(s[end])
      invariant pos < end <= |s| && RunEnd(s, end) == RunEnd(s, pos)
      invariant run == s[pos..end] && AllDigits(run) && width == Wrap(Decimal(run))
    {
      width := (width * 10 + Digit(s[end])) % UINT64_MOD;
      DecimalNext(run, s[end]);
      WrapNext(Decimal(run), Digit(s[end]));
      run := run + [s[end]];
      end := end + 1;
    }
  }

  method HandlePadspec(s: string, pos: nat) returns (pad: PadInfo, it: nat)
    requires pos <= |s|
    ensures (pad, it) == PadSpec(s, pos)
  {
    it := pos;
    if it == |s| {
      return NoPad, it;
    }
    var side := Left;
    if s[it] == '-' {
      side := Right;
      it := it + 1;
    } else if s[it] == '=' {
      side := Center;
      it := it + 1;
    }
    if it == |s| || !IsDigit(s[it]) {
      return NoPad, it;
    }
    var width;
    width, it := ParseWidth(s, it);
    var truncate := false;
    if it != |s| && s[it] == '!' {
      truncate := true;
      it := it + 1;
    }
    pad := Pad(if width < MAX_WIDTH then width else MAX_WIDTH, side, truncate);
  }

  // ---------------------------------------------------------------- compilation

  /** What a flag is compiled to. A custom flag hides a built-in one. An unknown flag appears as it is, except that
      after a truncation mark the mark is taken for the function-name flag. */
  function FlagFormatters(c: char, pad: PadInfo, custom: set<char>): seq<Formatter> {
    if c in custom then [Custom(c, pad)]
    else if c == '%' then [Percent]
    else if BuiltIn(c) then [Flag(Canonical(c), pad)]
    else if pad.Pad? && pad.truncate then [Flag('!', pad.(truncate := false)), Chars([c])]
    else [Chars(['%', c])]
  }

  /** The same by the table of letters. */
  lemma FlagMeans(c: char, pad: PadInfo, custom: set<char>)
    ensures c in custom ==> FlagFormatters(c, pad, custom) == [Custom(c, pad)]
    ensures c !in custom && c == '%' ==> FlagFormatters(c, pad, custom) == [Percent]
    ensures c !in custom && BuiltIn(c) ==> FlagFormatters(c, pad, custom) == [Flag(Canonical(c), pad)]
    ensures c !in custom && c != '%' && !BuiltIn(c) ==>
              FlagFormatters(c, pad, custom) ==
                match pad
                case Pad(width, side, true) => [Flag('!', Pad(width, side, false)), Chars([c])]
                case _ => [Chars(['%', c])]
  {
  }

  function Pending(chars: string): seq<Formatter> { if chars == "" then [] else [Chars(chars)] }

  /** The formatters for the pattern from `pos` on, when `chars` is the plain text since the last flag. */
  function Compiled(s: string, pos: nat, custom: set<char>, chars: string): seq<Formatter>
    requires pos <= |s|
    decreases |s| - pos
  {
    if pos == |s| then Pending(chars)
    else if s[pos] == '%' then
      var (pad, end) := PadSpec(s, pos + 1);
      Pending(chars)
      + (if end == |s| then [] else FlagFormatters(s[end], pad, custom) + Compiled(s, end + 1, custom, ""))
    else Compiled(s, pos + 1, custom, chars + [s[pos]])
  }

  lemma CompiledFlag(s: string, pos: nat, custom: set<char>, chars: string)
    requires pos < |s| && s[pos] == '%' && PadSpec(s, pos + 1).1 < |s|
    ensures var (pad, e) := PadSpec(s, pos + 1);
            Compiled(s, pos, custom, chars) ==
              Pending(chars) + (FlagFormatters(s[e], pad, custom) + Compiled(s, e + 1, custom, ""))
  {
  }

  lemma CompiledText(s: string, pos: nat, custom: set<char>, chars: string)
    requires pos < |s| && s[pos] != '%'
    ensures Compiled(s, pos, custom, chars) == Compiled(s, pos + 1, custom, chars + [s[pos]])
  {
  }

  /** A flag without a letter at the end is dropped. */
  lemma CompiledEnd(s: string, pos: nat, custom: set<char>, chars: string)
    requires pos < |s| && s[pos] == '%' && PadSpec(s, pos + 1).1 == |s|
    ensures Compiled(s, pos, custom, chars) == Pending(chars)
  {
    assert Pending(chars) + [] == Pending(chars);
  }

  /** What one more character or flag adds to the formatters in `done`. */
  lemma CompiledNext(done: seq<Formatter>, s: string, pos: nat, custom: set<char>, chars: string)
    requires pos < |s|
    ensures var all := done + Compiled(s, pos, custom, chars);
            if s[pos] != '%' then all == done + Compiled(s, pos + 1, custom, chars + [s[pos]])
            else
              var (pad, e) := PadSpec(s, pos + 1);
              if e == |s| then all == done + Pending(chars)
              else all == ((done + Pending(chars)) + FlagFormatters(s[e], pad, custom)) + Compiled(s, e + 1, custom, "")
  {
    if s[pos] != '%' {
      CompiledText(s, pos, custom, chars);
    } else {
      var (pad, e) := PadSpec(s, pos + 1);
      if e < |s| {
        CompiledFlag(s, pos, custom, chars);
        FourParts(done, Pending(chars), FlagFormatters(s[e], pad, custom), Compiled(s, e + 1, custom, ""));
      } else {
        CompiledEnd(s, pos, custom, chars);
      }
    }
  }

  lemma FourParts<T>(a: seq<T>, b: seq<T>, c: seq<T>, d: seq<T>)
    ensures a + (b + (c + d)) == ((a + b) + c) + d
  {
  }

  class PatternFormatter {
    var formatters: seq<Formatter>
    var needLocaltime: bool
    const customHandlers: set<char>

    constructor (pattern: string, customHandlers: set<char>)
      ensures this.customHandlers == customHandlers && formatters == Compiled(pattern, 0, customHandlers, "")
      ensures needLocaltime == NeedsTime(formatters)
    {
      this.customHandlers := customHandlers;
      formatters, needLocaltime := [], false;
      new;
      CompilePattern(pattern);
    }

    method SetPattern(pattern: string)
      modifies this
      ensures formatters == Compiled(pattern, 0, customHandlers, "") && needLocaltime == NeedsTime(formatters)
    {
      needLocaltime := false;
      CompilePattern(pattern);
    }

    method HandleFlag(flag: char, pad: PadInfo)
      modifies this
      ensures formatters == old(formatters) + FlagFormatters(flag, pad, customHandlers)
      ensures needLocaltime == (old(needLocaltime) || NeedsTime(FlagFormatters(flag, pad, customHandlers)))
    {
      ghost var made := FlagFormatters(flag, pad, customHandlers);
      if flag in customHandlers {
        formatters := formatters + [Custom(flag, pad)];
      } else if flag == '%' {
        formatters := formatters + [Percent];
      } else if BuiltIn(flag) {
        formatters := formatters + [Flag(Canonical(flag), pad)];
        assert made[0] == Flag(Canonical(flag), pad);
        if TimeFlag(Canonical(flag)) { needLocaltime := true; }
      } else if pad.Pad? && pad.truncate {
        formatters := formatters + [Flag('!', pad.(truncate := false))];
        formatters := formatters + [Chars([flag])];
      } else {
        formatters := formatters + [Chars(['%', flag])];
      }
    }

    method CompilePattern(pattern: string)
      modifies this
      ensures formatters == Compiled(pattern, 0, customHandlers, "")
      ensures needLocaltime == (old(needLocaltime) || NeedsTime(formatters))
    {
      var userChars := "";
      formatters := [];
      var it := 0;
      ghost var all := Compiled(pattern, 0, customHandlers, "");
      while it != |pattern|
        invariant 0 <= it <= |pattern|
        invariant all == formatters + Compiled(pattern, it, customHandlers, userChars)
        invariant needLocaltime == (old(needLocaltime) || NeedsTime(formatters))
        decreases |pattern| - it
      {
        CompiledNext(formatters, pattern, it, customHandlers, userChars);
        if pattern[it] == '%' {
          FlushChars(userChars);
          userChars := "";
          var pad;
          pad, it := HandlePadspec(pattern, it + 1);
          if it == |pattern| { break; }
          NeedsTimeConcat(formatters, FlagFormatters(pattern[it], pad, customHandlers));
          HandleFlag(pattern[it], pad);
        } else {
          userChars := userChars + [pattern[it]];
        }
        it := it + 1;
      }
      FlushChars(userChars);
    }

    /** Appends the plain text found so far, if there is any. */
    method FlushChars(userChars: string)
      modifies this`formatters
      ensures formatters == old(formatters) + Pending(userChars) && NeedsTime(formatters) == NeedsTime(old(formatters))
    {
      NeedsTimeConcat(formatters, Pending(userChars));
      if userChars != "" {
        formatters := formatters + [Chars(userChars)];
      }
      assert formatters == old(formatters) + Pending(userChars);
    }
  }

  // ---------------------------------------------------------------- round trip

  function Mark(side: Side): string {
    match side
    case Left => ""
    case Right => "-"
    case Center => "="
  }

  function PrintPad(pad: PadInfo): string {
    match pad
    case NoPad => ""
    case Pad(width, side, truncate) => Mark(side) + ToDecimal(width) + if truncate then "!" else ""
  }

  function Print(f: Formatter): string {
    match f
    case Chars(text) => text
    case Percent => "%%"
    case Flag(c, pad) => "%" + PrintPad(pad) + [c]
    case Custom(c, pad) => "%" + PrintPad(pad) + [c]
  }

  function PrintAll(fs: seq<Formatter>): string {
    if fs == [] then "" else Print(fs[0]) + PrintAll(fs[1..])
  }

  /** Whether a flag letter can follow this padding without being taken for a part of it. */
  predicate Follows(c: char, pad: PadInfo) {
    match pad
    case NoPad => !IsDigit(c) && c != '-' && c != '='
    case Pad(width, _, truncate) => width <= MAX_WIDTH && (truncate || (!IsDigit(c) && c != '!'))
  }

  predicate Printable(f: Formatter, custom: set<char>) {
    match f
    case Chars(text) => text != "" && '%' !in text
    case Percent => '%' !in custom
    case Flag(c, pad) => c !in custom && BuiltIn(c) && Canonical(c) == c && Follows(c, pad)
    case Custom(c, pad) => c in custom && Follows(c, pad)
  }

  /** Printable formatters, no two literals in a row. */
  predicate WellFormed(fs: seq<Formatter>, custom: set<char>) {
    && (forall i :: 0 <= i < |fs| ==> Printable(fs[i], custom))
    && (forall i :: 0 < i < |fs| ==> !(fs[i - 1].Chars? && fs[i].Chars?))
  }

  /** The digits of a printed width, and nothing else, are read back. */
  lemma WidthReadBack(s: string, p: nat, e: nat, width: nat)
    requires width <= MAX_WIDTH && p <= e <= |s| && s[p..e] == ToDecimal(width)
    ensures p < e && AllDigits(s[p..e]) && Decimal(s[p..e]) % 0x1_0000_0000_0000_0000 == width
  {
    DecimalRoundTrip(width);
    FirstDigit(width);
  }

  /** A padding specification laid out at `pos`: a mark for the side, the width from `p` to `q`, a truncation mark. A
      width is a machine word, and at most 64. */
  lemma PadLaidOut(s: string, pos: nat, side: Side, truncate: bool, p: nat, q: nat)
    requires pos <= p < q <= |s| && p == pos + (if side == Left then 0 else 1)
    requires side == Right ==> s[pos] == '-'
    requires side == Center ==> s[pos] == '='
    requires AllDigits(s[p..q]) && (q < |s| ==> !IsDigit(s[q])) && (truncate <==> q < |s| && s[q] == '!')
    ensures var n := Decimal(s[p..q]) % 0x1_0000_0000_0000_0000;
            PadSpec(s, pos) == (Pad(if n < 64 then n else 64, side, truncate), if truncate then q + 1 else q)
  {
    assert s[p..q][0] == s[p];
    RunEndIs(s, p, q);
    WrapIsMod(Decimal(s[p..q]));
  }

  /** Without a digit there is no padding; a mark for the side is skipped. */
  lemma NoPadding(s: string, pos: nat)
    requires pos <= |s|
    ensures pos == |s| || (s[pos] != '-' && s[pos] != '=' && !IsDigit(s[pos])) ==> PadSpec(s, pos) == (NoPad, pos)
    ensures pos < |s| && (s[pos] == '-' || s[pos] == '=') && (pos + 1 == |s| || !IsDigit(s[pos + 1])) ==>
              PadSpec(s, pos) == (NoPad, pos + 1)
  {
  }

  lemma MarkOf(side: Side)
    ensures Mark(side) == match side case Left => [] case Right => ['-'] case Center => ['=']
  {
  }

  lemma PadParts(s: string, pos: nat, pad: PadInfo, m: string, d: string, p: nat, q: nat)
    requires pad.Pad? && m == Mark(pad.side) && d == ToDecimal(pad.width) && p == pos + |m| && q == p + |d|
    requires pos + |PrintPad(pad)| <= |s| && s[pos..pos + |PrintPad(pad)|] == PrintPad(pad)
    ensures q <= |s| && s[p..q] == d && pos + |PrintPad(pad)| == (if pad.truncate then q + 1 else q)
    ensures p == pos + (if pad.side == Left then 0 else 1)
    ensures pos < |s| && (pad.side == Right ==> s[pos] == '-') && (pad.side == Center ==> s[pos] == '=')
    ensures pad.truncate ==> q < |s| && s[q] == '!'
  {
    var x: string := if pad.truncate then ['!'] else [];
    assert PrintPad(pad) == m + d + x;
    ThreeParts(s, pos, m, d, x);
    MarkOf(pad.side);
    assert pad.side != Left ==> s[pos..p][0] == s[pos];
    assert pad.truncate ==> s[q..q + |x|][0] == s[q];
  }

  lemma PadReadBack(s: string, pos: nat, pad: PadInfo, c: char)
    requires Follows(c, pad)
    requires var e := pos + |PrintPad(pad)|; e < |s| && s[pos..e] == PrintPad(pad) && s[e] == c
    ensures PadSpec(s, pos) == (pad, pos + |PrintPad(pad)|)
  {
    if pad.Pad? {
      var m, d := Mark(pad.side), ToDecimal(pad.width);
      var p, q := pos + |m|, pos + |m| + |d|;
      PadParts(s, pos, pad, m, d, p, q);
      WidthReadBack(s, p, q, pad.width);
      PadLaidOut(s, pos, pad.side, pad.truncate, p, q);
    }
  }

  lemma {:induction false} TextScan(s: string, a: nat, b: nat, custom: set<char>, chars: string)
    requires a <= b <= |s| && '%' !in s[a..b]
    ensures Compiled(s, a, custom, chars) == Compiled(s, b, custom, chars + s[a..b])
    decreases b - a
  {
    if a == b {
      assert chars + s[a..b] == chars;
    } else {
      assert s[a..b][0] == s[a] && s[a + 1..b] == s[a..b][1..];
      TextScan(s, a + 1, b, custom, chars + [s[a]]);
      assert chars + s[a..b] == chars + [s[a]] + s[a + 1..b];
    }
  }

  /** The letter and the padding that a flag is printed with. */
  function Letter(f: Formatter): (char, PadInfo)
    requires !f.Chars?
  {
    if f.Percent? then ('%', NoPad) else (f.c, f.pad)
  }

  lemma PartsOf(s: string, pos: nat, printed: string, w: string, c: char)
    requires printed == ['%'] + w + [c] && pos + |printed| <= |s| && s[pos..pos + |printed|] == printed
    ensures |printed| == |w| + 2 && s[pos] == '%' && s[pos + 1..pos + 1 + |w|] == w && s[pos + 1 + |w|] == c
  {
    ThreeParts(s, pos, ['%'], w, [c]);
    assert s[pos..pos + 1][0] == '%';
    assert s[pos + 1 + |w|..pos + 1 + |w| + 1][0] == c;
  }

  lemma PrintedAs(f: Formatter)
    requires !f.Chars?
    ensures var (c, pad) := Letter(f); Print(f) == ['%'] + PrintPad(pad) + [c]
  {
  }

  lemma LetterFollows(f: Formatter, custom: set<char>)
    requires Printable(f, custom) && !f.Chars?
    ensures var (c, pad) := Letter(f); Follows(c, pad) && FlagFormatters(c, pad, custom) == [f]
  {
  }

  lemma FlagAt(s: string, pos: nat, next: nat, f: Formatter, custom: set<char>) returns (pad: PadInfo)
    requires Printable(f, custom) && !f.Chars?
    requires next == pos + |Print(f)| <= |s| && s[pos..next] == Print(f)
    ensures pos + 1 < next && s[pos] == '%'
    ensures PadSpec(s, pos + 1) == (pad, next - 1) && FlagFormatters(s[next - 1], pad, custom) == [f]
  {
    var c := Letter(f).0;
    pad := Letter(f).1;
    PrintedAs(f);
    PartsOf(s, pos, Print(f), PrintPad(pad), c);
    LetterFollows(f, custom);
    PadReadBack(s, pos + 1, pad, c);
  }

  lemma FlagReadBack(s: string, pos: nat, next: nat, fs: seq<Formatter>, custom: set<char>, chars: string)
    requires fs != [] && Printable(fs[0], custom) && !fs[0].Chars?
    requires next == pos + |Print(fs[0])| <= |s| && s[pos..next] == Print(fs[0])
    requires Compiled(s, next, custom, "") == fs[1..]
    ensures Compiled(s, pos, custom, chars) == Pending(chars) + fs
  {
    var pad := FlagAt(s, pos, next, fs[0], custom);
    FlagCompiled(s, pos, next, pad, fs, custom, chars);
  }

  lemma FlagCompiled(s: string, pos: nat, next: nat, pad: PadInfo, fs: seq<Formatter>, custom: set<char>, chars: string)
    requires pos + 1 < next <= |s| && s[pos] == '%' && PadSpec(s, pos + 1) == (pad, next - 1)
    requires fs != [] && FlagFormatters(s[next - 1], pad, custom) == [fs[0]] && Compiled(s, next, custom, "") == fs[1..]
    ensures Compiled(s, pos, custom, chars) == Pending(chars) + fs
  {
    CompiledFlag(s, pos, custom, chars);
    assert [fs[0]] + fs[1..] == fs;
  }

  lemma SplitPrinted(before: string, fs: seq<Formatter>)
    requires fs != []
    ensures var s, mid := before + PrintAll(fs), before + Print(fs[0]);
            && s == mid + PrintAll(fs[1..])
            && |mid| == |before| + |Print(fs[0])| <= |s| && s[|before|..|mid|] == Print(fs[0])
  {
  }

  lemma {:induction false} RoundTripFrom(before: string, fs: seq<Formatter>, custom: set<char>, chars: string)
    requires WellFormed(fs, custom) && (fs != [] && fs[0].Chars? ==> chars == "")
    ensures Compiled(before + PrintAll(fs), |before|, custom, chars) == Pending(chars) + fs
    decreases |fs|, 1
  {
    if fs == [] {
      assert before + "" == before;
      assert Pending(chars) + [] == Pending(chars);
    } else if fs[0].Chars? {
      TextThenRest(before, fs, custom);
    } else {
      FlagThenRest(before, fs, custom, chars);
    }
  }

  lemma {:induction false} TextThenRest(before: string, fs: seq<Formatter>, custom: set<char>)
    requires WellFormed(fs, custom) && fs != [] && fs[0].Chars?
    ensures Compiled(before + PrintAll(fs), |before|, custom, "") == Pending("") + fs
    decreases |fs|, 0
  {
    var text, rest := fs[0].text, fs[1..];
    var s, mid := before + PrintAll(fs), before + text;
    SplitPrinted(before, fs);
    WellFormedRest(fs, custom);
    RoundTripFrom(mid, rest, custom, text);
    TextScan(s, |before|, |mid|, custom, "");
    PrependNothing(text);
    TextFirst(fs);
  }

  lemma PrependNothing(text: string)
    ensures "" + text == text
  {
  }

  lemma TextFirst(fs: seq<Formatter>)
    requires fs != [] && fs[0].Chars? && fs[0].text != ""
    ensures Pending(fs[0].text) + fs[1..] == fs == Pending("") + fs
  {
  }

  lemma {:induction false} FlagThenRest(before: string, fs: seq<Formatter>, custom: set<char>, chars: string)
    requires WellFormed(fs, custom) && fs != [] && !fs[0].Chars?
    ensures Compiled(before + PrintAll(fs), |before|, custom, chars) == Pending(chars) + fs
    decreases |fs|, 0
  {
    var mid := before + Print(fs[0]);
    SplitPrinted(before, fs);
    WellFormedRest(fs, custom);
    RoundTripFrom(mid, fs[1..], custom, "");
    NothingPending(fs[1..]);
    FlagReadBack(before + PrintAll(fs), |before|, |mid|, fs, custom, chars);
  }

  lemma NothingPending(fs: seq<Formatter>)
    ensures Pending("") + fs == fs
  {
  }

  lemma WellFormedRest(fs: seq<Formatter>, custom: set<char>)
    requires WellFormed(fs, custom) && fs != []
    ensures WellFormed(fs[1..], custom) && Printable(fs[0], custom)
    ensures fs[0].Chars? && fs[1..] != [] ==> !fs[1..][0].Chars?
  {
  }

  /** Compiling what formatters are printed as gives the same formatters back. */
  lemma RoundTrip(fs: seq<Formatter>, custom: set<char>)
    requires WellFormed(fs, custom)
    ensures Compiled(PrintAll(fs), 0, custom, "") == fs
  {
    RoundTripFrom("", fs, custom, "");
    assert "" + PrintAll(fs) == PrintAll(fs);
    assert Pending("") + fs == fs;
  }

  // ---------------------------------------------------------------- padding

  predicate Narrow(f: Formatter) { (f.Flag? || f.Custom?) && f.pad.Pad? ==> f.pad.width <= MAX_WIDTH }

  /** No compiled formatter asks for more padding than there are spaces to take it from. */
  lemma {:induction false} CompiledNarrow(s: string, pos: nat, custom: set<char>, chars: string)
    requires pos <= |s|
    ensures forall i :: 0 <= i < |Compiled(s, pos, custom, chars)| ==> Narrow(Compiled(s, pos, custom, chars)[i])
    decreases |s| - pos
  {
    if pos == |s| {
    } else {
      if s[pos] == '%' {
        var end := PadSpec(s, pos + 1).1;
        if end < |s| { CompiledNarrow(s, end + 1, custom, ""); }
      } else {
        CompiledNarrow(s, pos + 1, custom, chars + [s[pos]]);
      }
    }
  }

  function Spaces(n: nat): string { seq(n, _ => ' ') }

  /** Text of `n` characters in a field: spaces before, the text or its start, spaces after. */
  function Fit(text: string, pad: PadInfo): string
    requires pad.Pad?
  {
    if |text| <= pad.width then
      var extra := pad.width - |text|;
      var before := match pad.side case Left => extra case Center => extra / 2 case Right => 0;
      Spaces(before) + text + Spaces(extra - before)
    else if pad.truncate then text[..pad.width]
    else text
  }

  /** A short text stands at the right, at the left or in the middle of its field, the odd space after it; a long one is
      cut at its end, or left alone. */
  lemma FitExactly(text: string, pad: PadInfo)
    requires pad.Pad?
    ensures |text| <= pad.width ==>
              var extra := pad.width - |text|;
              && (pad.side == Left ==> Fit(text, pad) == seq(extra, _ => ' ') + text)
              && (pad.side == Right ==> Fit(text, pad) == text + seq(extra, _ => ' '))
              && (pad.side == Center ==>
                    Fit(text, pad) == seq(extra / 2, _ => ' ') + text + seq((extra + 1) / 2, _ => ' '))
    ensures |text| > pad.width ==> Fit(text, pad) == if pad.truncate then text[..pad.width] else text
  {
  }

  lemma FitLength(text: string, pad: PadInfo)
    requires pad.Pad?
    ensures |Fit(text, pad)| == if |text| <= pad.width || pad.truncate then pad.width else |text|
  {
  }

  /** The spaces before a text that is declared to be `size` characters long. */
  function SpacesBefore(size: nat, pad: PadInfo): nat
    requires pad.Pad?
  {
    if size >= pad.width then 0
    else match pad.side case Left => pad.width - size case Center => (pad.width - size) / 2 case Right => 0
  }

  /** The buffer after a field: the padder goes by the declared size, whatever the text is. Truncation cuts as many
      characters off the end of the buffer as the declared size is above the width. */
  function Field(buffer: string, text: string, size: nat, pad: PadInfo): Option<string>
    requires pad.Pad?
  {
    var extra := pad.width - size;
    var before := SpacesBefore(size, pad);
    if extra >= 0 then Some(buffer + Spaces(before) + text + Spaces(extra - before))
    else if !pad.truncate then Some(buffer + text)
    else if |buffer| + |text| + extra < 0 then None   // a resize to a negative size
    else Some((buffer + text)[..|buffer| + |text| + extra])
  }

  /** What is appended for any declared size: the spaces that it lacks to the width, before, around or after the text;
      or the text without as many characters at the end as it exceeds the width by, if that is asked for and there are
      as many. */
  lemma FieldExactly(buffer: string, text: string, size: nat, pad: PadInfo)
    requires pad.Pad?
    ensures size <= pad.width ==>
              var extra := pad.width - size;
              var before := if pad.side == Left then extra else if pad.side == Center then extra / 2 else 0;
              Field(buffer, text, size, pad)
                == Some(buffer + seq(before, _ => ' ') + text + seq(extra - before, _ => ' '))
    ensures size > pad.width && !pad.truncate ==> Field(buffer, text, size, pad) == Some(buffer + text)
    ensures size > pad.width && pad.truncate ==>
              var over := size - pad.width;
              Field(buffer, text, size, pad) ==
                if over <= |buffer + text| then Some((buffer + text)[..|buffer + text| - over]) else None
  {
    assert forall n: nat :: Spaces(n) == seq(n, _ => ' ');
  }

  /** With the right size the field is the text, fitted. */
  lemma FieldIsFit(buffer: string, text: string, pad: PadInfo)
    requires pad.Pad?
    ensures Field(buffer, text, |text|, pad) == Some(buffer + Fit(text, pad))
  {
    var extra := pad.width - |text|;
    if extra >= 0 {
      var before := SpacesBefore(|text|, pad);
      FourParts(buffer, Spaces(before), text, Spaces(extra - before));
      assert Spaces(before) + text + Spaces(extra - before) == Spaces(before) + (text + Spaces(extra - before));
    } else if pad.truncate {
      assert (buffer + text)[..|buffer| + pad.width] == buffer + text[..pad.width];
    }
  }

  /** A padded or cut field has the width asked for exactly when the declared size is right; else it is off by the
      error. */
  lemma FieldWidth(buffer: string, text: string, size: nat, pad: PadInfo)
    requires pad.Pad? && (size <= pad.width || pad.truncate) && Field(buffer, text, size, pad).Some?
    ensures |Field(buffer, text, size, pad).value| == |buffer| + pad.width + |text| - size
  {
  }

  /** The date and time flag declares 24 characters; with a day of one digit it has 23, and a column is missing. */
  lemma DateTimeOneShort(buffer: string, text: string, pad: PadInfo)
    requires pad.Pad? && 24 <= pad.width && |text| == 23
    ensures Field(buffer, text, 24, pad).Some?
    ensures |Field(buffer, text, 24, pad).value| == |buffer| + pad.width - 1
  {
    FieldWidth(buffer, text, 24, pad);
  }

  class MemoryBuf {
    var data: string

    constructor ()
      ensures data == ""
    {
      data := "";
    }
  }

  /** Pads what is appended to `dest` between its construction and its destruction. */
  class ScopedPadder {
    const pad: PadInfo
    const dest: MemoryBuf
    var remaining: int

    constructor (wrappedSize: nat, pad: PadInfo, dest: MemoryBuf)
      requires pad.Pad? && pad.width <= MAX_WIDTH
      modifies dest
      ensures this.pad == pad && this.dest == dest
      ensures var extra := pad.width - wrappedSize;
              var before := SpacesBefore(wrappedSize, pad);
              dest.data == old(dest.data) + Spaces(before) && remaining == extra - before
    {
      this.pad, this.dest := pad, dest;
      this.remaining := pad.width - wrappedSize;
      new;
      if remaining <= 0 {
        return;
      }
      if pad.side == Left {
        PadIt(remaining);
        remaining := 0;
      } else if pad.side == Center {
        var half := remaining / 2;
        var reminder := remaining % 2;
        PadIt(half);
        remaining := half + reminder;
      }
    }

    /** The spaces come from a literal of `MAX_WIDTH` of them. */
    method PadIt(count: nat)
      requires count <= MAX_WIDTH
      modifies dest
      ensures dest.data == old(dest.data) + Spaces(count)
    {
      dest.data := dest.data + Spaces(MAX_WIDTH)[..count];
      assert Spaces(MAX_WIDTH)[..count] == Spaces(count);
    }

    /** The destructor. It fails if it would have to cut off more than there is. */
    method Close() returns (ok: bool)
      requires pad.Pad? && remaining <= MAX_WIDTH
      modifies dest
      ensures ok <==> remaining >= 0 || !pad.truncate || -remaining <= |old(dest.data)|
      ensures dest.data == if remaining >= 0 then old(dest.data) + Spaces(remaining)
                           else if pad.truncate && ok then old(dest.data)[..|old(dest.data)| + remaining]
                           else old(dest.data)
    {
      ok := true;
      if remaining >= 0 {
        PadIt(remaining);
      } else if pad.truncate {
        var newSize := |dest.data| + remaining;
        ok := newSize >= 0;
        if ok { dest.data := dest.data[..newSize]; }
      }
    }
  }

  /** What a flag that uses the padder does with one piece of text: it declares a size, appends the text and leaves the
      rest to the padder. */
  method FormatField(text: string, size: nat, pad: PadInfo, dest: MemoryBuf) returns (ok: bool)
    requires pad.Pad? && pad.width <= MAX_WIDTH
    modifies dest
    ensures ok <==> Field(old(dest.data), text, size, pad).Some?
    ensures ok ==> dest.data == Field(old(dest.data), text, size, pad).value
  {
    var p := new ScopedPadder(size, pad, dest);
    dest.data := dest.data + text;
    ok := p.Close();
  }
}
