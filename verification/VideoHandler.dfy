/** Recorded segments: which of them make up an event's video, and which are deleted when they are old. */
module VideoHandler {
  import opened Basics
  import opened ParseInt

  predicate IsSpace(c: char) { c == ' ' || '\U{0009}' <= c <= '\U{000D}' }

  function SkipSpaces(s: string, i: nat): (k: nat)
    requires i <= |s|
    ensures i <= k <= |s| && (k < |s| ==> !IsSpace(s[k]))
    decreases |s| - i
  {
    if i < |s| && IsSpace(s[i]) then SkipSpaces(s, i + 1) else i
  }

  predicate IsSign(c: char) { c == '-' || c == '+' }

  /** The end of the sign at `i`, if there is one. */
  function AfterSign(s: string, i: nat): (j: nat)
    requires i <= |s|
    ensures i <= j <= |s|
  {
    if i < |s| && IsSign(s[i]) then i + 1 else i
  }

  /** A run of digits as an int with the given sign, unless it is none. */
  function Signed(run: string, negative: bool): Option<int>
    requires AllDigits(run)
  {
    var value: int := Decimal(run);
    var n := if negative then 0 - value else value;
    if run != "" && 0 - INT_MAX - 1 <= n <= INT_MAX then Some(n) else None
  }

  /** `stoi`: white space, a sign, digits; whatever follows is ignored. None stands for the exception that is thrown
      when there is no digit or the number is no int. */
  function Stoi(s: string): Option<int> {
    var i := SkipSpaces(s, 0);
    var j := AfterSign(s, i);
    Signed(s[j..RunEnd(s, j)], i < |s| && s[i] == '-')
  }

  /** Nothing but blanks, tabs and line ends of any kind. */
  predicate White(s: string) {
    forall k :: 0 <= k < |s| ==> s[k] in {' ', '\t', '\n', '\U{000B}', '\U{000C}', '\r'}
  }

  /** `s` is white space, a sign or none, digits and whatever does not go on with a digit; `n` is the number. */
  predicate Laid(s: string, white: string, sign: string, digits: string, rest: string, n: int) {
    && s == white + (sign + (digits + rest))
    && White(white) && (sign == "" || sign == "-" || sign == "+")
    && digits != "" && AllDigits(digits) && (rest != "" ==> !IsDigit(rest[0]))
    && n == (if sign == "-" then -1 else 1) * Decimal(digits)
  }

  ghost predicate Spells(s: string, n: int) {
    exists white, sign, digits, rest :: Laid(s, white, sign, digits, rest, n)
  }

  lemma {:induction false} SpacesSkipped(s: string, i: nat, k: nat)
    requires i <= k <= |s| && (forall j :: i <= j < k ==> IsSpace(s[j])) && (k < |s| ==> !IsSpace(s[k]))
    ensures SkipSpaces(s, i) == k
    decreases k - i
  {
    if i == k {
    } else {
      SpacesSkipped(s, i + 1, k);
    }
  }

  lemma {:induction false} SkippedAreSpaces(s: string, i: nat)
    requires i <= |s|
    ensures forall j :: i <= j < SkipSpaces(s, i) ==> IsSpace(s[j])
    decreases |s| - i
  {
    if i < |s| && IsSpace(s[i]) {
      SkippedAreSpaces(s, i + 1);
    } else {
    }
  }

  lemma LaidIsRead(s: string, white: string, sign: string, digits: string, rest: string, n: int)
    requires Laid(s, white, sign, digits, rest, n)
    ensures Stoi(s) == if -2147483648 <= n <= 2147483647 then Some(n) else None
  {
    var i := |white|;
    var j := i + |sign|;
    var e := j + |digits|;
    PartsAt(s, white, sign, digits, rest);
    SpacesSkipped(s, 0, i);
    RunEndIs(s, j, e);
  }

  lemma PartsAt(s: string, white: string, sign: string, digits: string, rest: string)
    requires s == white + (sign + (digits + rest))
    ensures var i := |white|;
            var j := i + |sign|;
            var e := j + |digits|;
            && e <= |s| && s[j..e] == digits && (forall k :: 0 <= k < i ==> s[k] == white[k])
            && (sign != "" ==> s[i] == sign[0]) && (digits != "" ==> s[j] == digits[0])
            && (rest != "" ==> s[e] == rest[0]) && (rest == "" ==> e == |s|)
  {
  }

  lemma ReadIsLaid(s: string, n: int)
    requires Stoi(s) == Some(n)
    ensures Spells(s, n)
  {
    var i := SkipSpaces(s, 0);
    var j := AfterSign(s, i);
    var e := RunEnd(s, j);
    WhiteSkipped(s, i);
    SignAt(s, i, j);
    RunIsDigits(s, j);
    SignedIs(s[j..e], i < |s| && s[i] == '-', n);
    LaidOut(s, i, j, e, n);
  }

  lemma LaidOut(s: string, i: nat, j: nat, e: nat, n: int)
    requires i <= j <= e <= |s| && White(s[..i]) && (s[i..j] == "" || s[i..j] == "-" || s[i..j] == "+")
    requires s[j..e] != "" && AllDigits(s[j..e]) && (e < |s| ==> !IsDigit(s[e]))
    requires n == (if s[i..j] == "-" then -1 else 1) * Decimal(s[j..e])
    ensures Spells(s, n)
  {
    FourSlices(s, i, j, e);
    assert e < |s| ==> s[e..][0] == s[e];
    assert Laid(s, s[..i], s[i..j], s[j..e], s[e..], n);
  }

  lemma ReadFits(s: string, n: int)
    requires Stoi(s) == Some(n)
    ensures -2147483648 <= n <= 2147483647
  {
  }

  lemma WhiteSkipped(s: string, i: nat)
    requires i == SkipSpaces(s, 0)
    ensures White(s[..i])
  {
    SkippedAreSpaces(s, 0);
  }

  lemma SignAt(s: string, i: nat, j: nat)
    requires i <= |s| && j == AfterSign(s, i)
    ensures s[i..j] == "" || s[i..j] == "-" || s[i..j] == "+"
    ensures s[i..j] == "-" <==> i < |s| && s[i] == '-'
  {
    assert j == i + 1 ==> s[i..j] == [s[i]];
  }

  lemma RunIsDigits(s: string, j: nat)
    requires j <= |s|
    ensures AllDigits(s[j..RunEnd(s, j)])
  {
  }

  lemma SignedIs(run: string, negative: bool, n: int)
    requires AllDigits(run) && Signed(run, negative) == Some(n)
    ensures run != "" && n == (if negative then -1 else 1) * Decimal(run) && -2147483648 <= n <= 2147483647
  {
  }

  lemma FourSlices(s: string, i: nat, j: nat, e: nat)
    requires i <= j <= e <= |s|
    ensures s == s[..i] + (s[i..j] + (s[j..e] + s[e..]))
  {
  }

  /** A string is read as `n` exactly if it spells `n` and `n` is an int. */
  lemma StoiExactlyWhen(s: string, n: int)
    ensures Stoi(s) == Some(n) <==> Spells(s, n) && -2147483648 <= n <= 2147483647
  {
    if Stoi(s) == Some(n) {
      ReadIsLaid(s, n);
      ReadFits(s, n);
    }
    if white, sign, digits, rest :| Laid(s, white, sign, digits, rest, n) {
      LaidIsRead(s, white, sign, digits, rest, n);
    }
  }

  function FirstDot(name: string): (k: nat)
    ensures k <= |name| && '.' !in name[..k] && (k < |name| ==> name[k] == '.')
  {
    if name == "" || name[0] == '.' then 0
    else
      var k := 1 + FirstDot(name[1..]);
      assert name[..k] == [name[0]] + name[1..][..k - 1];
      k
  }

  /** What the loops read as the start of a segment. */
  function Read(name: string): Option<int> { Stoi(name[..FirstDot(name)]) }

  predicate Readable(name: string) { Read(name).Some? }

  /** The second at which a segment with a readable name starts. */
  function Stamp(name: string): int { if Readable(name) then Read(name).value else 0 }

  lemma {:induction false} RunOfPrefix(name: string, i: nat, k: nat)
    requires i <= k <= |name| && (k < |name| ==> !IsDigit(name[k]))
    ensures RunEnd(name[..k], i) == RunEnd(name, i) <= k
    decreases k - i
  {
    if i == k || !IsDigit(name[i]) {
    } else {
      RunOfPrefix(name, i + 1, k);
    }
  }

  lemma {:induction false} SpacesOfPrefix(name: string, i: nat, k: nat)
    requires i <= k <= |name| && (k < |name| ==> !IsSpace(name[k]))
    ensures SkipSpaces(name[..k], i) == SkipSpaces(name, i) <= k
    decreases k - i
  {
    if i == k || !IsSpace(name[i]) {
    } else {
      SpacesOfPrefix(name, i + 1, k);
    }
  }

  lemma StoiOfPrefix(name: string, k: nat)
    requires k <= |name| && (k < |name| ==> name[k] == '.')
    ensures Stoi(name[..k]) == Stoi(name)
  {
    SpacesOfPrefix(name, 0, k);
    var i := SkipSpaces(name, 0);
    assert i < k ==> name[..k][i] == name[i];
    var j := AfterSign(name, i);
    RunOfPrefix(name, j, k);
    SlicePrefix(name, j, RunEnd(name, j), k);
  }

  lemma SlicePrefix(s: string, i: nat, j: nat, k: nat)
    requires i <= j <= k <= |s|
    ensures s[..k][i..j] == s[i..j]
  {
  }

  /** The sort reads whole names, the loops read them up to the first dot: both read the same. */
  lemma StampOfName(name: string)
    ensures Stoi(name) == Read(name)
  {
    StoiOfPrefix(name, FirstDot(name));
  }

  const EXTENSION := ".mp4"

  /** A name that is nothing but the extension has none. */
  predicate IsVideo(name: string) { |name| > |EXTENSION| && name[|name| - |EXTENSION|..] == EXTENSION }

  lemma VideoExactlyWhen(name: string)
    ensures IsVideo(name) <==> exists stem: string :: stem != "" && name == stem + ".mp4"
  {
    if IsVideo(name) {
      var stem := name[..|name| - |EXTENSION|];
      assert name == stem + ".mp4";
    }
  }

  /** A start time for every name. */
  type Clock = string -> int

  predicate Sorted(files: seq<string>, key: Clock) {
    forall i, j :: 0 <= i < j < |files| ==> key(files[i]) <= key(files[j])
  }

  // ---------------------------------------------------------------- choosing segments

  /** The seconds of an event reach from `start` to `end`, those of a segment from its stamp over `split` seconds. */
  datatype Window = Window(start: int, end: int, split: int)

  predicate Overlaps(stamp: int, w: Window) { stamp <= w.end && stamp + w.split - 1 >= w.start }

  predicate Covers(stamp: int, split: int, second: int) { stamp <= second <= stamp + split - 1 }

  function EventWindow(timestamp: int, duration: int, split: int): Window {
    Window(timestamp - duration, timestamp + duration, split)
  }

  function Pick(b: bool, f: string): seq<string> { if b then [f] else [] }

  function Chosen(files: seq<string>, w: Window, key: Clock): seq<string> {
    if files == [] then []
    else
      var n := |files| - 1;
      Chosen(files[..n], w, key) + Pick(Overlaps(key(files[n]), w), files[n])
  }

  /** The segments from `i` up to `j` are those of the first `n` that overlap. */
  predicate Block(files: seq<string>, w: Window, n: nat, i: nat, j: nat, key: Clock)
    requires n <= |files|
  {
    i <= j <= n && forall k :: 0 <= k < n ==> (i <= k < j <==> Overlaps(key(files[k]), w))
  }

  /** A segment between two that overlap overlaps. */
  lemma Within(files: seq<string>, w: Window, i: nat, k: nat, j: nat, key: Clock)
    requires Sorted(files, key) && i < k < j < |files| && Overlaps(key(files[i]), w) && Overlaps(key(files[j]), w)
    ensures Overlaps(key(files[k]), w)
  {
    assert key(files[i]) <= key(files[k]) <= key(files[j]);
  }

  lemma {:induction false} BlockExists(files: seq<string>, w: Window, n: nat, key: Clock) returns (i: nat, j: nat)
    requires Sorted(files, key) && n <= |files|
    ensures Block(files, w, n, i, j, key)
  {
    if n == 0 {
      i, j := 0, 0;
    } else {
      i, j := BlockExists(files, w, n - 1, key);
      if Overlaps(key(files[n - 1]), w) {
        if i < j < n - 1 { Within(files, w, i, j, n - 1, key); }
        i, j := if i < j then i else n - 1, n;
      }
    }
  }

  lemma ChosenNext(files: seq<string>, w: Window, n: nat, key: Clock)
    requires n < |files|
    ensures Chosen(files[..n + 1], w, key) == Chosen(files[..n], w, key) + Pick(Overlaps(key(files[n]), w), files[n])
  {
    assert files[..n + 1][..n] == files[..n] && files[..n + 1][n] == files[n];
  }

  /** The part of a block that is among the first `n`. */
  function Part(files: seq<string>, n: nat, i: nat, j: nat): seq<string>
    requires n <= |files| && i <= j <= |files|
  {
    if n <= i then [] else if n <= j then files[i..n] else files[i..j]
  }

  lemma PartNext(files: seq<string>, n: nat, i: nat, j: nat)
    requires n < |files| && i <= j <= |files|
    ensures Part(files, n + 1, i, j) == Part(files, n, i, j) + Pick(i <= n < j, files[n])
  {
  }

  lemma {:induction false} ChosenOfBlock(files: seq<string>, w: Window, n: nat, i: nat, j: nat, key: Clock)
    requires n <= |files| && i <= j <= |files| && Block(files, w, |files|, i, j, key)
    ensures Chosen(files[..n], w, key) == Part(files, n, i, j)
  {
    if n == 0 {
      assert Chosen(files[..0], w, key) == [] == Part(files, 0, i, j);
    } else {
      var k := n - 1;
      ChosenOfBlock(files, w, k, i, j, key);
      ChosenNext(files, w, k, key);
      PartNext(files, k, i, j);
      assert Pick(Overlaps(key(files[k]), w), files[k]) == Pick(i <= k < j, files[k]);
    }
  }

  /** The chosen segments are one block of the sorted list: exactly those that overlap the window. */
  lemma ChosenIsBlock(files: seq<string>, w: Window, key: Clock) returns (i: nat, j: nat)
    requires Sorted(files, key)
    ensures i <= j <= |files| && Chosen(files, w, key) == files[i..j]
    ensures forall k :: 0 <= k < |files| ==> (i <= k < j <==> Overlaps(key(files[k]), w))
  {
    i, j := BlockExists(files, w, |files|, key);
    ChosenOfBlock(files, w, |files|, i, j, key);
    assert files[..|files|] == files;
  }

  /** Each segment starts at the latest when the one before it ends. */
  predicate GapFree(files: seq<string>, split: int, key: Clock) {
    forall k :: 0 <= k < |files| - 1 ==> key(files[k + 1]) <= key(files[k]) + split
  }

  predicate Covered(files: seq<string>, split: int, second: int, key: Clock) {
    exists k :: 0 <= k < |files| && Covers(key(files[k]), split, second)
  }

  /** The last segment that starts at or before a second. */
  lemma {:induction false} LastStarted(files: seq<string>, second: int, key: Clock) returns (k: nat)
    requires files != [] && Sorted(files, key) && key(files[0]) <= second
    ensures k < |files| && key(files[k]) <= second && (k + 1 < |files| ==> second < key(files[k + 1]))
  {
    if |files| == 1 || second < key(files[1]) {
      k := 0;
    } else {
      var rest := LastStarted(files[1..], second, key);
      k := rest + 1;
    }
  }

  predicate Between(files: seq<string>, split: int, second: int, key: Clock)
    requires files != []
  {
    key(files[0]) <= second <= key(files[|files| - 1]) + split - 1
  }

  /** Recordings without gaps, and no others, cover every second from the first to the last. */
  lemma CoveredIffGapFree(files: seq<string>, split: int, key: Clock)
    requires files != [] && Sorted(files, key) && split >= 1
    ensures GapFree(files, split, key) <==>
              forall second :: Between(files, split, second, key) ==> Covered(files, split, second, key)
  {
    if GapFree(files, split, key) {
      forall second | Between(files, split, second, key) ensures Covered(files, split, second, key) {
        var k := LastStarted(files, second, key);
        assert Covers(key(files[k]), split, second);
      }
    } else {
      var k :| 0 <= k < |files| - 1 && key(files[k + 1]) > key(files[k]) + split;
      var second := key(files[k]) + split;
      assert Between(files, split, second, key);
      forall j | 0 <= j < |files| ensures !Covers(key(files[j]), split, second) {
        if j <= k { assert key(files[j]) <= key(files[k]); } else { assert key(files[k + 1]) <= key(files[j]); }
      }
    }
  }

  lemma {:induction false} ChosenHas(files: seq<string>, w: Window, k: nat, key: Clock)
    requires k < |files| && Overlaps(key(files[k]), w)
    ensures files[k] in Chosen(files, w, key)
  {
    if k < |files| - 1 { ChosenHas(files[..|files| - 1], w, k, key); }
  }

  lemma {:induction false} ChosenExactly(files: seq<string>, w: Window, key: Clock)
    ensures forall f :: f in Chosen(files, w, key) <==> f in files && Overlaps(key(f), w)
  {
    if files == [] {
    } else {
      var n := |files| - 1;
      ChosenExactly(files[..n], w, key);
      assert files == files[..n] + [files[n]];
    }
  }

  predicate Second(s: int, first: int, last: int) { first <= s <= last }

  /** Two stretches of time, ends included, have a second in common. */
  ghost predicate Meet(first: int, last: int, start: int, end: int) {
    exists s: int :: Second(s, first, last) && Second(s, start, end)
  }

  /** A segment overlaps the window of an event exactly if they have a second in common. */
  lemma OverlapsExactlyWhen(stamp: int, timestamp: int, duration: int, split: int)
    requires 0 <= duration && 1 <= split
    ensures Overlaps(stamp, EventWindow(timestamp, duration, split)) <==>
              Meet(timestamp - duration, timestamp + duration, stamp, stamp + split - 1)
  {
    if Overlaps(stamp, EventWindow(timestamp, duration, split)) {
      var s := if stamp <= timestamp - duration then timestamp - duration else stamp;
      assert Second(s, timestamp - duration, timestamp + duration) && Second(s, stamp, stamp + split - 1);
    }
  }

  /** The chosen segments of recordings without gaps cover every second of the window that is between the first and the
      last. */
  lemma WindowCovered(files: seq<string>, w: Window, second: int, key: Clock) returns (f: string)
    requires files != [] && Sorted(files, key) && w.split >= 1 && GapFree(files, w.split, key)
    requires Between(files, w.split, second, key) && w.start <= second <= w.end
    ensures f in Chosen(files, w, key) && Covers(key(f), w.split, second)
  {
    CoveredIffGapFree(files, w.split, key);
    assert Covered(files, w.split, second, key);
    var k :| 0 <= k < |files| && Covers(key(files[k]), w.split, second);
    ChosenHas(files, w, k, key);
    f := files[k];
  }

  /** Of the files given exactly those are chosen that have a second in common with the event. */
  ghost predicate SharesSecond(files: seq<string>, chosen: seq<string>, timestamp: int, duration: int, split: int,
                               key: Clock) {
    forall f :: f in files ==>
      (f in chosen <==> Meet(timestamp - duration, timestamp + duration, key(f), key(f) + split - 1))
  }

  lemma ChosenBySeconds(files: seq<string>, timestamp: int, duration: int, split: int, key: Clock)
    ensures 0 <= duration && 1 <= split ==>
              var chosen := Chosen(files, EventWindow(timestamp, duration, split), key);
              SharesSecond(files, chosen, timestamp, duration, split, key)
  {
    if 0 <= duration && 1 <= split {
      ChosenExactly(files, EventWindow(timestamp, duration, split), key);
      forall f | f in files
        ensures Overlaps(key(f), EventWindow(timestamp, duration, split)) <==>
                  Meet(timestamp - duration, timestamp + duration, key(f), key(f) + split - 1)
      {
        OverlapsExactlyWhen(key(f), timestamp, duration, split);
      }
    }
  }

  // ---------------------------------------------------------------- retention

  predicate Expired(stamp: int, now: int, maintain: int) { stamp < now - maintain }

  function Kept(files: seq<string>, now: int, maintain: int, key: Clock): seq<string> {
    if files == [] then []
    else
      var n := |files| - 1;
      Kept(files[..n], now, maintain, key) + if Expired(key(files[n]), now, maintain) then [] else [files[n]]
  }

  /** No start time is both chosen and expired exactly if the oldest segment that the event can need is kept. */
  lemma SafeExactlyWhen(timestamp: int, duration: int, split: int, now: int, maintain: int)
    requires 0 <= duration && 1 <= split
    ensures timestamp - duration - split + 1 >= now - maintain <==>
              !(exists stamp: int :: Overlaps(stamp, EventWindow(timestamp, duration, split))
                                     && Expired(stamp, now, maintain))
    ensures forall stamp: int :: Expired(stamp, now, maintain) <==> stamp < now - maintain
  {
    var w := EventWindow(timestamp, duration, split);
    var oldest := timestamp - duration - split + 1;
    assert Overlaps(oldest, w);
    if oldest < now - maintain { assert Expired(oldest, now, maintain); }
  }

  /** Removing expired segments changes nothing for a safe event. */
  lemma {:induction false} RetentionKeepsEvent(files: seq<string>, w: Window, now: int, maintain: int, key: Clock)
    requires w.start - w.split + 1 >= now - maintain
    ensures Chosen(Kept(files, now, maintain, key), w, key) == Chosen(files, w, key)
  {
    if files == [] {
    } else {
      var n := |files| - 1;
      var kept := Kept(files[..n], now, maintain, key);
      RetentionKeepsEvent(files[..n], w, now, maintain, key);
      if Expired(key(files[n]), now, maintain) {
        assert !Overlaps(key(files[n]), w) && kept + [] == kept;
      } else {
        assert (kept + [files[n]])[..|kept|] == kept;
      }
    }
  }

  // ---------------------------------------------------------------- lists of files

  lemma LastIsLatest(files: seq<string>, key: Clock)
    requires Sorted(files, key) && Distinct(files) && files != []
    ensures var n := |files| - 1;
            && Sorted(files[..n], key) && Distinct(files[..n])
            && (forall f :: f in files <==> f in files[..n] || f == files[n])
            && forall f :: f in files[..n] ==> f != files[n] && key(f) <= key(files[n])
  {
    var n := |files| - 1;
    assert files == files[..n] + [files[n]];
    forall f | f in files[..n] ensures f != files[n] && key(f) <= key(files[n]) {
      var k :| 0 <= k < n && files[k] == f;
    }
  }

  lemma AppendLatest(files: seq<string>, f: string, key: Clock)
    requires Sorted(files, key) && Distinct(files) && forall x :: x in files ==> x != f && key(x) <= key(f)
    ensures Sorted(files + [f], key) && Distinct(files + [f])
  {
    forall k | 0 <= k < |files| ensures files[k] != f && key(files[k]) <= key(f) { assert files[k] in files; }
  }

  /** What is kept is a listing of what removal leaves. */
  lemma {:induction false} KeptListing(files: seq<string>, now: int, maintain: int, key: Clock)
    requires Sorted(files, key) && Distinct(files)
    ensures var kept := Kept(files, now, maintain, key);
            && Sorted(kept, key) && Distinct(kept)
            && forall f :: f in kept <==> f in files && !Expired(key(f), now, maintain)
  {
    if files != [] {
      var n := |files| - 1;
      LastIsLatest(files, key);
      KeptListing(files[..n], now, maintain, key);
      if !Expired(key(files[n]), now, maintain) { AppendLatest(Kept(files[..n], now, maintain, key), files[n], key); }
    }
  }

  lemma InsertedAt(files: seq<string>, k: nat, f: string)
    requires k <= |files|
    ensures var r := files[..k] + [f] + files[k..];
            && |r| == |files| + 1
            && (forall i :: 0 <= i < |r| ==> r[i] == if i < k then files[i] else if i == k then f else files[i - 1])
            && (forall x :: x in r <==> x in files || x == f)
  {
    var r := files[..k] + [f] + files[k..];
    forall x ensures x in r <==> x in files || x == f {
      assert files == files[..k] + files[k..];
      assert x in files <==> x in files[..k] || x in files[k..];
    }
  }

  lemma InsertKeepsOrder(files: seq<string>, k: nat, f: string, key: Clock)
    requires k <= |files| && Sorted(files, key)
    requires forall j :: 0 <= j < k ==> key(files[j]) <= key(f)
    requires forall j :: k <= j < |files| ==> key(f) <= key(files[j])
    ensures Sorted(files[..k] + [f] + files[k..], key)
  {
    InsertedAt(files, k, f);
  }

  lemma InsertKeepsDistinct(files: seq<string>, k: nat, f: string)
    requires k <= |files| && Distinct(files) && f !in files
    ensures Distinct(files[..k] + [f] + files[k..])
  {
    InsertedAt(files, k, f);
  }

  lemma EraseAt(files: seq<string>, k: nat)
    requires k < |files| && Distinct(files)
    ensures var rest := files[..k] + files[k + 1..];
            && (forall f :: f in rest <==> f in files && f != files[k])
            && Distinct(rest)
            && rest[..k] == files[..k]
  {
    assert files == files[..k] + [files[k]] + files[k + 1..];
  }

  /** The first `k` files do not start after `f`, the others do not start before it. */
  predicate NotAfter(files: seq<string>, k: nat, f: string, key: Clock)
    requires k <= |files|
  {
    forall j :: 0 <= j < k ==> key(files[j]) <= key(f)
  }

  predicate NotBefore(files: seq<string>, k: nat, f: string, key: Clock)
    requires k <= |files|
  {
    forall j :: k <= j < |files| ==> key(f) <= key(files[j])
  }

  lemma LastDecides(files: seq<string>, k: nat, f: string, key: Clock)
    requires Sorted(files, key) && k <= |files| && (k > 0 ==> key(files[k - 1]) <= key(f))
    ensures NotAfter(files, k, f, key)
  {
  }

  lemma OneMore(files: seq<string>, k: nat, f: string, key: Clock)
    requires 0 < k <= |files| && NotBefore(files, k, f, key) && key(f) < key(files[k - 1])
    ensures NotBefore(files, k - 1, f, key)
  {
  }

  ghost predicate All(files: seq<string>, ok: string -> bool) { forall x :: x in files ==> ok(x) }

  /** With `f` in its place the list is sorted and distinct, and two or more names are all well, each having been
      compared. */
  lemma Inserted(files: seq<string>, k: nat, f: string, key: Clock, ok: string -> bool)
    requires k <= |files| && Sorted(files, key) && Distinct(files) && f !in files
    requires NotAfter(files, k, f, key) && NotBefore(files, k, f, key)
    requires files != [] ==> ok(f) && ok(files[|files| - 1])
    requires |files| >= 2 ==> All(files, ok)
    ensures var r := files[..k] + [f] + files[k..];
            && Sorted(r, key) && Distinct(r) && (|r| >= 2 ==> All(r, ok))
            && forall x :: x in r <==> x in files || x == f
  {
    InsertedAt(files, k, f);
    InsertKeepsOrder(files, k, f, key);
    InsertKeepsDistinct(files, k, f);
    assert |files| == 1 ==> forall x :: x in files ==> x == files[0];
  }

  // ---------------------------------------------------------------- the handler

  /** How a call ends: with a value, with an exception, or not at all, because the file lock is never given back. */
  datatype Outcome = Returned(ret: int) | Thrown | Blocked

  class VideoHandler {
    const splitTime: int                       // seconds
    const duration: int
    var directory: set<string>                 // the regular files in the recording directory
    var events: map<string, seq<string>>       // the segments each event's video was made from
    var locked: bool                           // whether an earlier call still holds the file lock

    constructor (splitTime: int, duration: int, directory: set<string>)
      ensures this.splitTime == splitTime && this.duration == duration
      ensures this.directory == directory && events == map[] && !locked
    {
      this.splitTime, this.duration, this.directory, this.events := splitTime, duration, directory, map[];
      this.locked := false;
    }

    /** The videos of the directory, each once, oldest first. */
    ghost predicate Listing(files: seq<string>)
      reads this
    {
      Sorted(files, Stamp) && Distinct(files) && (forall f :: f in files <==> f in directory && IsVideo(f))
    }

    /** Whether the directory has a video whose name cannot be read. */
    ghost predicate Spoilt()
      reads this
    {
      exists f :: f in directory && IsVideo(f) && !Readable(f)
    }

    /** Lists the directory, in whatever order, and sorts. The sort reads the names as soon as there are two, and throws
        if it cannot. */
    method SetFilename() returns (r: Option<seq<string>>)
      ensures r.None? ==> Spoilt()
      ensures r.Some? ==> Listing(r.value) && (|r.value| >= 2 ==> !Spoilt())
    {
      var files := [];
      var todo := directory;
      while todo != {}
        invariant todo <= directory && Sorted(files, Stamp) && Distinct(files)
        invariant forall f :: f in files <==> f in directory - todo && IsVideo(f)
        invariant |files| >= 2 ==> All(files, Readable)
        decreases |todo|
      {
        var f :| f in todo;
        if IsVideo(f) && f !in files {
          var inserted := InsertSorted(files, f);
          if inserted.None? {
            return None;
          }
          files := inserted.value;
        }
        todo := todo - {f};
      }
      return Some(files);
    }

    /** The comparison that the sort uses. */
    static method Less(a: string, b: string) returns (less: Option<bool>)
      ensures less.Some? <==> Readable(a) && Readable(b)
      ensures less.Some? ==> less.value == (Stamp(a) < Stamp(b))
    {
      StampOfName(a);
      StampOfName(b);
      var x, y := Stoi(a), Stoi(b);
      less := if x.Some? && y.Some? then Some(x.value < y.value) else None;
    }

    /** Where `f` belongs in a sorted list. */
    static method FindSlot(files: seq<string>, f: string) returns (slot: Option<nat>)
      requires Sorted(files, Stamp)
      ensures slot.None? ==> !Readable(f) || !All(files, Readable)
      ensures slot.Some? && files != [] ==> Readable(f) && Readable(files[|files| - 1])
      ensures slot.Some? ==>
                slot.value <= |files| && NotAfter(files, slot.value, f, Stamp) && NotBefore(files, slot.value, f, Stamp)
    {
      var k := |files|;
      while k > 0
        invariant 0 <= k <= |files|
        invariant k < |files| ==> Readable(f) && Readable(files[|files| - 1])
        invariant NotBefore(files, k, f, Stamp)
      {
        var less := Less(f, files[k - 1]);
        if less.None? {
          assert files[k - 1] in files;
          return None;
        }
        if !less.value { break; }
        OneMore(files, k, f, Stamp);
        k := k - 1;
      }
      LastDecides(files, k, f, Stamp);
      return Some(k);
    }

    static method InsertSorted(files: seq<string>, f: string) returns (r: Option<seq<string>>)
      requires Sorted(files, Stamp) && f !in files && Distinct(files)
      requires |files| >= 2 ==> All(files, Readable)
      ensures r.None? ==> !Readable(f) || !All(files, Readable)
      ensures r.Some? ==> Sorted(r.value, Stamp) && Distinct(r.value)
      ensures r.Some? ==> forall x :: x in r.value <==> x in files || x == f
      ensures r.Some? && |r.value| >= 2 ==> All(r.value, Readable)
    {
      var slot := FindSlot(files, f);
      if slot.None? {
        return None;
      }
      var k := slot.value;
      Inserted(files, k, f, Stamp, Readable);
      return Some(files[..k] + [f] + files[k..]);
    }

    /** The segments of the listing that the event needs; None if a name cannot be read. */
    method Choose(pathFiles: seq<string>, timestamp: int) returns (r: Option<seq<string>>)
      ensures r.Some? <==> All(pathFiles, Readable)
      ensures r.Some? ==> r.value == Chosen(pathFiles, EventWindow(timestamp, duration, splitTime), Stamp)
    {
      var startTime, endTime := timestamp - duration, timestamp + duration;
      var concatFile := [];
      for i := 0 to |pathFiles|
        invariant concatFile == Chosen(pathFiles[..i], EventWindow(timestamp, duration, splitTime), Stamp)
        invariant All(pathFiles[..i], Readable)
      {
        var fileTimestamp := Read(pathFiles[i]);
        if fileTimestamp.None? {
          assert pathFiles[i] in pathFiles;
          return None;
        }
        var endFile := fileTimestamp.value + splitTime - 1;
        assert pathFiles[..i + 1] == pathFiles[..i] + [pathFiles[i]];
        if fileTimestamp.value <= endTime && endFile >= startTime {
          concatFile := concatFile + [pathFiles[i]];
        }
      }
      assert pathFiles[..|pathFiles|] == pathFiles;
      return Some(concatFile);
    }

    /** The listing and the segments that the event needs; None if a name cannot be read. */
    method Select(timestamp: int) returns (chosen: Option<seq<string>>, ghost files: seq<string>)
      ensures chosen.None? <==> Spoilt()
      ensures chosen.Some? ==>
                Listing(files) && chosen.value == Chosen(files, EventWindow(timestamp, duration, splitTime), Stamp)
      ensures chosen.Some? && 0 <= duration && 1 <= splitTime ==>
                SharesSecond(files, chosen.value, timestamp, duration, splitTime, Stamp)
    {
      files := [];
      var pathFiles := SetFilename();
      if pathFiles.None? {
        return None, files;
      }
      files := pathFiles.value;
      chosen := Choose(pathFiles.value, timestamp);
      ChosenBySeconds(files, timestamp, duration, splitTime, Stamp);
    }

    /** Makes the video of an event from the chosen segments, those that share a second with the event. Without any
        there is none. A name that cannot be read makes the call throw with the lock held, and every later call
        blocks. */
    method ProcessVideo(timestamp: int, eventId: string)
      returns (o: Outcome, ghost files: seq<string>, ghost chosen: seq<string>)
      modifies this`events, this`locked
      ensures o.Blocked? <==> old(locked)
      ensures o.Thrown? <==> !old(locked) && Spoilt()
      ensures locked == !o.Returned?
      ensures o.Returned? ==>
                && o.ret == (if chosen == [] then -1 else 0)
                && events == (if chosen == [] then old(events) else old(events)[eventId := chosen])
                && Listing(files) && chosen == Chosen(files, EventWindow(timestamp, duration, splitTime), Stamp)
      ensures o.Returned? && 0 <= duration && 1 <= splitTime ==>
                forall f :: f in files ==>
                  (f in chosen <==>
                     Meet(timestamp - duration, timestamp + duration, Stamp(f), Stamp(f) + splitTime - 1))
      ensures !o.Returned? ==> events == old(events)
    {
      files, chosen := [], [];
      if locked {
        return Blocked, files, chosen;
      }
      locked := true;
      var concatFile;
      concatFile, files := Select(timestamp);
      if concatFile.None? {
        return Thrown, files, chosen;
      }
      chosen := concatFile.value;
      locked := false;
      if concatFile.value == [] {
        return Returned(-1), files, chosen;
      }
      events := events[eventId := concatFile.value];
      return Returned(0), files, chosen;
    }

    /** Deletes the expired files of a listing, unless the first name cannot be read. */
    method RemoveExpired(listed: seq<string>, maintain: int, now: int) returns (ok: bool)
      requires Listing(listed) && (|listed| >= 2 ==> !Spoilt())
      modifies this`directory
      ensures ok <==> !old(Spoilt())
      ensures ok ==> directory == set f | f in old(directory) && !(IsVideo(f) && Expired(Stamp(f), now, maintain))
      ensures !ok ==> directory == old(directory)
    {
      var pathFiles := listed;
      var it := 0;
      while it != |pathFiles|
        invariant 0 <= it <= |pathFiles| && Distinct(pathFiles)
        invariant forall f :: f in pathFiles ==> f in listed
        invariant forall f :: f in directory <==> f in old(directory) && (f in listed ==> f in pathFiles)
        invariant forall f :: f in listed && f !in pathFiles ==> Expired(Stamp(f), now, maintain)
        invariant forall f :: f in pathFiles[..it] ==> !Expired(Stamp(f), now, maintain)
        invariant (it > 0 || |pathFiles| < |listed|) ==> !old(Spoilt())
        invariant |pathFiles| <= |listed| && (it == 0 && |pathFiles| == |listed| ==> pathFiles == listed)
        decreases |pathFiles| - it
      {
        var f := pathFiles[it];
        var fileTimestamp := Read(f);
        if fileTimestamp.None? {
          assert f in listed;
          return false;
        }
        assert |listed| == 1 ==> forall x :: x in listed ==> x == listed[0];
        if Expired(fileTimestamp.value, now, maintain) {
          directory := directory - {f};
          EraseAt(pathFiles, it);
          pathFiles := pathFiles[..it] + pathFiles[it + 1..];
        } else {
          assert pathFiles[..it + 1] == pathFiles[..it] + [f];
          it := it + 1;
        }
      }
      assert pathFiles[..it] == pathFiles;
      return true;
    }

    /** Deletes the expired videos and nothing else. */
    method RemoveVideo(maintain: int, now: int) returns (o: Outcome)
      modifies this`directory, this`locked
      ensures o.Blocked? <==> old(locked)
      ensures o.Thrown? <==> !old(locked) && old(Spoilt())
      ensures locked == !o.Returned?
      ensures o.Returned? ==>
                && o.ret == 0
                && directory == set f | f in old(directory) && !(IsVideo(f) && Stamp(f) < now - maintain)
      ensures !o.Returned? ==> directory == old(directory)
    {
      if locked {
        return Blocked;
      }
      locked := true;
      var pathFiles := SetFilename();
      if pathFiles.None? {
        return Thrown;
      }
      var ok := RemoveExpired(pathFiles.value, maintain, now);
      if !ok {
        return Thrown;
      }
      locked := false;
      return Returned(0);
    }
  }
}
