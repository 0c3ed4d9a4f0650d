/** Names of rotated log files. */
module FileNames {
  import opened ParseInt

  const SEPARATOR := '/'

  /** The last position of `c` in `s`, -1 if there is none. */
  function LastIndexOf(s: string, c: char): (k: int)
    ensures -1 <= k < |s|
    ensures k >= 0 ==> s[k] == c
    ensures forall j :: k < j < |s| ==> s[j] != c
  {
    if s == "" then -1
    else if s[|s| - 1] == c then |s| - 1
    else LastIndexOf(s[..|s| - 1], c)
  }

  /** Path and extension. A dot that starts or ends the name, or starts its last component, starts no extension. */
  function SplitByExtension(name: string): (string, string) {
    var ext := LastIndexOf(name, '.');
    if ext == -1 || ext == 0 || ext == |name| - 1 then (name, "")
    else
      var folder := LastIndexOf(name, SEPARATOR);
      if folder != -1 && folder >= ext - 1 then (name, "")
      else (name[..ext], name[ext..])
  }

  /** Whether an extension starts at `k`: at the last dot, which is neither at an end of the name nor next to or before
      a separator. */
  predicate ExtensionAt(name: string, k: int) {
    && 0 < k < |name| - 1 && name[k] == '.'
    && (forall j :: k < j < |name| ==> name[j] != '.')
    && (forall j :: k - 1 <= j < |name| ==> name[j] != '/')
  }

  lemma SplitIff(name: string)
    ensures SplitByExtension(name).0 + SplitByExtension(name).1 == name
    ensures SplitByExtension(name).1 != "" <==> exists k :: ExtensionAt(name, k)
    ensures forall k :: ExtensionAt(name, k) ==> SplitByExtension(name) == (name[..k], name[k..])
  {
    var ext := LastIndexOf(name, '.');
    forall k | ExtensionAt(name, k) ensures k == ext {
      assert ext >= k;
      assert ext <= k;
    }
    if SplitByExtension(name).1 != "" { assert ExtensionAt(name, ext); }
  }

  /** "logs/a.txt" with index 3 is "logs/a.3.txt"; index 0 is the name itself. */
  function CalcFilename(name: string, index: nat): string {
    if index == 0 then name
    else
      var (base, ext) := SplitByExtension(name);
      base + "." + ToDecimal(index) + ext
  }

  /** The digits of a number, without superfluous zeros. */
  predicate Numeral(digits: string, i: nat) {
    AllDigits(digits) && digits != "" && (digits[0] == '0' ==> digits == "0") && Decimal(digits) == i
  }

  /** The name of the file with index `i`: the number stands before the extension if there is one, else at the end. */
  ghost predicate RotatedName(name: string, i: nat, f: string) {
    if i == 0 then f == name
    else exists digits :: Numeral(digits, i) && Numbered(name, digits, f)
  }

  ghost predicate Numbered(name: string, digits: string, f: string) {
    && (forall k :: ExtensionAt(name, k) ==> f == name[..k] + "." + digits + name[k..])
    && ((forall k :: !ExtensionAt(name, k)) ==> f == name + "." + digits)
  }

  lemma NumeralIsPrinted(digits: string, i: nat)
    ensures Numeral(digits, i) <==> digits == ToDecimal(i)
  {
    DecimalRoundTrip(i);
    FirstDigit(i);
    if Numeral(digits, i) { PrintedRun(digits); }
  }

  lemma SplitNumbered(name: string, digits: string, f: string)
    ensures var (base, ext) := SplitByExtension(name); Numbered(name, digits, f) <==> f == base + "." + digits + ext
  {
    SplitIff(name);
    var (base, ext) := SplitByExtension(name);
    if k :| ExtensionAt(name, k) {
    } else {
      assert base == name && base + "." + digits + "" == name + "." + digits;
    }
  }

  /** The names that the program makes are those. */
  lemma NameIsRotated(name: string, i: nat, f: string)
    ensures RotatedName(name, i, f) <==> f == CalcFilename(name, i)
  {
    if i > 0 {
      NumeralIsPrinted(ToDecimal(i), i);
      SplitNumbered(name, ToDecimal(i), CalcFilename(name, i));
      if digits :| Numeral(digits, i) && Numbered(name, digits, f) {
        NumeralIsPrinted(digits, i);
        SplitNumbered(name, digits, f);
      }
    }
  }

  /** Different indices give different names. */
  lemma CalcInjective(name: string, i: nat, j: nat)
    requires CalcFilename(name, i) == CalcFilename(name, j)
    ensures i == j
  {
    SplitIff(name);
    if i > 0 && j > 0 {
      var (base, ext) := SplitByExtension(name);
      DecimalRoundTrip(i);
      DecimalRoundTrip(j);
      Middle(base + ".", ToDecimal(i), ext, CalcFilename(name, i));
      Middle(base + ".", ToDecimal(j), ext, CalcFilename(name, j));
    }
  }

  lemma Middle(a: string, b: string, c: string, s: string)
    requires s == a + b + c
    ensures b == s[|a|..|s| - |c|]
  {
  }
}

/** The rotating file sink. The disk is a map from file names to contents that only the sink changes. */
module RotatingSink {
  import opened Basics
  import opened FileNames

  type Bytes = seq<Byte>

  type Disk = map<string, Bytes>

  datatype Error = ZeroSize | TooManyFiles | CannotOpen

  datatype Result<+T> = Ok(value: T) | Err(error: Error)

  const MAX_FILES := 200000

  /** File names by index; index 0 is the live file. */
  type Names = nat -> string

  ghost predicate Injective(name: Names) { forall i, j :: name(i) == name(j) ==> i == j }

  function NamesOf(base: string): Names { (i: nat) => CalcFilename(base, i) }

  lemma NamesInjective(base: string)
    ensures Injective(NamesOf(base)) && NamesOf(base)(0) == base
  {
    forall i, j | NamesOf(base)(i) == NamesOf(base)(j) ensures i == j { CalcInjective(base, i, j); }
  }

  // ---------------------------------------------------------------- rotation of the files

  ghost predicate AmongNames(name: Names, max: nat, f: string) { exists i :: 0 <= i <= max && f == name(i) }

  /** What a rotation makes of file `i`. */
  ghost predicate Moved(d: Disk, d': Disk, name: Names, max: nat, i: nat)
    requires i > 0
  {
    var src, dst := name(i - 1), name(i);
    if src in d then dst in d' && d'[dst] == d[src]
    else if i == max then SameFile(d, d', dst)
    else dst !in d'
  }

  predicate SameFile(d: Disk, d': Disk, f: string) { (f in d <==> f in d') && (f in d ==> d[f] == d'[f]) }

  /** Each file holds what the file before it held, and is missing where that was missing, except that the last one is
      then kept; file 0 is empty; no other file is touched. */
  ghost predicate Shifted(d: Disk, d': Disk, name: Names, max: nat) {
    && name(0) in d' && d'[name(0)] == []
    && (forall i :: 1 <= i <= max ==> Moved(d, d', name, max, i))
    && (forall f :: !AmongNames(name, max, f) ==> SameFile(d, d', f))
  }

  /** The same for the disk on its own, by the names of the files. */
  ghost predicate RotatedDisk(d: Disk, d': Disk, base: string, max: nat) {
    && base in d' && d'[base] == []
    && (forall i, src, dst :: 1 <= i <= max && RotatedName(base, i - 1, src) && RotatedName(base, i, dst) ==>
          if src in d then dst in d' && d'[dst] == d[src]
          else if i == max then SameFile(d, d', dst)
          else dst !in d')
    && (forall f :: (forall i :: 0 <= i <= max ==> !RotatedName(base, i, f)) ==> SameFile(d, d', f))
  }

  lemma ShiftedByName(d: Disk, d': Disk, base: string, max: nat)
    requires Shifted(d, d', NamesOf(base), max)
    ensures RotatedDisk(d, d', base, max)
  {
    var name := NamesOf(base);
    forall i, src, dst | 1 <= i <= max && RotatedName(base, i - 1, src) && RotatedName(base, i, dst)
      ensures if src in d then dst in d' && d'[dst] == d[src]
              else if i == max then SameFile(d, d', dst)
              else dst !in d'
    {
      NameIsRotated(base, i - 1, src);
      NameIsRotated(base, i, dst);
      assert Moved(d, d', name, max, i);
    }
    forall f | forall i :: 0 <= i <= max ==> !RotatedName(base, i, f) ensures SameFile(d, d', f) {
      forall i: nat | i <= max ensures f != name(i) { NameIsRotated(base, i, f); }
      assert !AmongNames(name, max, f);
    }
  }

  /** The files above `i` have been shifted, and file `i` has gone up if `i` is below `max`. */
  ghost predicate ShiftedFrom(d: Disk, d': Disk, name: Names, max: nat, i: nat)
    requires i <= max
  {
    && (forall j :: i < j <= max ==> Moved(d, d', name, max, j))
    && (forall j :: 0 <= j < i ==> SameFile(d, d', name(j)))
    && (if i == max then SameFile(d, d', name(i)) else name(i) !in d')
    && (forall f :: !AmongNames(name, max, f) ==> SameFile(d, d', f))
  }

  /** Removes the target if it is there and renames the source. */
  function RenameUp(d: Disk, src: string, target: string): Disk
    requires src in d
  {
    (d - {target, src})[target := d[src]]
  }

  /** One round of the loop. */
  lemma RenameShifts(d: Disk, d': Disk, name: Names, max: nat, i: nat)
    requires Injective(name) && 0 < i <= max && ShiftedFrom(d, d', name, max, i)
    ensures ShiftedFrom(d, if name(i - 1) in d' then RenameUp(d', name(i - 1), name(i)) else d', name, max, i - 1)
  {
    var src, dst := name(i - 1), name(i);
    var d'' := if src in d' then RenameUp(d', src, dst) else d';
    assert SameFile(d, d', src) && src != dst;
    assert AmongNames(name, max, src) && AmongNames(name, max, dst);
    forall j | i - 1 < j <= max ensures Moved(d, d'', name, max, j) {
      if j > i { assert Moved(d, d', name, max, j); }
    }
    forall j | 0 <= j < i - 1 ensures SameFile(d, d'', name(j)) { assert SameFile(d, d', name(j)); }
    forall f | !AmongNames(name, max, f) ensures SameFile(d, d'', f) { assert SameFile(d, d', f); }
  }

  lemma TruncateShifts(d: Disk, d': Disk, name: Names, max: nat)
    requires Injective(name) && ShiftedFrom(d, d', name, max, 0)
    ensures Shifted(d, d'[name(0) := []], name, max)
  {
    var d'' := d'[name(0) := []];
    assert AmongNames(name, max, name(0));
    forall i | 1 <= i <= max ensures Moved(d, d'', name, max, i) {
      assert Moved(d, d', name, max, i) && name(i) != name(0);
    }
    forall f | !AmongNames(name, max, f) ensures SameFile(d, d'', f) { assert SameFile(d, d', f); }
  }

  // ---------------------------------------------------------------- what the files hold together

  function Contents(d: Disk, f: string): Bytes { if f in d then d[f] else [] }

  /** The files from index `i` down to the live one, read one after the other. */
  ghost function History(d: Disk, name: Names, i: nat): Bytes {
    if i == 0 then Contents(d, name(0)) else Contents(d, name(i)) + History(d, name, i - 1)
  }

  /** A rotation loses what the last file held, if something takes its place, and nothing else. */
  ghost function Lost(d: Disk, name: Names, max: nat): Bytes {
    if max == 0 || name(max - 1) in d then Contents(d, name(max)) else []
  }

  lemma {:induction false} HistoryShifted(d: Disk, d': Disk, name: Names, max: nat, i: nat)
    requires Shifted(d, d', name, max) && i < max
    ensures History(d', name, i) == if i == 0 then [] else History(d, name, i - 1)
  {
    if i == 0 {
    } else {
      HistoryShifted(d, d', name, max, i - 1);
      assert Moved(d, d', name, max, i);
      if i == 1 { assert Contents(d, name(0)) + [] == Contents(d, name(0)); }
    }
  }

  /** What the files hold after a rotation is what they held before, without what is lost at the old end. */
  lemma ShiftKeepsHistory(d: Disk, d': Disk, name: Names, max: nat)
    requires Shifted(d, d', name, max)
    ensures History(d, name, max) == Lost(d, name, max) + History(d', name, max)
  {
    if max > 0 {
      HistoryShifted(d, d', name, max, max - 1);
      assert Moved(d, d', name, max, max);
      assert History(d, name, max) == Contents(d, name(max)) + History(d, name, max - 1);
      assert History(d', name, max) == Contents(d', name(max)) + History(d', name, max - 1);
      if max == 1 { assert Contents(d', name(1)) + [] == Contents(d', name(1)); }
      if name(max - 1) !in d {
        assert History(d, name, max - 1) == History(d', name, max - 1);
        assert [] + History(d', name, max) == History(d', name, max);
      }
    }
  }

  lemma {:induction false} HistoryAppend(d: Disk, name: Names, i: nat, x: Bytes)
    requires Injective(name) && name(0) in d
    ensures History(d[name(0) := d[name(0)] + x], name, i) == History(d, name, i) + x
  {
    if i == 0 {
    } else {
      var d' := d[name(0) := d[name(0)] + x];
      HistoryAppend(d, name, i - 1, x);
      assert name(i) != name(0);
      assert Contents(d', name(i)) == Contents(d, name(i));
      Regroup(Contents(d, name(i)), History(d, name, i - 1), x);
    }
  }

  /** Opening creates the live file if it is missing. */
  lemma {:induction false} OpenKeepsHistory(d: Disk, name: Names, i: nat)
    ensures History(d[name(0) := Contents(d, name(0))], name, i) == History(d, name, i)
  {
    if i == 0 {
    } else {
      OpenKeepsHistory(d, name, i - 1);
      assert Contents(d[name(0) := Contents(d, name(0))], name(i)) == Contents(d, name(i));
    }
  }

  lemma Regroup(a: Bytes, b: Bytes, c: Bytes)
    ensures (a + b) + c == a + (b + c)
  {
  }

  // ---------------------------------------------------------------- what one file holds

  function Flatten(ms: seq<Bytes>): Bytes {
    if ms == [] then [] else Flatten(ms[..|ms| - 1]) + ms[|ms| - 1]
  }

  function NonEmpty(ms: seq<Bytes>): nat {
    if ms == [] then 0 else NonEmpty(ms[..|ms| - 1]) + if ms[|ms| - 1] == [] then 0 else 1
  }

  /** A file within the limit, or with a single message that is not empty. */
  predicate WithinLimit(ms: seq<Bytes>, maxSize: nat) { |Flatten(ms)| <= maxSize || NonEmpty(ms) == 1 }

  lemma FlattenNext(ms: seq<Bytes>, m: Bytes)
    ensures Flatten(ms + [m]) == Flatten(ms) + m
    ensures NonEmpty(ms + [m]) == NonEmpty(ms) + if m == [] then 0 else 1
  {
    assert (ms + [m])[..|ms|] == ms;
  }

  lemma {:induction false} EmptyFile(ms: seq<Bytes>)
    requires Flatten(ms) == []
    ensures NonEmpty(ms) == 0
  {
    if ms == [] {
    } else {
      assert |Flatten(ms)| == |Flatten(ms[..|ms| - 1])| + |ms[|ms| - 1]|;
      EmptyFile(ms[..|ms| - 1]);
    }
  }

  /** The newest files hold the messages in `started`, newest first. */
  ghost predicate FilesHold(d: Disk, name: Names, max: nat, started: seq<seq<Bytes>>, maxSize: nat) {
    forall i :: 0 <= i < |started| && i <= max ==> FileHolds(d, name(i), started[i], maxSize)
  }

  ghost predicate FileHolds(d: Disk, f: string, ms: seq<Bytes>, maxSize: nat) {
    f in d && d[f] == Flatten(ms) && WithinLimit(ms, maxSize)
  }

  /** A rotation starts a file and pushes the others up. */
  lemma StartedShifted(d: Disk, d': Disk, name: Names, max: nat, started: seq<seq<Bytes>>, maxSize: nat)
    requires FilesHold(d, name, max, started, maxSize) && Shifted(d, d', name, max)
    ensures FilesHold(d', name, max, [[]] + started, maxSize)
  {
    var after := [[]] + started;
    forall i | 0 <= i < |after| && i <= max ensures FileHolds(d', name(i), after[i], maxSize) {
      if i > 0 {
        assert FileHolds(d, name(i - 1), started[i - 1], maxSize);
        assert Moved(d, d', name, max, i);
      }
    }
  }

  /** The files after a write to the live one. */
  function NextStarted(started: seq<seq<Bytes>>, x: Bytes): seq<seq<Bytes>> {
    if started == [] then [] else started[0 := started[0] + [x]]
  }

  lemma StartedAppend(d: Disk, name: Names, max: nat, started: seq<seq<Bytes>>, maxSize: nat, x: Bytes)
    requires Injective(name) && FilesHold(d, name, max, started, maxSize) && name(0) in d
    requires d[name(0)] != [] ==> |d[name(0)]| + |x| <= maxSize
    ensures FilesHold(d[name(0) := d[name(0)] + x], name, max, NextStarted(started, x), maxSize)
  {
    var d', after := d[name(0) := d[name(0)] + x], NextStarted(started, x);
    forall i | 0 <= i < |after| && i <= max ensures FileHolds(d', name(i), after[i], maxSize) {
      assert FileHolds(d, name(i), started[i], maxSize);
      if i == 0 {
        FlattenNext(started[0], x);
        if d[name(0)] == [] { EmptyFile(started[0]); }
      }
    }
  }

  // ---------------------------------------------------------------- the sink

  class RotatingFileSink {
    const baseFilename: string
    const maxSize: nat
    const maxFiles: nat
    var currentSize: nat
    var disk: Disk
    ghost var initial: Bytes               // what the files held before the sink was opened, oldest first
    ghost var logged: Bytes                // every message since
    ghost var lost: Bytes                  // what rotations have discarded
    ghost var started: seq<seq<Bytes>>     // the messages in the files that the sink started from empty, newest first

    /** The estimate is never below the size of the live file. */
    ghost predicate SizeOk()
      reads this
    {
      baseFilename in disk && |disk[baseFilename]| <= currentSize
    }

    /** Nothing is lost but what rotations discard at the old end. */
    ghost predicate SuffixOk()
      reads this
    {
      initial + logged == lost + History(disk, NamesOf(baseFilename), maxFiles)
    }

    /** The newest files are the ones the sink started, as far as they are kept. */
    ghost predicate FilesOk()
      reads this
    {
      FilesHold(disk, NamesOf(baseFilename), maxFiles, started, maxSize)
    }

    ghost predicate Valid()
      reads this
    {
      0 < maxSize && maxFiles <= MAX_FILES && SizeOk() && SuffixOk() && FilesOk()
    }

    constructor (baseFilename: string, maxSize: nat, maxFiles: nat, rotateOnOpen: bool, disk: Disk)
      requires 0 < maxSize && maxFiles <= MAX_FILES && baseFilename != ""
      ensures Valid()
      ensures this.baseFilename == baseFilename && this.maxSize == maxSize && this.maxFiles == maxFiles
      ensures initial == History(disk, NamesOf(baseFilename), maxFiles) && logged == []
      ensures var found := disk[baseFilename := Contents(disk, baseFilename)];
              if rotateOnOpen && found[baseFilename] != [] then
                Shifted(found, this.disk, NamesOf(baseFilename), maxFiles) && currentSize == 0
              else this.disk == found && currentSize == |found[baseFilename]|
    {
      this.baseFilename, this.maxSize, this.maxFiles := baseFilename, maxSize, maxFiles;
      this.disk := disk[baseFilename := if baseFilename in disk then disk[baseFilename] else []];
      this.currentSize := |if baseFilename in disk then disk[baseFilename] else []|;
      this.initial, this.logged, this.lost := History(disk, NamesOf(baseFilename), maxFiles), [], [];
      this.started := if Contents(disk, baseFilename) == [] then [[]] else [];
      new;
      NamesInjective(baseFilename);
      OpenKeepsHistory(disk, NamesOf(baseFilename), maxFiles);
      if rotateOnOpen && currentSize > 0 {
        Rotate();
        currentSize := 0;
      }
    }

    /** Moves every file up by one, the last one first, and truncates the live file. */
    method RotateFiles()
      modifies this`disk
      ensures Shifted(old(disk), disk, NamesOf(baseFilename), maxFiles)
      ensures RotatedDisk(old(disk), disk, baseFilename, maxFiles)
    {
      NamesInjective(baseFilename);
      var i := maxFiles;
      while i > 0
        invariant 0 <= i <= maxFiles
        invariant ShiftedFrom(old(disk), disk, NamesOf(baseFilename), maxFiles, i)
      {
        var src := CalcFilename(baseFilename, i - 1);
        RenameShifts(old(disk), disk, NamesOf(baseFilename), maxFiles, i);
        if src in disk {
          var target := NamesOf(baseFilename)(i);
          disk := RenameUp(disk, src, target);
        }
        i := i - 1;
      }
      TruncateShifts(old(disk), disk, NamesOf(baseFilename), maxFiles);
      disk := disk[baseFilename := []];
      ShiftedByName(old(disk), disk, baseFilename, maxFiles);
    }

    method Rotate()
      requires Valid()
      modifies this`disk, this`lost, this`started
      ensures Valid() && Shifted(old(disk), disk, NamesOf(baseFilename), maxFiles)
      ensures lost == old(lost) + Lost(old(disk), NamesOf(baseFilename), maxFiles) && started == [[]] + old(started)
    {
      RotateFiles();
      lost := lost + Lost(old(disk), NamesOf(baseFilename), maxFiles);
      started := [[]] + started;
      ghost var gone := Lost(old(disk), NamesOf(baseFilename), maxFiles);
      Regroup(old(lost), gone, History(disk, NamesOf(baseFilename), maxFiles));
      ShiftKeepsHistory(old(disk), disk, NamesOf(baseFilename), maxFiles);
      StartedShifted(old(disk), disk, NamesOf(baseFilename), maxFiles, old(started), maxSize);
    }

    /** Rotation on request. The size estimate stays as it was. */
    method RotateNow()
      requires Valid()
      modifies this`disk, this`lost, this`started
      ensures Valid() && Shifted(old(disk), disk, NamesOf(baseFilename), maxFiles)
      ensures lost == old(lost) + Lost(old(disk), NamesOf(baseFilename), maxFiles) && started == [[]] + old(started)
      ensures currentSize == old(currentSize)
    {
      Rotate();
    }

    /** Appends to the live file. */
    method Write(formatted: Bytes, newSize: nat)
      requires Valid()
      requires |disk[baseFilename]| + |formatted| <= newSize && (disk[baseFilename] != [] ==> newSize <= maxSize)
      modifies this`disk, this`logged, this`started, this`currentSize
      ensures Valid() && currentSize == newSize && logged == old(logged) + formatted
      ensures disk == old(disk)[baseFilename := old(disk)[baseFilename] + formatted]
    {
      NamesInjective(baseFilename);
      HistoryAppend(disk, NamesOf(baseFilename), maxFiles, formatted);
      Regroup(initial, logged, formatted);
      Regroup(lost, History(disk, NamesOf(baseFilename), maxFiles), formatted);
      StartedAppend(disk, NamesOf(baseFilename), maxFiles, started, maxSize, formatted);
      disk := disk[baseFilename := disk[baseFilename] + formatted];
      started := NextStarted(started, formatted);
      logged := logged + formatted;
      currentSize := newSize;
    }

    /** Logs a message. The files are rotated first if the message does not fit and the live file is not empty. */
    method SinkIt(formatted: Bytes)
      requires Valid()
      modifies this
      ensures Valid() && logged == old(logged) + formatted && initial == old(initial)
      ensures var rotates := old(currentSize) + |formatted| > maxSize && old(disk)[baseFilename] != [];
              if rotates then
                && baseFilename in disk && disk[baseFilename] == formatted && currentSize == |formatted|
                && Shifted(old(disk), disk[baseFilename := []], NamesOf(baseFilename), maxFiles)
                && lost == old(lost) + Lost(old(disk), NamesOf(baseFilename), maxFiles)
              else
                && disk == old(disk)[baseFilename := old(disk)[baseFilename] + formatted]
                && currentSize == old(currentSize) + |formatted| && lost == old(lost)
    {
      var newSize := currentSize + |formatted|;
      if newSize > maxSize {
        if |disk[baseFilename]| > 0 {
          Rotate();
          newSize := |formatted|;
        }
      }
      ghost var before := disk;
      Write(formatted, newSize);
      assert disk[baseFilename := []] == before[baseFilename := []];
      assert before[baseFilename] == [] ==> before[baseFilename := []] == before;
    }
  }

  /** What opening a sink may refuse, in the order in which the constructor checks it. */
  method OpenSink(baseFilename: string, maxSize: nat, maxFiles: nat, rotateOnOpen: bool, disk: Disk)
    returns (r: Result<RotatingFileSink>)
    ensures maxSize == 0 ==> r == Err(ZeroSize)
    ensures maxSize > 0 && maxFiles > 200000 ==> r == Err(TooManyFiles)
    ensures maxSize > 0 && maxFiles <= 200000 && baseFilename == "" ==> r == Err(CannotOpen)
    ensures maxSize > 0 && maxFiles <= 200000 && baseFilename != "" ==> r.Ok? && fresh(r.value) && r.value.Valid()
  {
    if maxSize == 0 {
      return Err(ZeroSize);
    }
    if maxFiles > MAX_FILES {
      return Err(TooManyFiles);
    }
    if baseFilename == "" {
      return Err(CannotOpen);
    }
    var sink := new RotatingFileSink(baseFilename, maxSize, maxFiles, rotateOnOpen, disk);
    return Ok(sink);
  }
}
