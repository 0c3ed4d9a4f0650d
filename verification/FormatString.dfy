/** Format strings: the parser that interprets them at run time and the compiler that turns them into a tree.

    An argument stands by the text it renders to. What lies outside the model, format specifications after a colon
    and named arguments, has an outcome of its own. */
module FormatString {
  import opened ParseInt
  import opened Strings

  datatype Outcome<+T> = Ok(value: T) | Rejected | Outside

  /** Argument numbering so far: the next automatic number, or manual once a number was given. */
  const MANUAL := -1

  predicate IsNameStart(c: char) { 'a' <= c <= 'z' || 'A' <= c <= 'Z' || c == '_' }

  // ---------------------------------------------------------------- shared by both: the argument number

  datatype ArgId = Index(id: int, end: nat) | BadId | Named

  /** The argument number at `pos`, which both parsers read with the same function. */
  function ParseArgId(s: string, pos: nat): (r: ArgId)
    requires pos < |s|
    ensures r.Index? ==> pos < r.end < |s| && 0 <= r.id && (s[r.end] == '}' || s[r.end] == ':')
  {
    var c := s[pos];
    if IsDigit(c) then
      var end := if c != '0' then RunEnd(s, pos) else pos + 1;
      var id := if c != '0' then Parsed(s[pos..end], INT_MAX) else 0;
      if end == |s| || (s[end] != '}' && s[end] != ':') then BadId else Index(id, end)
    else if !IsNameStart(c) then BadId
    else Named
  }

  /** Between an argument number and its end there is neither brace nor colon. */
  lemma ArgIdSpan(s: string, pos: nat)
    requires pos < |s| && ParseArgId(s, pos).Index?
    ensures forall k :: pos <= k < ParseArgId(s, pos).end ==> IsDigit(s[k])
  {
  }

  /** An argument number ends before a closing brace or a colon. */
  predicate Closes(s: string, end: nat) { end < |s| && (s[end] == '}' || s[end] == ':') }

  /** The printed form of `n` stands at `pos` and ends there. */
  predicate NumberAt(s: string, pos: nat, n: nat) {
    StandsAt(s, pos, ToDecimal(n)) && Closes(s, pos + |ToDecimal(n)|)
  }

  /** Which number is read: the one that is printed there, or the largest int if it is larger. A superfluous zero, a
      missing end and any other character are errors; letters and underscores begin a name. */
  lemma ArgIdIs(s: string, pos: nat)
    requires pos < |s|
    ensures forall n: nat :: NumberAt(s, pos, n) ==>
              ParseArgId(s, pos) == Index(if n <= 2147483647 then n else 2147483647, pos + |ToDecimal(n)|)
    ensures ParseArgId(s, pos).Index? <==> exists n: nat :: NumberAt(s, pos, n)
    ensures ParseArgId(s, pos).Named? <==> 'a' <= s[pos] <= 'z' || 'A' <= s[pos] <= 'Z' || s[pos] == '_'
    ensures ParseArgId(s, pos).BadId? <==>
              !('a' <= s[pos] <= 'z' || 'A' <= s[pos] <= 'Z' || s[pos] == '_') && !exists n: nat :: NumberAt(s, pos, n)
  {
    forall n: nat | NumberAt(s, pos, n)
      ensures ParseArgId(s, pos) == Index(if n <= 2147483647 then n else 2147483647, pos + |ToDecimal(n)|)
    {
      NumberIsRead(s, pos, n);
    }
    if ParseArgId(s, pos).Index? { var n := NumberThere(s, pos); }
  }

  lemma NumberIsRead(s: string, pos: nat, n: nat)
    requires NumberAt(s, pos, n)
    ensures ParseArgId(s, pos) == Index(if n <= 2147483647 then n else 2147483647, pos + |ToDecimal(n)|)
  {
    PrintedAt(s, pos, n, INT_MAX);
    FirstDigit(n);
    DecimalRoundTrip(n);
    assert IsDigit(ToDecimal(n)[0]);
  }

  lemma NumberThere(s: string, pos: nat) returns (n: nat)
    requires pos < |s| && ParseArgId(s, pos).Index?
    ensures NumberAt(s, pos, n) && ParseArgId(s, pos).end == pos + |ToDecimal(n)|
  {
    var end := ParseArgId(s, pos).end;
    var run := s[pos..end];
    assert run[0] == s[pos];
    n := Decimal(run);
    PrintedRun(run);
  }

  // ---------------------------------------------------------------- the run-time interpreter

  /** A replacement field: its text, where the format string goes on, and the numbering from there. */
  datatype Piece = Piece(text: string, pos: nat, next: int)

  function FieldPiece(args: seq<string>, id: int, pos: nat, next: int): Outcome<Piece> {
    if 0 <= id < |args| then Ok(Piece(args[id], pos, next)) else Rejected   // "argument not found"
  }

  /** What stands at an opening brace at `pos`. */
  function FieldAt(s: string, pos: nat, next: int, args: seq<string>): (r: Outcome<Piece>)
    requires pos < |s|
    ensures r.Ok? ==> pos < r.value.pos <= |s|
  {
    var b := pos + 1;
    if b == |s| then Rejected
    else if s[b] == '}' then if next < 0 then Rejected else FieldPiece(args, next, b + 1, next + 1)
    else if s[b] == '{' then Ok(Piece("{", b + 1, next))
    else if s[b] == ':' then if next < 0 then Rejected else Outside
    else
      match ParseArgId(s, b)
      case BadId => Rejected
      case Named => Outside
      case Index(id, end) =>
        if next > 0 then Rejected
        else if s[end] == '}' then FieldPiece(args, id, end + 1, MANUAL)
        else Outside
  }

  function Prepend(text: string, r: Outcome<string>): Outcome<string> {
    match r
    case Ok(rest) => Ok(text + rest)
    case _ => r
  }

  /** The text of the format string from `pos` on, one character or field after the other. */
  function Interp(s: string, pos: nat, next: int, args: seq<string>): Outcome<string>
    requires pos <= |s|
    decreases |s| - pos
  {
    if pos == |s| then Ok("")
    else if s[pos] == '{' then
      match FieldAt(s, pos, next, args)
      case Ok(p) => Prepend(p.text, Interp(s, p.pos, p.next, args))
      case Rejected => Rejected
      case Outside => Outside
    else if s[pos] == '}' then
      if pos + 1 == |s| || s[pos + 1] != '}' then Rejected else Prepend("}", Interp(s, pos + 2, next, args))
    else Prepend([s[pos]], Interp(s, pos + 1, next, args))
  }

  lemma PrependTwice(a: string, b: string, r: Outcome<string>)
    ensures Prepend(a, Prepend(b, r)) == Prepend(a + b, r)
  {
    if r.Ok? { assert a + (b + r.value) == (a + b) + r.value; }
  }

  lemma PrependNothing(a: string, r: Outcome<string>)
    requires a == ""
    ensures Prepend(a, r) == r
  {
    if r.Ok? { assert a + r.value == r.value; }
  }

  /** The parsing context and the output of the run-time formatter. */
  class FormatHandler {
    var nextArgId: int
    var out: string
    const args: seq<string>

    constructor (args: seq<string>)
      ensures nextArgId == 0 && out == "" && this.args == args
    {
      nextArgId, out, this.args := 0, "", args;
    }

    method OnText(text: string)
      modifies this`out
      ensures out == old(out) + text
    {
      out := out + text;
    }

    /** Automatic numbering. */
    method NextArgId() returns (id: Outcome<int>)
      modifies this`nextArgId
      ensures id == (if old(nextArgId) < 0 then Rejected else Ok(old(nextArgId)))
      ensures nextArgId == if old(nextArgId) < 0 then old(nextArgId) else old(nextArgId) + 1
    {
      if nextArgId < 0 {
        return Rejected;
      }
      id := Ok(nextArgId);
      nextArgId := nextArgId + 1;
    }

    /** Manual numbering. */
    method CheckArgId() returns (ok: bool)
      modifies this`nextArgId
      ensures ok == (old(nextArgId) <= 0)
      ensures nextArgId == if ok then MANUAL else old(nextArgId)
    {
      if nextArgId > 0 {
        return false;
      }
      nextArgId := MANUAL;
      return true;
    }

    method OnReplacementField(id: int) returns (ok: bool)
      modifies this`out
      ensures ok == (0 <= id < |args|)
      ensures out == if ok then old(out) + args[id] else old(out)
    {
      ok := 0 <= id < |args|;
      if ok { out := out + args[id]; }
    }

    /** Handles what stands at the opening brace at `open` and says where to go on. */
    method ParseReplacementField(s: string, open: nat) returns (r: Outcome<nat>)
      requires open < |s|
      modifies this
      ensures var f := FieldAt(s, open, old(nextArgId), args);
              match f
              case Ok(p) => r == Ok(p.pos) && out == old(out) + p.text && nextArgId == p.next
              case Rejected => r == Rejected
              case Outside => r == Outside
    {
      var begin := open + 1;
      if begin == |s| {
        return Rejected;
      }
      if s[begin] == '}' {
        var id := NextArgId();
        if !id.Ok? { return Rejected; }
        var ok := OnReplacementField(id.value);
        return if ok then Ok(begin + 1) else Rejected;
      } else if s[begin] == '{' {
        OnText("{");
        return Ok(begin + 1);
      } else if s[begin] == ':' {
        var id := NextArgId();
        return if id.Ok? then Outside else Rejected;
      }
      match ParseArgId(s, begin) {
        case BadId => return Rejected;
        case Named => return Outside;
        case Index(id, end) =>
          var manual := CheckArgId();
          if !manual { return Rejected; }
          if s[end] == '}' {
            var ok := OnReplacementField(id);
            return if ok then Ok(end + 1) else Rejected;
          }
          return Outside;
      }
    }

    /** Walks the format string once, sending text in chunks. */
    method ParseFormatString(s: string) returns (r: Outcome<()>)
      modifies this
      ensures match Interp(s, 0, old(nextArgId), args)
              case Ok(text) => r == Ok(()) && out == old(out) + text
              case Rejected => r == Rejected
              case Outside => r == Outside
    {
      var begin, p := 0, 0;
      ghost var whole, text := Interp(s, 0, nextArgId, args), "";
      PrependNothing(text, whole);
      while p != |s|
        invariant 0 <= begin <= p <= |s|
        invariant out + s[begin..p] == old(out) + text
        invariant whole == Prepend(text, Interp(s, p, nextArgId, args))
        decreases |s| - p
      {
        var c := s[p];
        InterpStep(s, p, nextArgId, args, text);
        p := p + 1;
        if c == '{' {
          OnText(s[begin..p - 1]);
          ghost var piece := FieldAt(s, p - 1, nextArgId, args);
          var q := ParseReplacementField(s, p - 1);
          if !q.Ok? {
            return if q.Rejected? then Rejected else Outside;
          }
          begin, p := q.value, q.value;
          Regroup(old(out), text, piece.value.text);
          text := text + piece.value.text;
        } else if c == '}' {
          if p == |s| || s[p] != '}' {
            return Rejected;
          }
          SliceNext(s, begin, p - 1, out);
          Regroup(old(out), text, "}");
          OnText(s[begin..p]);
          text := text + "}";
          p := p + 1;
          begin := p;
        } else {
          SliceNext(s, begin, p - 1, out);
          Regroup(old(out), text, [c]);
          text := text + [c];
        }
      }
      OnText(s[begin..|s|]);
      return Ok(());
    }
  }

  /** One more character or field at `pos`, after `text`. */
  lemma InterpStep(s: string, pos: nat, next: int, args: seq<string>, text: string)
    requires pos < |s|
    ensures var whole := Prepend(text, Interp(s, pos, next, args));
            if s[pos] == '{' then
              match FieldAt(s, pos, next, args)
              case Ok(p) => whole == Prepend(text + p.text, Interp(s, p.pos, p.next, args))
              case Rejected => whole == Rejected
              case Outside => whole == Outside
            else if s[pos] == '}' then
              if pos + 1 == |s| || s[pos + 1] != '}' then whole == Rejected
              else whole == Prepend(text + "}", Interp(s, pos + 2, next, args))
            else whole == Prepend(text + [s[pos]], Interp(s, pos + 1, next, args))
  {
    if s[pos] == '{' {
      match FieldAt(s, pos, next, args)
      case Ok(p) => PrependTwice(text, p.text, Interp(s, p.pos, p.next, args));
      case _ =>
    } else if s[pos] == '}' {
      if pos + 1 < |s| { PrependTwice(text, "}", Interp(s, pos + 2, next, args)); }
    } else {
      PrependTwice(text, [s[pos]], Interp(s, pos + 1, next, args));
    }
  }

  lemma Regroup(a: string, b: string, c: string)
    ensures (a + b) + c == a + (b + c)
  {
  }

  lemma SliceNext(s: string, begin: nat, end: nat, out: string)
    requires begin <= end < |s|
    ensures out + s[begin..end + 1] == (out + s[begin..end]) + [s[end]]
  {
    assert s[begin..end + 1] == s[begin..end] + [s[end]];
  }

  // ---------------------------------------------------------------- the compiler

  datatype Tree =
    | Text(data: string)
    | CodeUnit(c: char)
    | Field(n: int)
    | Concat(lhs: Tree, rhs: Tree)

  predicate InRange(t: Tree, n: nat) {
    match t
    case Field(i) => 0 <= i < n
    case Concat(l, r) => InRange(l, n) && InRange(r, n)
    case _ => true
  }

  /** Running a compiled format: each node appends to the output. */
  function Format(t: Tree, out: string, args: seq<string>): string
    requires InRange(t, |args|)
  {
    match t
    case Text(data) => out + data
    case CodeUnit(c) => out + [c]
    case Field(i) => out + args[i]
    case Concat(l, r) => Format(r, Format(l, out, args), args)
  }

  /** The end of the text that goes on at `pos`. */
  function TextEnd(s: string, pos: nat): (e: nat)
    requires pos <= |s|
    ensures pos <= e <= |s|
    ensures forall k :: pos <= k < e ==> s[k] != '{' && s[k] != '}'
    ensures e < |s| ==> s[e] == '{' || s[e] == '}'
    decreases |s| - pos
  {
    if pos == |s| || s[pos] == '{' || s[pos] == '}' then pos else TextEnd(s, pos + 1)
  }

  method ParseText(s: string, pos: nat) returns (end: nat)
    requires pos <= |s|
    ensures end == TextEnd(s, pos)
  {
    end := pos;
    while end != |s|
      invariant pos <= end <= |s| && TextEnd(s, end) == TextEnd(s, pos)
    {
      if s[end] == '{' || s[end] == '}' { break; }
      end := end + 1;
    }
  }

  /** `id` is the next automatic argument number or `MANUAL`; `n` is the number of arguments. */
  function Compile(s: string, pos: nat, id: int, n: nat): (r: Outcome<Tree>)
    requires pos < |s|
    ensures r.Ok? ==> InRange(r.value, n)
    decreases |s| - pos, 1
  {
    if s[pos] == '{' then
      var b := pos + 1;
      if b == |s| then Rejected
      else if s[b] == '{' then Tail(Text("{"), s, pos + 2, id, n)
      else if s[b] == '}' || s[b] == ':' then
        if id == MANUAL || !(0 <= id < n) then Rejected
        else if s[b] == '}' then Tail(Field(id), s, b + 1, id + 1, n)
        else Outside
      else
        match ParseArgId(s, b)
        case BadId => Rejected
        case Named => Outside
        case Index(i, end) =>
          if id != MANUAL && id != 0 then Rejected
          else if !(i < n) then Rejected
          else if s[end] == '}' then Tail(Field(i), s, end + 1, MANUAL, n)
          else Outside
    else if s[pos] == '}' then
      if pos + 1 == |s| then Rejected else Tail(Text("}"), s, pos + 2, id, n)
    else
      var end := TextEnd(s, pos + 1);
      Tail(if end - pos > 1 then Text(s[pos..end]) else CodeUnit(s[pos]), s, end, id, n)
  }

  function Tail(head: Tree, s: string, pos: nat, id: int, n: nat): (r: Outcome<Tree>)
    requires pos <= |s| && InRange(head, n)
    ensures r.Ok? ==> InRange(r.value, n)
    decreases |s| - pos, 2
  {
    if pos != |s| then
      match Compile(s, pos, id, n)
      case Ok(tail) => Ok(Concat(head, tail))
      case r => r
    else Ok(head)
  }

  /** Whether each closing brace that ends no field is followed by another one. */
  predicate Paired(s: string, pos: nat)
    requires pos <= |s|
    decreases |s| - pos
  {
    if pos == |s| then true
    else if s[pos] == '}' then pos + 1 < |s| && s[pos + 1] == '}' && Paired(s, pos + 2)
    else if s[pos] == '{' then
      if pos + 1 < |s| && s[pos + 1] == '{' then Paired(s, pos + 2) else Paired(s, AfterClose(s, pos + 1))
    else Paired(s, pos + 1)
  }

  /** The position after the next closing brace. */
  function AfterClose(s: string, pos: nat): (e: nat)
    requires pos <= |s|
    ensures pos <= e <= |s|
    decreases |s| - pos
  {
    if pos == |s| then pos else if s[pos] == '}' then pos + 1 else AfterClose(s, pos + 1)
  }

  lemma {:induction false} AfterCloseSkips(s: string, pos: nat, end: nat)
    requires pos <= end < |s| && s[end] == '}' && forall k :: pos <= k < end ==> s[k] != '}'
    ensures AfterClose(s, pos) == end + 1
    decreases end - pos
  {
    if pos == end {
    } else {
      AfterCloseSkips(s, pos + 1, end);
    }
  }

  lemma {:induction false} InterpText(s: string, pos: nat, end: nat, next: int, args: seq<string>)
    requires pos <= end <= |s| && forall k :: pos <= k < end ==> s[k] != '{' && s[k] != '}'
    ensures Interp(s, pos, next, args) == Prepend(s[pos..end], Interp(s, end, next, args))
    ensures Paired(s, pos) == Paired(s, end)
    decreases end - pos
  {
    if pos == end {
      PrependNothing(s[pos..end], Interp(s, end, next, args));
    } else {
      InterpText(s, pos + 1, end, next, args);
      PrependTwice([s[pos]], s[pos + 1..end], Interp(s, end, next, args));
      assert [s[pos]] + s[pos + 1..end] == s[pos..end];
    }
  }

  /** What the compiled form of the rest does, against what the interpreter says. */
  ghost predicate Agrees(s: string, pos: nat, args: seq<string>, i: Outcome<string>, c: Outcome<Tree>)
    requires pos <= |s|
  {
    && (i.Ok? <==> c.Ok? && Paired(s, pos))
    && (i.Ok? ==> InRange(c.value, |args|) && Gives(c.value, i.value, args))
  }

  lemma TailAgrees(head: Tree, text: string, s: string, pos: nat, next: int, args: seq<string>)
    requires pos <= |s| && next >= MANUAL
    requires InRange(head, |args|) && Gives(head, text, args)
    ensures Agrees(s, pos, args, Prepend(text, Interp(s, pos, next, args)), Tail(head, s, pos, next, |args|))
    decreases |s| - pos, 2
  {
    if pos != |s| {
      CompileAgrees(s, pos, next, args);
      var i := Interp(s, pos, next, args);
      if i.Ok? {
        var c := Compile(s, pos, next, |args|).value;
        ConcatGives(head, c, text, i.value, args);
      }
    }
  }

  /** On any output so far, the tree appends exactly `text`. */
  ghost predicate Gives(t: Tree, text: string, args: seq<string>)
    requires InRange(t, |args|)
  {
    forall out :: Format(t, out, args) == out + text
  }

  lemma ConcatGives(head: Tree, tail: Tree, a: string, b: string, args: seq<string>)
    requires InRange(head, |args|) && InRange(tail, |args|) && Gives(head, a, args) && Gives(tail, b, args)
    ensures Gives(Concat(head, tail), a + b, args)
  {
    forall out ensures Format(Concat(head, tail), out, args) == out + (a + b) {
      assert Format(head, out, args) == out + a;
      assert Format(tail, out + a, args) == (out + a) + b;
      Regroup(out, a, b);
    }
  }

  lemma CompileAgrees(s: string, pos: nat, next: int, args: seq<string>)
    requires pos < |s| && next >= MANUAL
    ensures Agrees(s, pos, args, Interp(s, pos, next, args), Compile(s, pos, next, |args|))
    decreases |s| - pos, 1
  {
    if s[pos] == '{' {
      FieldAgrees(s, pos, next, args);
    } else if s[pos] == '}' {
      if pos + 1 < |s| { TailAgrees(Text("}"), "}", s, pos + 2, next, args); }
    } else {
      var end := TextEnd(s, pos + 1);
      var text := s[pos..end];
      InterpText(s, pos, end, next, args);
      TailAgrees(if end - pos > 1 then Text(text) else CodeUnit(s[pos]), text, s, end, next, args);
    }
  }

  lemma FieldAgrees(s: string, pos: nat, next: int, args: seq<string>)
    requires pos < |s| && s[pos] == '{' && next >= MANUAL
    ensures Agrees(s, pos, args, Interp(s, pos, next, args), Compile(s, pos, next, |args|))
    decreases |s| - pos, 0
  {
    var b := pos + 1;
    if b == |s| {
    } else if s[b] == '{' {
      TailAgrees(Text("{"), "{", s, pos + 2, next, args);
    } else if s[b] == '}' {
      AfterCloseSkips(s, b, b);
      if 0 <= next < |args| { TailAgrees(Field(next), args[next], s, b + 1, next + 1, args); }
    } else if s[b] != ':' {
      match ParseArgId(s, b)
      case Index(id, end) =>
        if s[end] == '}' {
          ArgIdSpan(s, b);
          AfterCloseSkips(s, b, end);
          if id < |args| { TailAgrees(Field(id), args[id], s, end + 1, MANUAL, args); }
        }
      case _ =>
    }
  }

  // ---------------------------------------------------------------- the two entry points

  /** `vformat_to`, with its short cut for the format string that is a single automatic field. */
  function RuntimeFormat(s: string, args: seq<string>): Outcome<string> {
    if s == "{}" then if args == [] then Rejected else Ok(args[0]) else Interp(s, 0, 0, args)
  }

  /** `format` of a compiled format string, with the same short cut. */
  function CompiledFormat(s: string, args: seq<string>): Outcome<string> {
    if s == "{}" then if args == [] then Rejected else Ok(args[0])
    else if s == "" then Ok(Format(Text(""), "", args))
    else
      match Compile(s, 0, 0, |args|)
      case Ok(tree) => Ok(Format(tree, "", args))
      case Rejected => Rejected
      case Outside => Outside
  }

  /** The short cuts change nothing. */
  lemma ShortCut(args: seq<string>)
    ensures RuntimeFormat("{}", args) == Interp("{}", 0, 0, args)
    ensures args != [] ==> Compile("{}", 0, 0, |args|) == Ok(Field(0))
  {
    assert Interp("{}", 2, 1, args) == Ok("");
    if args != [] { assert args[0] + "" == args[0]; }
  }

  /** Whenever the run-time formatter accepts a format string, so does the compiler, and both give the same text. The
      compiler accepts more: exactly the strings, too, in which a closing brace that ends no field is followed by some
      other character, which it silently drops. */
  lemma CompiledRefinesRuntime(s: string, args: seq<string>)
    ensures RuntimeFormat(s, args).Ok? <==> CompiledFormat(s, args).Ok? && Paired(s, 0)
    ensures RuntimeFormat(s, args).Ok? ==> CompiledFormat(s, args) == RuntimeFormat(s, args)
  {
    if s == "{}" {
      AfterCloseSkips(s, 1, 1);
    } else if s != "" {
      CompileAgrees(s, 0, 0, args);
      var i := Interp(s, 0, 0, args);
      if i.Ok? {
        assert "" + i.value == i.value;
        var tree := Compile(s, 0, 0, |args|).value;
        assert Gives(tree, i.value, args);
        assert Format(tree, "", args) == "" + i.value;
        assert CompiledFormat(s, args) == Ok(i.value);
      }
    } else {
      assert Format(Text(""), "", args) == "" + "" == "";
    }
  }

  /** In full: the compiled form gives what the interpreter gives for the mended string. */
  lemma CompiledExactly(s: string, args: seq<string>, text: string)
    ensures CompiledFormat(s, args) == Ok(text) <==> RuntimeFormat(Mended(s, 0), args) == Ok(text)
  {
    var m := Mended(s, 0);
    assert m[0..] == m && MendedFrom(s, m, 0);
    CompiledRefinesRuntime(m, args);
    if s != "" {
      MendedCompiles(s, m, 0, 0, |args|);
      ShortCutMended(s);
      if CompiledFormat(s, args).Ok? && s != "{}" { MendedPaired(s, m, 0, 0, |args|); }
      if m == "{}" { AfterCloseSkips(m, 1, 1); }
    }
  }

  lemma ShortCutMended(s: string)
    ensures Mended(s, 0) == "{}" <==> s == "{}"
  {
    if s == "{}" {
      AfterCloseSkips(s, 1, 1);
      assert Mended(s, 2) == "" && s[0..2] + "" == s;
    } else if |s| == 2 {
      assert Mended(s, 0)[0..] == Mended(s, 0);
      HeadKept(s, Mended(s, 0), 0);
      if s[0] == '{' && s[1] != '{' {
        NoCloseBefore(s, 1);
        assert AfterClose(s, 1) == 2 && s[0..2] == s;
        assert Mended(s, 0) == s[0..2] + Mended(s, 2) == s;
        TwoChars(s, 0);
      }
    }
  }

  /** The compiler turns "}x" into "}", where the run-time formatter reports an unmatched brace. */
  lemma CompilerDropsACharacter(args: seq<string>)
    ensures RuntimeFormat("}x", args) == Rejected && CompiledFormat("}x", args) == Ok("}")
  {
    assert Tail(Text("}"), "}x", 2, 0, |args|) == Ok(Text("}"));
    assert "" + "}" == "}";
  }

  // ---------------------------------------------------------------- what the compiler accepts beyond that

  /** The format string from `pos` on, with the character that follows a closing brace outside fields made a closing
      brace. */
  function Mended(s: string, pos: nat): (m: string)
    requires pos <= |s|
    ensures |m| == |s| - pos
    decreases |s| - pos
  {
    if pos == |s| then ""
    else if s[pos] == '}' then if pos + 1 == |s| then "}" else "}}" + Mended(s, pos + 2)
    else if s[pos] == '{' then
      if pos + 1 < |s| && s[pos + 1] == '{' then "{{" + Mended(s, pos + 2)
      else s[pos..AfterClose(s, pos + 1)] + Mended(s, AfterClose(s, pos + 1))
    else [s[pos]] + Mended(s, pos + 1)
  }

  /** `m` is the mended form of `s` from `pos` on. */
  predicate MendedFrom(s: string, m: string, pos: nat) { pos <= |s| == |m| && m[pos..] == Mended(s, pos) }

  lemma MendedAfter(s: string, m: string, pos: nat, w: string, next: nat)
    requires MendedFrom(s, m, pos) && pos <= next <= |s| && |w| == next - pos && Mended(s, pos) == w + Mended(s, next)
    ensures m[pos..next] == w && MendedFrom(s, m, next)
  {
    assert m[next..] == m[pos..][next - pos..];
    assert m[pos..next] == m[pos..][..next - pos];
  }

  lemma {:induction false} NoCloseBefore(s: string, pos: nat)
    requires pos <= |s|
    ensures var e := AfterClose(s, pos);
            && (forall k :: pos <= k < e - 1 ==> s[k] != '}')
            && (e == |s| || (pos < e && s[e - 1] == '}'))
            && (pos < e && s[e - 1] != '}' ==> e == |s|)
    decreases |s| - pos
  {
    if pos == |s| || s[pos] == '}' {
    } else {
      NoCloseBefore(s, pos + 1);
    }
  }

  /** What is read as an argument number depends on the text up to the end of the number alone. */
  lemma SameArgId(s: string, m: string, b: nat, e: nat)
    requires |s| == |m| && b < e <= |s| && s[b..e] == m[b..e]
    requires (forall k :: b <= k < e - 1 ==> s[k] != '}') && (e == |s| || s[e - 1] == '}')
    ensures ParseArgId(s, b) == ParseArgId(m, b)
    ensures ParseArgId(s, b).Index? ==>
              ParseArgId(s, b).end < e && s[ParseArgId(s, b).end] == m[ParseArgId(s, b).end]
              && (s[ParseArgId(s, b).end] == '}' ==> ParseArgId(s, b).end == e - 1)
  {
    SameChars(s, m, b, e);
    if IsDigit(s[b]) { SameRun(s, m, b, e); }
  }

  lemma SameChars(s: string, m: string, b: nat, e: nat)
    requires b <= e <= |s| && e <= |m| && s[b..e] == m[b..e]
    ensures forall k :: b <= k < e ==> s[k] == m[k]
  {
    forall k | b <= k < e ensures s[k] == m[k] { assert s[b..e][k - b] == m[b..e][k - b]; }
  }

  lemma SameRun(s: string, m: string, b: nat, e: nat)
    requires |s| == |m| && b < e <= |s| && s[b..e] == m[b..e] && IsDigit(s[b]) && (e == |s| || s[e - 1] == '}')
    ensures var r := RunEnd(s, b); RunEnd(m, b) == r <= e && (r < |s| ==> r < e) && s[b..r] == m[b..r]
  {
    SameChars(s, m, b, e);
    var r := RunEnd(s, b);
    assert e < |s| ==> !IsDigit(s[e - 1]);
    assert s[b..r] == s[b..e][..r - b] && m[b..r] == m[b..e][..r - b];
    RunEndIs(m, b, r);
  }

  lemma MendedTail(s: string, m: string, pos: nat, head: Tree, id: int, n: nat)
    requires MendedFrom(s, m, pos) && InRange(head, n)
    ensures Tail(head, s, pos, id, n) == Tail(head, m, pos, id, n)
    decreases |s| - pos, 2
  {
    if pos != |s| { MendedCompiles(s, m, pos, id, n); }
  }

  /** The text that goes on at `pos` is not touched. */
  lemma {:induction false} MendedText(s: string, m: string, pos: nat)
    requires MendedFrom(s, m, pos)
    ensures var e := TextEnd(s, pos); TextEnd(m, pos) == e && s[pos..e] == m[pos..e] && MendedFrom(s, m, e)
    decreases |s| - pos
  {
    if pos < |s| {
      HeadKept(s, m, pos);
      if s[pos] != '{' && s[pos] != '}' {
        MendedAfter(s, m, pos, [s[pos]], pos + 1);
        MendedText(s, m, pos + 1);
        var e := TextEnd(s, pos + 1);
        assert s[pos..e] == [s[pos]] + s[pos + 1..e] && m[pos..e] == [m[pos]] + m[pos + 1..e];
      }
    }
  }

  lemma HeadKept(s: string, m: string, pos: nat)
    requires MendedFrom(s, m, pos) && pos < |s|
    ensures m[pos] == s[pos] == Mended(s, pos)[0]
  {
    assert m[pos..][0] == m[pos];
    if s[pos] == '{' && !(pos + 1 < |s| && s[pos + 1] == '{') {
      assert s[pos..AfterClose(s, pos + 1)][0] == s[pos];
    }
  }

  lemma MendedCompiles(s: string, m: string, pos: nat, id: int, n: nat)
    requires MendedFrom(s, m, pos) && pos < |s|
    ensures Compile(s, pos, id, n) == Compile(m, pos, id, n)
    decreases |s| - pos, 1
  {
    HeadKept(s, m, pos);
    if s[pos] == '{' {
      if pos + 1 < |s| && s[pos + 1] == '{' {
        MendedAfter(s, m, pos, "{{", pos + 2);
        assert m[pos + 1] == m[pos..pos + 2][1];
        MendedTail(s, m, pos + 2, Text("{"), id, n);
      } else {
        MendedField(s, m, pos, id, n);
      }
    } else if s[pos] == '}' {
      if pos + 1 < |s| {
        MendedAfter(s, m, pos, "}}", pos + 2);
        MendedTail(s, m, pos + 2, Text("}"), id, n);
      }
    } else {
      var e := TextEnd(s, pos + 1);
      TextKept(s, m, pos);
      MendedTail(s, m, e, if e - pos > 1 then Text(s[pos..e]) else CodeUnit(s[pos]), id, n);
    }
  }

  lemma TextKept(s: string, m: string, pos: nat)
    requires MendedFrom(s, m, pos) && pos < |s| && s[pos] != '{' && s[pos] != '}'
    ensures var e := TextEnd(s, pos + 1);
            && MendedFrom(s, m, pos + 1) && TextEnd(m, pos + 1) == e && MendedFrom(s, m, e)
            && s[pos] == m[pos] && s[pos..e] == m[pos..e]
  {
    HeadKept(s, m, pos);
    MendedAfter(s, m, pos, [s[pos]], pos + 1);
    MendedText(s, m, pos + 1);
    var e := TextEnd(s, pos + 1);
    assert s[pos..e] == [s[pos]] + s[pos + 1..e] && m[pos..e] == [m[pos]] + m[pos + 1..e];
  }

  /** A field, and what follows its brace if there is one, is not touched. */
  lemma FieldKept(s: string, m: string, pos: nat)
    requires MendedFrom(s, m, pos) && pos + 1 < |s| && s[pos] == '{' && s[pos + 1] != '{'
    ensures var b, e := pos + 1, AfterClose(s, pos + 1);
            && b < e && MendedFrom(s, m, e) && s[b..e] == m[b..e] && s[b] == m[b] && s[pos] == m[pos]
            && (forall k :: b <= k < e - 1 ==> s[k] != '}') && (e == |s| || s[e - 1] == '}')
            && (s[b] == '}' ==> e == b + 1)
  {
    var b, e := pos + 1, AfterClose(s, pos + 1);
    NoCloseBefore(s, b);
    HeadKept(s, m, pos);
    MendedAfter(s, m, pos, s[pos..e], e);
    assert s[b..e] == s[pos..e][1..] && m[b..e] == m[pos..e][1..];
    SameChars(s, m, b, e);
  }

  lemma MendedField(s: string, m: string, pos: nat, id: int, n: nat)
    requires MendedFrom(s, m, pos) && pos < |s| && s[pos] == m[pos] == '{'
    requires !(pos + 1 < |s| && s[pos + 1] == '{')
    ensures Compile(s, pos, id, n) == Compile(m, pos, id, n)
    decreases |s| - pos, 0
  {
    var b := pos + 1;
    if b < |s| {
      var e := AfterClose(s, b);
      FieldKept(s, m, pos);
      if s[b] == '}' {
        if 0 <= id < n { MendedTail(s, m, e, Field(id), id + 1, n); }
      } else if s[b] != ':' {
        SameArgId(s, m, b, e);
        var a := ParseArgId(s, b);
        if a.Index? && s[a.end] == '}' && a.id < n { MendedTail(s, m, e, Field(a.id), MANUAL, n); }
      }
    }
  }

  /** What the compiler accepts is paired once it is mended. */
  lemma {:induction false} MendedPaired(s: string, m: string, pos: nat, id: int, n: nat)
    requires MendedFrom(s, m, pos) && (pos < |s| ==> Compile(s, pos, id, n).Ok?)
    ensures Paired(m, pos)
    decreases |s| - pos, 1
  {
    if pos == |s| {
    } else if s[pos] == '{' {
      HeadKept(s, m, pos);
      if s[pos + 1] == '{' {
        MendedAfter(s, m, pos, "{{", pos + 2);
        assert m[pos + 1] == m[pos..pos + 2][1];
        MendedPaired(s, m, pos + 2, id, n);
      } else {
        FieldPaired(s, m, pos, id, n);
      }
    } else if s[pos] == '}' {
      HeadKept(s, m, pos);
      MendedAfter(s, m, pos, "}}", pos + 2);
      assert m[pos + 1] == m[pos..pos + 2][1];
      MendedPaired(s, m, pos + 2, id, n);
    } else {
      var e := TextEnd(s, pos + 1);
      TextKept(s, m, pos);
      PairedText(m, pos, e);
      MendedPaired(s, m, e, id, n);
    }
  }

  lemma {:induction false} PairedText(m: string, pos: nat, e: nat)
    requires pos <= e <= |m| && forall k :: pos <= k < e ==> m[k] != '{' && m[k] != '}'
    ensures Paired(m, pos) == Paired(m, e)
    decreases e - pos
  {
    if pos == e {
    } else {
      PairedText(m, pos + 1, e);
    }
  }

  lemma {:induction false} FieldPaired(s: string, m: string, pos: nat, id: int, n: nat)
    requires MendedFrom(s, m, pos) && pos + 1 < |s| && s[pos] == '{' && s[pos + 1] != '{'
    requires Compile(s, pos, id, n).Ok?
    ensures Paired(m, pos)
    decreases |s| - pos, 0
  {
    var b, e := pos + 1, AfterClose(s, pos + 1);
    FieldKept(s, m, pos);
    SameChars(s, m, b, e);
    if s[b] != '}' { SameArgId(s, m, b, e); }
    AfterCloseSkips(m, b, e - 1);
    MendedPaired(s, m, e, if s[b] == '}' then id + 1 else MANUAL, n);
  }

  // ---------------------------------------------------------------- what a format string means

  /** What a format string without specifications and names is made of. */
  datatype Item = Plain(c: char) | OpenBrace | CloseBrace | Auto | Manual(n: nat)

  function Print(i: Item): string {
    match i
    case Plain(c) => [c]
    case OpenBrace => "{{"
    case CloseBrace => "}}"
    case Auto => "{}"
    case Manual(n) => "{" + ToDecimal(n) + "}"
  }

  function PrintAll(items: seq<Item>): string {
    if items == [] then "" else Print(items[0]) + PrintAll(items[1..])
  }

  /** A character that stands for itself is no brace. */
  predicate Sound(i: Item) { i.Plain? ==> i.c != '{' && i.c != '}' }

  predicate WellFormed(items: seq<Item>) { forall k :: 0 <= k < |items| ==> Sound(items[k]) }

  /** How many automatic fields there are. */
  function Autos(items: seq<Item>): nat {
    if items == [] then 0 else Autos(items[..|items| - 1]) + if items[|items| - 1].Auto? then 1 else 0
  }

  /** The number of the argument of field `k`: automatic fields count from 0. */
  function ArgOf(items: seq<Item>, k: nat): nat
    requires k < |items|
  {
    if items[k].Manual? then items[k].n else Autos(items[..k])
  }

  predicate IsField(i: Item) { i.Auto? || i.Manual? }

  /** The fields from `k` on have an argument, and are numbered the way the fields before them are. */
  predicate Proper(items: seq<Item>, k: nat, args: seq<string>) {
    && (forall i :: k <= i < |items| && IsField(items[i]) ==> ArgOf(items, i) < |args|)
    && (forall i, j :: k <= i < |items| && 0 <= j < i && IsField(items[i]) && IsField(items[j]) ==>
          items[i].Auto? == items[j].Auto?)
  }

  function Meaning(items: seq<Item>, k: nat, args: seq<string>): string
    requires k < |items| && (IsField(items[k]) ==> ArgOf(items, k) < |args|)
  {
    match items[k]
    case Plain(c) => [c]
    case OpenBrace => "{"
    case CloseBrace => "}"
    case _ => args[ArgOf(items, k)]
  }

  /** The texts of the items from `k` on, one after the other. */
  function Rendered(items: seq<Item>, k: nat, args: seq<string>): string
    requires k <= |items| && Proper(items, k, args)
    decreases |items| - k
  {
    if k == |items| then "" else Meaning(items, k, args) + Rendered(items, k + 1, args)
  }

  /** Whether the interpreter accepts an item, and what it gives for it, when `next` is the numbering so far. */
  predicate Accepts(i: Item, next: int, n: nat) {
    (i.Auto? ==> 0 <= next < n) && (i.Manual? ==> next <= 0 && i.n < n)
  }

  function ItemText(i: Item, next: int, args: seq<string>): string
    requires Accepts(i, next, |args|)
  {
    match i
    case Plain(c) => [c]
    case OpenBrace => "{"
    case CloseBrace => "}"
    case Auto => args[next]
    case Manual(n) => args[n]
  }

  function After(i: Item, next: int): int {
    match i
    case Auto => next + 1
    case Manual(_) => MANUAL
    case _ => next
  }

  /** What the interpreter does with the next item. */
  function Stepped(i: Item, s: string, pos: nat, next: int, args: seq<string>): Outcome<string>
    requires pos <= |s|
  {
    if Accepts(i, next, |args|) then Prepend(ItemText(i, next, args), Interp(s, pos, After(i, next), args))
    else Rejected
  }

  lemma NumberInside(s: string, pos: nat, n: nat)
    requires StandsAt(s, pos, "{" + ToDecimal(n) + "}")
    ensures s[pos] == '{' && NumberAt(s, pos + 1, n) && s[pos + 1 + |ToDecimal(n)|] == '}'
  {
    ThreeParts(s, pos, "{", ToDecimal(n), "}");
    CharAt(s, pos, "{", 0);
    CharAt(s, pos + 1 + |ToDecimal(n)|, "}", 0);
  }

  lemma ManualInterp(s: string, pos: nat, n: nat, next: int, args: seq<string>)
    requires StandsAt(s, pos, Print(Manual(n))) && |args| <= INT_MAX
    ensures Interp(s, pos, next, args) == Stepped(Manual(n), s, pos + |Print(Manual(n))|, next, args)
  {
    NumberInside(s, pos, n);
    NumberIsRead(s, pos + 1, n);
    DecimalRoundTrip(n);
    FirstDigit(n);
    CharAt(s, pos, Print(Manual(n)), 1);
  }

  lemma ItemInterp(s: string, pos: nat, i: Item, next: int, args: seq<string>)
    requires StandsAt(s, pos, Print(i)) && Sound(i) && |args| <= INT_MAX
    ensures Interp(s, pos, next, args) == Stepped(i, s, pos + |Print(i)|, next, args)
  {
    if i.Manual? {
      ManualInterp(s, pos, i.n, next, args);
    } else {
      CharAt(s, pos, Print(i), 0);
      if !i.Plain? { CharAt(s, pos, Print(i), 1); }
    }
  }

  lemma ItemPaired(s: string, pos: nat, i: Item)
    requires StandsAt(s, pos, Print(i)) && Sound(i)
    ensures Paired(s, pos) == Paired(s, pos + |Print(i)|)
  {
    CharAt(s, pos, Print(i), 0);
    if i.Manual? {
      NumberInside(s, pos, i.n);
      DecimalRoundTrip(i.n);
      FirstDigit(i.n);
      CharAt(s, pos, Print(i), 1);
      AllDigitsAt(s, pos + 1, ToDecimal(i.n));
      AfterCloseSkips(s, pos + 1, pos + 1 + |ToDecimal(i.n)|);
    } else {
      if !i.Plain? { CharAt(s, pos, Print(i), 1); }
      if i.Auto? { AfterCloseSkips(s, pos + 1, pos + 1); }
    }
  }

  lemma AllDigitsAt(s: string, pos: nat, d: string)
    requires StandsAt(s, pos, d) && AllDigits(d)
    ensures forall k :: pos <= k < pos + |d| ==> IsDigit(s[k])
  {
    forall k | pos <= k < pos + |d| ensures IsDigit(s[k]) { CharAt(s, pos, d, k - pos); }
  }

  /** The numbering after the first items. */
  function Numbering(items: seq<Item>): int {
    if exists k :: 0 <= k < |items| && items[k].Manual? then MANUAL else Autos(items)
  }

  lemma PrintCons(i: Item, rest: seq<Item>)
    ensures PrintAll([i] + rest) == Print(i) + PrintAll(rest)
  {
    assert ([i] + rest)[1..] == rest;
  }

  lemma PrintedParts(a: seq<Item>, rest: string)
    requires a != []
    ensures PrintAll(a) + rest == Print(a[0]) + (PrintAll(a[1..]) + rest)
  {
    Regroup(Print(a[0]), PrintAll(a[1..]), rest);
  }

  lemma {:induction false} PrintConcat(a: seq<Item>, b: seq<Item>)
    ensures PrintAll(a + b) == PrintAll(a) + PrintAll(b)
  {
    if a == [] {
      assert a + b == b;
      EmptyFirst(PrintAll(b));
    } else {
      PrintConcat(a[1..], b);
      ConsConcat(a, b);
      PrintedParts(a, PrintAll(b));
    }
  }

  lemma EmptyFirst(text: string)
    ensures "" + text == text
  {
  }

  lemma ConsConcat(a: seq<Item>, b: seq<Item>)
    requires a != []
    ensures PrintAll(a + b) == Print(a[0]) + PrintAll(a[1..] + b)
  {
    assert a + b == [a[0]] + (a[1..] + b);
    PrintCons(a[0], a[1..] + b);
  }

  lemma PrintSplit(items: seq<Item>, k: nat)
    requires k < |items|
    ensures PrintAll(items[..k + 1]) == PrintAll(items[..k]) + Print(items[k])
    ensures StandsAt(PrintAll(items), |PrintAll(items[..k])|, Print(items[k]))
    ensures |PrintAll(items[..k + 1])| == |PrintAll(items[..k])| + |Print(items[k])| <= |PrintAll(items)|
  {
    assert items[..k + 1] == items[..k] + [items[k]];
    PrintConcat(items[..k], [items[k]]);
    assert [items[k]][1..] == [];
    assert PrintAll([items[k]]) == Print(items[k]);
    assert items == items[..k + 1] + items[k + 1..];
    PrintConcat(items[..k + 1], items[k + 1..]);
  }

  lemma {:induction false} AutosZero(items: seq<Item>)
    ensures Autos(items) == 0 <==> forall i :: 0 <= i < |items| ==> !items[i].Auto?
  {
    if items == [] {
    } else {
      AutosZero(items[..|items| - 1]);
    }
  }

  /** No two fields are numbered differently. */
  predicate Uniform(items: seq<Item>) {
    forall i, j :: 0 <= j < i < |items| && IsField(items[i]) && IsField(items[j]) ==> items[i].Auto? == items[j].Auto?
  }

  /** The numbering tells what fields there were. */
  lemma NumberingTells(items: seq<Item>)
    requires Uniform(items)
    ensures Numbering(items) >= MANUAL
    ensures Numbering(items) == MANUAL <==> exists k :: 0 <= k < |items| && items[k].Manual?
    ensures Numbering(items) > 0 <==> exists k :: 0 <= k < |items| && items[k].Auto?
    ensures Numbering(items) >= 0 ==> Numbering(items) == Autos(items)
  {
    AutosZero(items);
    if k :| 0 <= k < |items| && items[k].Manual? {
      forall i | 0 <= i < |items| ensures !items[i].Auto? { assert IsField(items[k]); }
    }
  }

  lemma NumberingNext(items: seq<Item>, k: nat, n: nat)
    requires k < |items| && Uniform(items[..k]) && Accepts(items[k], Numbering(items[..k]), n)
    ensures Uniform(items[..k + 1]) && Numbering(items[..k + 1]) == After(items[k], Numbering(items[..k]))
  {
    var before, after := items[..k], items[..k + 1];
    NumberingTells(before);
    assert after[..k] == before && after[k] == items[k];
    assert forall i :: 0 <= i < k ==> after[i] == before[i];
    if items[k].Manual? { assert after[k].Manual?; }
  }

  /** Accepting an item is being proper at it. */
  lemma AcceptsIff(items: seq<Item>, k: nat, args: seq<string>)
    requires k < |items| && Uniform(items[..k])
    ensures Proper(items, k, args) <==>
              Accepts(items[k], Numbering(items[..k]), |args|) && Proper(items, k + 1, args)
    ensures Proper(items, k, args) ==> Meaning(items, k, args) == ItemText(items[k], Numbering(items[..k]), args)
  {
    var before := items[..k];
    NumberingTells(before);
    assert forall i :: 0 <= i < k ==> items[i] == before[i];
  }

  lemma InterpNext(items: seq<Item>, k: nat, args: seq<string>)
    requires k < |items| && WellFormed(items) && |args| <= INT_MAX
    ensures var s, pos, pos' := PrintAll(items), |PrintAll(items[..k])|, |PrintAll(items[..k + 1])|;
            var next := Numbering(items[..k]);
            pos <= |s| && pos' <= |s| && Interp(s, pos, next, args) == Stepped(items[k], s, pos', next, args)
  {
    PrintSplit(items, k);
    ItemInterp(PrintAll(items), |PrintAll(items[..k])|, items[k], Numbering(items[..k]), args);
  }

  lemma {:induction false} InterpRenders(items: seq<Item>, k: nat, args: seq<string>)
    requires k <= |items| && WellFormed(items) && Uniform(items[..k]) && |args| <= INT_MAX
    ensures var s, pos := PrintAll(items), |PrintAll(items[..k])|;
            && pos <= |s|
            && Interp(s, pos, Numbering(items[..k]), args)
                 == if Proper(items, k, args) then Ok(Rendered(items, k, args)) else Rejected
    decreases |items| - k
  {
    if k == |items| {
      assert items[..k] == items;
    } else {
      InterpNext(items, k, args);
      AcceptsIff(items, k, args);
      if Accepts(items[k], Numbering(items[..k]), |args|) {
        NumberingNext(items, k, |args|);
        InterpRenders(items, k + 1, args);
      }
    }
  }

  lemma {:induction false} PairedFrom(items: seq<Item>, k: nat)
    requires k <= |items| && WellFormed(items)
    ensures |PrintAll(items[..k])| <= |PrintAll(items)| && Paired(PrintAll(items), |PrintAll(items[..k])|)
    decreases |items| - k
  {
    if k == |items| {
      assert items[..k] == items;
    } else {
      PrintSplit(items, k);
      ItemPaired(PrintAll(items), |PrintAll(items[..k])|, items[k]);
      PairedFrom(items, k + 1);
    }
  }

  /** What formatting means, for every format string made of text, doubled braces and fields: both the interpreter and
      the compiled form give the items' texts in order, if every field has its argument and all are numbered in the same
      way, and neither accepts it otherwise. */
  lemma FormatMeans(items: seq<Item>, args: seq<string>)
    requires WellFormed(items) && |args| <= INT_MAX
    ensures var s := PrintAll(items);
            if Proper(items, 0, args)
            then RuntimeFormat(s, args) == CompiledFormat(s, args) == Ok(Rendered(items, 0, args))
            else RuntimeFormat(s, args) == Rejected && !CompiledFormat(s, args).Ok?
  {
    var s := PrintAll(items);
    assert items[..0] == [];
    InterpRenders(items, 0, args);
    PairedFrom(items, 0);
    ShortCut(args);
    CompiledRefinesRuntime(s, args);
  }

  /** What there has to be at a brace that the interpreter accepts. */
  lemma BraceAccepted(s: string, pos: nat, next: int, args: seq<string>)
    requires pos < |s| && Interp(s, pos, next, args).Ok?
    ensures s[pos] == '}' ==> pos + 1 < |s| && s[pos + 1] == '}'
    ensures s[pos] == '{' ==>
              pos + 1 < |s| && (s[pos + 1] == '{' || s[pos + 1] == '}'
              || (ParseArgId(s, pos + 1).Index? && s[ParseArgId(s, pos + 1).end] == '}'))
  {
  }

  lemma ManualFound(s: string, pos: nat, n: nat)
    requires pos < |s| && s[pos] == '{' && NumberAt(s, pos + 1, n) && s[pos + 1 + |ToDecimal(n)|] == '}'
    ensures StandsAt(s, pos, Print(Manual(n)))
  {
    var d := ToDecimal(n);
    assert s[pos..pos + |d| + 2] == ['{'] + s[pos + 1..pos + 1 + |d|] + ['}'];
  }

  /** The item that the interpreter finds at `pos`. */
  lemma ItemFound(s: string, pos: nat, next: int, args: seq<string>) returns (i: Item)
    requires pos < |s| && Interp(s, pos, next, args).Ok?
    ensures StandsAt(s, pos, Print(i)) && Sound(i)
  {
    BraceAccepted(s, pos, next, args);
    if s[pos] != '{' && s[pos] != '}' {
      i := Plain(s[pos]);
      assert s[pos..pos + 1] == [s[pos]];
    } else if s[pos + 1] == '{' || s[pos + 1] == '}' {
      i := if s[pos] == '}' then CloseBrace else if s[pos + 1] == '{' then OpenBrace else Auto;
      TwoChars(s, pos);
    } else {
      var n := NumberThere(s, pos + 1);
      i := Manual(n);
      ManualFound(s, pos, n);
    }
  }

  lemma {:induction false} ItemsFound(s: string, pos: nat, next: int, args: seq<string>) returns (items: seq<Item>)
    requires pos <= |s| && Interp(s, pos, next, args).Ok? && |args| <= INT_MAX
    ensures WellFormed(items) && PrintAll(items) == s[pos..]
    decreases |s| - pos
  {
    if pos == |s| {
      items := [];
    } else {
      var i := ItemFound(s, pos, next, args);
      RestIsOk(s, pos, i, next, args);
      var rest := ItemsFound(s, pos + |Print(i)|, After(i, next), args);
      items := [i] + rest;
      PrintedFirst(s, pos, i, rest);
    }
  }

  lemma RestIsOk(s: string, pos: nat, i: Item, next: int, args: seq<string>)
    requires StandsAt(s, pos, Print(i)) && Sound(i) && |args| <= INT_MAX && Interp(s, pos, next, args).Ok?
    ensures Interp(s, pos + |Print(i)|, After(i, next), args).Ok? && 0 < |Print(i)|
  {
    ItemInterp(s, pos, i, next, args);
  }

  lemma PrintedFirst(s: string, pos: nat, i: Item, rest: seq<Item>)
    requires StandsAt(s, pos, Print(i)) && Sound(i) && WellFormed(rest)
    requires PrintAll(rest) == s[pos + |Print(i)|..]
    ensures WellFormed([i] + rest) && PrintAll([i] + rest) == s[pos..]
  {
    var items := [i] + rest;
    assert items[0] == i && items[1..] == rest;
    assert s[pos..] == s[pos..pos + |Print(i)|] + s[pos + |Print(i)|..];
  }

  /** Exactly those format strings are accepted: what the interpreter formats is text, doubled braces and fields,
      properly numbered, and it gives what these mean. */
  lemma AcceptedExactlyWhen(s: string, args: seq<string>, text: string)
    requires |args| <= INT_MAX
    ensures RuntimeFormat(s, args) == Ok(text) <==>
              exists items :: WellFormed(items) && PrintAll(items) == s && Proper(items, 0, args)
                              && Rendered(items, 0, args) == text
  {
    ShortCut(args);
    if RuntimeFormat(s, args) == Ok(text) {
      var items := ItemsFound(s, 0, 0, args);
      assert s[0..] == s;
      FormatMeans(items, args);
      assert WellFormed(items) && PrintAll(items) == s && Proper(items, 0, args) && Rendered(items, 0, args) == text;
    }
    if items :| WellFormed(items) && PrintAll(items) == s && Proper(items, 0, args)
                && Rendered(items, 0, args) == text {
      FormatMeans(items, args);
    }
  }

  /** A single numbered field gives the argument with that number. */
  lemma SingleField(n: nat, args: seq<string>)
    requires n < |args| <= INT_MAX
    ensures var s := "{" + ToDecimal(n) + "}"; RuntimeFormat(s, args) == CompiledFormat(s, args) == Ok(args[n])
  {
    var items := [Manual(n)];
    assert items[1..] == [];
    assert PrintAll(items) == Print(Manual(n)) + "" == "{" + ToDecimal(n) + "}";
    FormatMeans(items, args);
    assert Rendered(items, 1, args) == "" && args[n] + "" == args[n];
  }
}
