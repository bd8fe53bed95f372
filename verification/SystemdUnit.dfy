/**
The ExecStart line of the generated unit (internal/service/service_linux.go), and
what systemd reads from it: Quoting in systemd.syntax(7), Command Lines in
systemd.service(5).
*/
module SystemdUnit {
  import opened Common

  const SPACE: Byte := 0x20
  const QUOTE: Byte := 0x22
  const DOLLAR: Byte := 0x24
  const PERCENT: Byte := 0x25
  const APOSTROPHE: Byte := 0x27
  const BACKSLASH: Byte := 0x5C

  // ----- Printing -----

  function HexDigit(n: int): Byte
    requires 0 <= n < 16
  { if n < 10 then 0x30 + n else 0x57 + n }

  /** What the switch in systemdQuote writes for one byte. */
  function Escaped(c: Byte): Bytes {
    if c == BACKSLASH || c == QUOTE then [BACKSLASH, c]
    else if c == DOLLAR || c == PERCENT then [c, c]
    else if c == 0x0A then [BACKSLASH, 0x6E]
    else if c == 0x0D then [BACKSLASH, 0x72]
    else if c == 0x09 then [BACKSLASH, 0x74]
    else if c == 0x08 then [BACKSLASH, 0x62]
    else if c == 0x0C then [BACKSLASH, 0x66]
    else if c < 0x20 || c == 0x7F then [BACKSLASH, 0x78, HexDigit(c / 16), HexDigit(c % 16)]
    else [c]
  }

  function EscapedAll(v: Bytes): Bytes {
    if v == [] then [] else Escaped(v[0]) + EscapedAll(v[1..])
  }

  function Quoted(v: Bytes): Bytes { [QUOTE] + EscapedAll(v) + [QUOTE] }

  lemma {:induction false} EscapedExtends(v: Bytes, c: Byte)
    ensures EscapedAll(v + [c]) == EscapedAll(v) + Escaped(c)
  {
    if v == [] {
      assert (v + [c])[1..] == [];
    } else {
      assert (v + [c])[1..] == v[1..] + [c];
      EscapedExtends(v[1..], c);
    }
  }

  method SystemdQuote(value: Bytes) returns (b: Bytes)
    ensures b == Quoted(value)
  {
    b := [QUOTE];
    for i := 0 to |value|
      invariant b == [QUOTE] + EscapedAll(value[..i])
    {
      EscapedExtends(value[..i], value[i]);
      assert value[..i + 1] == value[..i] + [value[i]];
      b := b + Escaped(value[i]);
    }
    assert value[..|value|] == value;
    b := b + [QUOTE];
  }

  /** The arguments, each quoted, one space between. */
  function Line(args: seq<Bytes>): Bytes {
    if args == [] then []
    else if |args| == 1 then Quoted(args[0])
    else Quoted(args[0]) + [SPACE] + Line(args[1..])
  }

  lemma {:induction false} LineExtends(args: seq<Bytes>, arg: Bytes)
    requires args != []
    ensures Line(args + [arg]) == Line(args) + [SPACE] + Quoted(arg)
  {
    assert (args + [arg])[1..] == args[1..] + [arg] && (args + [arg])[0] == args[0];
    if |args| > 1 {
      LineExtends(args[1..], arg);
      var first, more, last := Quoted(args[0]), Line(args[1..]), Quoted(arg);
      assert first + [SPACE] + (more + [SPACE] + last) == (first + [SPACE] + more) + [SPACE] + last;
    } else {
      assert Line([arg]) == Quoted(arg);
    }
  }

  /** The loop in linuxUnit. */
  method ExecStart(args: seq<Bytes>) returns (b: Bytes)
    ensures b == Line(args)
  {
    b := [];
    for i := 0 to |args|
      invariant b == Line(args[..i])
    {
      if i > 0 {
        LineExtends(args[..i], args[i]);
        b := b + [SPACE];
      }
      assert args[..i + 1] == args[..i] + [args[i]];
      var quoted := SystemdQuote(args[i]);
      b := b + quoted;
    }
    assert args[..|args|] == args;
  }

  // ----- Reading -----

  function HexValue(c: Byte): Option<int> {
    if 0x30 <= c <= 0x39 then Some(c - 0x30)
    else if 0x61 <= c <= 0x66 then Some(c - 0x57)
    else if 0x41 <= c <= 0x46 then Some(c - 0x37)
    else None
  }

  predicate IsOctal(c: Byte) { 0x30 <= c <= 0x37 }

  function OctalValue(c: Byte): int { c as int - 0x30 }

  function OneByteEscape(c: Byte): Option<Byte> {
    match c
    case 0x61 => Some(0x07) case 0x62 => Some(0x08) case 0x66 => Some(0x0C) case 0x6E => Some(0x0A)
    case 0x72 => Some(0x0D) case 0x74 => Some(0x09) case 0x76 => Some(0x0B) case 0x5C => Some(0x5C)
    case 0x22 => Some(0x22) case 0x27 => Some(0x27)
    case 0x73 => Some(0x20)
    case _ => None
  }

  /** The byte a C-style escape stands for, and how much of s, the text after the backslash, it takes up; never NUL. */
  function Unescaped(s: Bytes): (r: Option<(Byte, nat)>)
    ensures r.Some? ==> 0 < r.value.1 <= |s|
  {
    if s == [] then None
    else if OneByteEscape(s[0]).Some? then Some((OneByteEscape(s[0]).value, 1))
    else if s[0] == 0x78 && |s| >= 3 && HexValue(s[1]).Some? && HexValue(s[2]).Some? then
      var n: int := 16 * HexValue(s[1]).value + HexValue(s[2]).value;
      if n == 0 then None else Some((n, 3))
    else if |s| >= 3 && IsOctal(s[0]) && IsOctal(s[1]) && IsOctal(s[2]) then
      var n := 64 * OctalValue(s[0]) + 8 * OctalValue(s[1]) + OctalValue(s[2]);
      if n == 0 || n > 255 then None else Some((n, 3))
    else None
  }

  /** `quote` is the mark that opened the quotes we are in; `word` what of the current word was read. */
  function Words(s: Bytes, quote: Option<Byte>, word: Option<Bytes>): Option<seq<Bytes>>
    decreases |s|
  {
    var soFar := if word.Some? then word.value else [];
    if s == [] then
      if quote.Some? then None else Some(if word.Some? then [word.value] else [])
    else if s[0] == BACKSLASH then
      var e := Unescaped(s[1..]);
      if e.None? then None else Words(s[1 + e.value.1..], quote, Some(soFar + [e.value.0]))
    else if quote.Some? then
      if s[0] == quote.value then Words(s[1..], None, word) else Words(s[1..], quote, Some(soFar + [s[0]]))
    else if s[0] in {QUOTE, APOSTROPHE} then Words(s[1..], Some(s[0]), Some(soFar))
    else if s[0] in {SPACE, 0x09, 0x0A, 0x0D} then
      var rest := Words(s[1..], None, None);
      if rest.None? then None else Some((if word.Some? then [word.value] else []) + rest.value)
    else Words(s[1..], None, Some(soFar + [s[0]]))
  }

  /**
  A doubled mark stands for one; a single one would be a specifier or a variable,
  and so depends on more than the text.
  */
  function Collapsed(w: Bytes, mark: Byte): Option<Bytes> {
    if w == [] then Some([])
    else if w[0] != mark then
      var rest := Collapsed(w[1..], mark);
      if rest.None? then None else Some([w[0]] + rest.value)
    else if |w| > 1 && w[1] == mark then
      var rest := Collapsed(w[2..], mark);
      if rest.None? then None else Some([mark] + rest.value)
    else None
  }

  function Argument(w: Bytes): Option<Bytes> {
    match Collapsed(w, PERCENT)
    case None => None
    case Some(v) => Collapsed(v, DOLLAR)
  }

  function Arguments(ws: seq<Bytes>): Option<seq<Bytes>> {
    if ws == [] then Some([])
    else match (Argument(ws[0]), Arguments(ws[1..]))
      case (Some(a), Some(rest)) => Some([a] + rest)
      case _ => None
  }

  /** What systemd passes to the program. */
  function Decoded(line: Bytes): Option<seq<Bytes>> {
    match Words(line, None, None)
    case None => None
    case Some(ws) => Arguments(ws)
  }

  // ----- The round trip -----

  function Doubled(v: Bytes, marks: set<Byte>): Bytes {
    if v == [] then [] else (if v[0] in marks then [v[0], v[0]] else [v[0]]) + Doubled(v[1..], marks)
  }

  const BOTH := {PERCENT, DOLLAR}

  lemma HexIsInverse(c: Byte)
    ensures HexValue(HexDigit(c / 16)) == Some(c / 16) && HexValue(HexDigit(c % 16)) == Some(c % 16)
  {}

  lemma EscapeReads(c: Byte, rest: Bytes)
    requires |Escaped(c)| > 1 && c !in BOTH
    ensures Escaped(c)[0] == BACKSLASH
    ensures Unescaped(Escaped(c)[1..] + rest) == if c == 0 then None else Some((c, |Escaped(c)| - 1))
  {
    var s := Escaped(c)[1..] + rest;
    if |Escaped(c)| == 4 {
      HexIsInverse(c);
      assert s[0] == 0x78 && s[1] == HexDigit(c / 16) && s[2] == HexDigit(c % 16);
    } else {
      assert s[0] == Escaped(c)[1];
    }
  }

  /** Inside quotes, one printed byte reads back as itself, a mark as two; NUL does not read back. */
  lemma OneByteReads(c: Byte, rest: Bytes, word: Bytes)
    ensures Words(Escaped(c) + rest, Some(QUOTE), Some(word)) ==
      if c == 0 then None else Words(rest, Some(QUOTE), Some(word + (if c in BOTH then [c, c] else [c])))
  {
    var s := Escaped(c) + rest;
    if c in BOTH {
      MarkReads(c, rest, word);
    } else if |Escaped(c)| > 1 {
      EscapeReads(c, rest);
      assert s[1..] == Escaped(c)[1..] + rest && s[|Escaped(c)|..] == rest;
    } else {
      assert s[1..] == rest;
    }
  }

  lemma MarkReads(c: Byte, rest: Bytes, word: Bytes)
    requires c in BOTH
    ensures Words([c, c] + rest, Some(QUOTE), Some(word)) == Words(rest, Some(QUOTE), Some(word + [c, c]))
  {
    var s := [c, c] + rest;
    assert s[1..] == [c] + rest && ([c] + rest)[1..] == rest;
    assert word + [c] + [c] == word + [c, c];
  }

  lemma {:induction false} QuotedReads(v: Bytes, rest: Bytes, word: Bytes)
    ensures Words(EscapedAll(v) + ([QUOTE] + rest), Some(QUOTE), Some(word)) ==
      if 0 in v then None else Words(rest, None, Some(word + Doubled(v, BOTH)))
  {
    if v == [] {
      assert EscapedAll(v) + ([QUOTE] + rest) == [QUOTE] + rest;
      assert ([QUOTE] + rest)[1..] == rest;
      assert word + Doubled(v, BOTH) == word;
    } else {
      var tail := EscapedAll(v[1..]) + ([QUOTE] + rest);
      var first := if v[0] in BOTH then [v[0], v[0]] else [v[0]];
      assert EscapedAll(v) + ([QUOTE] + rest) == Escaped(v[0]) + tail;
      OneByteReads(v[0], tail, word);
      QuotedReads(v[1..], rest, word + first);
      assert 0 in v <==> v[0] == 0 || 0 in v[1..];
      WordGrows(v, word);
    }
  }

  lemma WordGrows(v: Bytes, word: Bytes)
    requires v != []
    ensures word + (if v[0] in BOTH then [v[0], v[0]] else [v[0]]) + Doubled(v[1..], BOTH) == word + Doubled(v, BOTH)
  {}

  lemma QuotedWordReads(v: Bytes, rest: Bytes)
    ensures Words(Quoted(v) + rest, None, None) == if 0 in v then None else Words(rest, None, Some(Doubled(v, BOTH)))
  {
    var s := Quoted(v) + rest;
    assert s[1..] == EscapedAll(v) + ([QUOTE] + rest);
    QuotedReads(v, rest, []);
    assert [] + Doubled(v, BOTH) == Doubled(v, BOTH);
  }

  lemma DoubledReads(c: Byte, rest: Bytes, mark: Byte)
    requires Collapsed(rest, mark).Some?
    ensures Collapsed((if c == mark then [c, c] else [c]) + rest, mark) == Some([c] + Collapsed(rest, mark).value)
  {
    if c == mark {
      assert ([c, c] + rest)[2..] == rest;
    } else {
      assert ([c] + rest)[1..] == rest;
    }
  }

  lemma {:induction false} CollapseUndoesBoth(v: Bytes)
    ensures Collapsed(Doubled(v, BOTH), PERCENT) == Some(Doubled(v, {DOLLAR}))
  {
    if v != [] {
      CollapseUndoesBoth(v[1..]);
      var rest, less := Doubled(v[1..], BOTH), Doubled(v[1..], {DOLLAR});
      if v[0] == DOLLAR {
        DollarsRead(rest, less);
        assert Doubled(v, BOTH) == [DOLLAR, DOLLAR] + rest && Doubled(v, {DOLLAR}) == [DOLLAR, DOLLAR] + less;
      } else {
        DoubledReads(v[0], rest, PERCENT);
      }
    }
  }

  lemma DollarsRead(rest: Bytes, less: Bytes)
    requires Collapsed(rest, PERCENT) == Some(less)
    ensures Collapsed([DOLLAR, DOLLAR] + rest, PERCENT) == Some([DOLLAR, DOLLAR] + less)
  {
    hide Collapsed;
    DoubledReads(DOLLAR, rest, PERCENT);
    DoubledReads(DOLLAR, [DOLLAR] + rest, PERCENT);
    assert [DOLLAR, DOLLAR] + rest == [DOLLAR] + ([DOLLAR] + rest);
    assert [DOLLAR, DOLLAR] + less == [DOLLAR] + ([DOLLAR] + less);
  }

  lemma {:induction false} CollapseUndoesOne(v: Bytes)
    ensures Collapsed(Doubled(v, {DOLLAR}), DOLLAR) == Some(v)
  {
    if v != [] {
      CollapseUndoesOne(v[1..]);
      DoubledReads(v[0], Doubled(v[1..], {DOLLAR}), DOLLAR);
      assert v == [v[0]] + v[1..];
    }
  }

  predicate NulFree(args: seq<Bytes>) { forall i :: 0 <= i < |args| ==> 0 !in args[i] }

  function AllDoubled(args: seq<Bytes>): seq<Bytes> {
    if args == [] then [] else [Doubled(args[0], BOTH)] + AllDoubled(args[1..])
  }

  lemma SpaceEndsWord(word: Bytes, rest: Bytes)
    ensures Words([SPACE] + rest, None, Some(word)) ==
      match Words(rest, None, None) case None => None case Some(ws) => Some([word] + ws)
  {
    assert ([SPACE] + rest)[1..] == rest;
  }

  lemma LastArgumentReads(v: Bytes)
    ensures Words(Line([v]), None, None) == if 0 in v then None else Some([Doubled(v, BOTH)])
  {
    QuotedWordReads(v, []);
    assert Quoted(v) + [] == Quoted(v);
  }

  lemma FirstArgumentReads(args: seq<Bytes>)
    requires |args| > 1
    ensures Words(Line(args), None, None) ==
      if 0 in args[0] then None
      else
        var more := Words(Line(args[1..]), None, None);
        if more.None? then None else Some([Doubled(args[0], BOTH)] + more.value)
  {
    QuotedWordReads(args[0], [SPACE] + Line(args[1..]));
    assert Line(args) == Quoted(args[0]) + ([SPACE] + Line(args[1..]));
    SpaceEndsWord(Doubled(args[0], BOTH), Line(args[1..]));
  }

  lemma {:induction false} LineReads(args: seq<Bytes>)
    ensures Words(Line(args), None, None) == if NulFree(args) then Some(AllDoubled(args)) else None
  {
    if |args| == 1 {
      assert args == [args[0]];
      LastArgumentReads(args[0]);
      assert AllDoubled(args) == [Doubled(args[0], BOTH)];
    } else if args != [] {
      FirstArgumentReads(args);
      LineReads(args[1..]);
      assert NulFree(args) <==> 0 !in args[0] && NulFree(args[1..]);
    }
  }

  lemma {:induction false} ArgumentsUndouble(args: seq<Bytes>)
    ensures Arguments(AllDoubled(args)) == Some(args)
  {
    if args != [] {
      CollapseUndoesBoth(args[0]);
      CollapseUndoesOne(args[0]);
      ArgumentsUndouble(args[1..]);
      assert AllDoubled(args)[1..] == AllDoubled(args[1..]);
      assert args == [args[0]] + args[1..];
    }
  }

  /**
  systemd passes on exactly the arguments that were printed, unless one of them
  contains NUL: then it rejects the line.
  */
  lemma ArgumentsSurvive(args: seq<Bytes>)
    ensures Decoded(Line(args)) == if NulFree(args) then Some(args) else None
  {
    LineReads(args);
    ArgumentsUndouble(args);
  }

  /** Nothing in the line ends it early or is a control character. */
  lemma {:induction false} LineIsOneLine(args: seq<Bytes>)
    ensures forall c :: c in Line(args) ==> c >= 0x20 && c != 0x7F
  {
    if args != [] {
      EscapedIsPlain(args[0]);
      LineIsOneLine(args[1..]);
    }
  }

  lemma {:induction false} EscapedIsPlain(v: Bytes)
    ensures forall c :: c in EscapedAll(v) ==> c >= 0x20 && c != 0x7F
  {
    if v != [] { EscapedIsPlain(v[1..]); }
  }
}
