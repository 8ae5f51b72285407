/** systemd's two escapings, each with the unescaping that undoes it. */
module Escape {
  import opened Prelude
  import Hex

  function Hexed(b: u8): string {
    "\\x" + [Hex.DIGITS[b / 16], Hex.DIGITS[b % 16]]
  }

  lemma DigitOfDigits(d: nat)
    requires d < 16
    ensures Hex.Digit(Hex.DIGITS[d]) == Some(d)
    ensures '0' <= Hex.DIGITS[d] <= '9' || 'a' <= Hex.DIGITS[d] <= 'f'
  {
  }

  function Cons(b: u8, rest: Option<seq<u8>>): Option<seq<u8>> {
    match rest
    case None => None
    case Some(bytes) => Some([b] + bytes)
  }

  /** The byte two hexadecimal digits after `\x` stand for. */
  function HexAt(t: string): Option<u8> {
    if |t| >= 4 && Hex.Digit(t[2]).Some? && Hex.Digit(t[3]).Some? then
      Some(Hex.Digit(t[2]).value * 16 + Hex.Digit(t[3]).value)
    else None
  }

  lemma HexAtHexed(b: u8, rest: string)
    ensures HexAt(Hexed(b) + rest) == Some(b) && (Hexed(b) + rest)[4..] == rest
  {
    DigitOfDigits(b / 16);
    DigitOfDigits(b % 16);
  }

  // ---- cescape -----------------------------------------------------------

  function EscapedByte(b: u8): string {
    if b == 0x07 then "\\a"
    else if b == 0x08 then "\\b"
    else if b == 0x0c then "\\f"
    else if b == 0x0a then "\\n"
    else if b == 0x0d then "\\r"
    else if b == 0x09 then "\\t"
    else if b == 0x0b then "\\v"
    else if b == 0x5c then "\\\\"
    else if b == 0x22 then "\\\""
    else if b == 0x27 then "\\'"
    else if 0x20 <= b <= 0x7e then [b as char]
    else Hexed(b)
  }

  function Escaped(s: seq<u8>): string {
    if s == [] then "" else EscapedByte(s[0]) + Escaped(s[1..])
  }

  lemma {:induction false} EscapedMore(s: seq<u8>, b: u8)
    ensures Escaped(s + [b]) == Escaped(s) + EscapedByte(b)
  {
    if s == [] {
      assert ([] + [b])[1..] == [];
    } else {
      assert (s + [b])[1..] == s[1..] + [b];
      EscapedMore(s[1..], b);
    }
  }

  method CEscape(s: seq<u8>) returns (out: string)
    ensures out == Escaped(s)
  {
    out := "";
    for i := 0 to |s|
      invariant out == Escaped(s[..i])
    {
      out := out + EscapedByte(s[i]);
      EscapedMore(s[..i], s[i]);
      assert s[..i + 1] == s[..i] + [s[i]];
    }
    assert s[..|s|] == s;
  }

  function Simple(c: char): Option<u8> {
    if c == 'a' then Some(0x07)
    else if c == 'b' then Some(0x08)
    else if c == 'f' then Some(0x0c)
    else if c == 'n' then Some(0x0a)
    else if c == 'r' then Some(0x0d)
    else if c == 't' then Some(0x09)
    else if c == 'v' then Some(0x0b)
    else if c == '\\' then Some(0x5c)
    else if c == '"' then Some(0x22)
    else if c == '\'' then Some(0x27)
    else None
  }

  /** Reads C escapes back into bytes. */
  function Unescaped(t: string): Option<seq<u8>> {
    if t == "" then Some([])
    else if t[0] != '\\' then if t[0] as int < 0x100 then Cons(t[0] as int, Unescaped(t[1..])) else None
    else if |t| == 1 then None
    else if t[1] == 'x' then if HexAt(t).Some? then Cons(HexAt(t).value, Unescaped(t[4..])) else None
    else if Simple(t[1]).Some? then Cons(Simple(t[1]).value, Unescaped(t[2..]))
    else None
  }

  lemma UnescapedByte(b: u8, rest: string)
    ensures Unescaped(EscapedByte(b) + rest) == Cons(b, Unescaped(rest))
  {
    var e := EscapedByte(b);
    if |e| == 1 {
      assert (e + rest)[1..] == rest;
    } else if |e| == 2 {
      SimpleEscape(b);
      assert (e + rest)[2..] == rest && (e + rest)[0] == e[0] && (e + rest)[1] == e[1];
    } else {
      HexAtHexed(b, rest);
    }
  }

  lemma SimpleEscape(b: u8)
    requires |EscapedByte(b)| == 2
    ensures EscapedByte(b)[0] == '\\' && EscapedByte(b)[1] != 'x' && Simple(EscapedByte(b)[1]) == Some(b)
  {
  }

  predicate Printable(t: string) {
    forall c :: c in t ==> ' ' <= c <= '~'
  }

  lemma {:induction false} EscapedPrintable(s: seq<u8>)
    ensures Printable(Escaped(s))
  {
    if s != [] {
      EscapedPrintable(s[1..]);
      BytePrintable(s[0]);
    }
  }

  lemma BytePrintable(b: u8)
    ensures Printable(EscapedByte(b))
  {
    DigitOfDigits(b / 16);
    DigitOfDigits(b % 16);
  }

  /** Whatever bytes a device path holds, its escaped form is printable ASCII
      and says exactly those bytes. */
  lemma {:induction false} EscapedReadBack(s: seq<u8>)
    ensures Unescaped(Escaped(s)) == Some(s)
    ensures Printable(Escaped(s))
  {
    EscapedPrintable(s);
    if s != [] {
      EscapedReadBack(s[1..]);
      UnescapedByte(s[0], Escaped(s[1..]));
      assert s == [s[0]] + s[1..];
    }
  }

  /** `\x` and two digits. */
  lemma HexedIs(b: u8)
    ensures Hexed(b) == "\\x" + ["0123456789abcdef"[b / 16], "0123456789abcdef"[b % 16]]
  {
  }

  /** What becomes of each octet: printable ones stay, but for the quotes and the
      backslash; those and seven control characters have letters of their own;
      everything else is written in hexadecimal. */
  lemma EscapedByteExact(b: u8)
    ensures b in {0x22, 0x27, 0x5c} ==> EscapedByte(b) == "\\" + [b as char]
    ensures 0x07 <= b <= 0x0d ==> EscapedByte(b) == "\\" + ["abtnvfr"[b - 7]]
    ensures 0x20 <= b <= 0x7e && b !in {0x22, 0x27, 0x5c} ==> EscapedByte(b) == [b as char]
    ensures b < 0x07 || 0x0d < b < 0x20 || b > 0x7e ==>
      EscapedByte(b) == "\\x" + ["0123456789abcdef"[b / 16], "0123456789abcdef"[b % 16]]
  {
  }

  function AsText(s: seq<u8>): string {
    seq(|s|, i requires 0 <= i < |s| => s[i] as char)
  }

  lemma AsTextFirst(s: seq<u8>)
    requires s != []
    ensures AsText(s) == [s[0] as char] + AsText(s[1..])
  {
  }

  /** So a device path without quotes, backslashes and unprintable octets is itself. */
  lemma {:induction false} PathUnchanged(s: seq<u8>)
    requires forall b :: b in s ==> 0x20 <= b <= 0x7e && b !in {0x22, 0x27, 0x5c}
    ensures Escaped(s) == AsText(s)
  {
    if s != [] {
      assert s[0] in s && forall b :: b in s[1..] ==> b in s;
      PathUnchanged(s[1..]);
      EscapedByteExact(s[0]);
      AsTextFirst(s);
    }
  }

  // ---- unit_escape -------------------------------------------------------

  predicate Plain(b: u8) {
    || '0' as int <= b <= '9' as int || 'a' as int <= b <= 'z' as int || 'A' as int <= b <= 'Z' as int
    || b == ':' as int || b == '_' as int || b == '.' as int
  }

  function UnitByte(b: u8): string {
    if b == '/' as int then "-"
    else if Plain(b) then [b as char]
    else Hexed(b)
  }

  function UnitTail(s: seq<u8>): string {
    if s == [] then "" else UnitByte(s[0]) + UnitTail(s[1..])
  }

  /** A leading dot is escaped, a later one is not. */
  function UnitEscaped(s: seq<u8>): string {
    if s == [] then ""
    else (if s[0] == '.' as int then Hexed(s[0]) else UnitByte(s[0])) + UnitTail(s[1..])
  }

  lemma {:induction false} UnitTailMore(s: seq<u8>, b: u8)
    ensures UnitTail(s + [b]) == UnitTail(s) + UnitByte(b)
  {
    if s == [] {
      assert ([] + [b])[1..] == [];
    } else {
      assert (s + [b])[1..] == s[1..] + [b];
      UnitTailMore(s[1..], b);
    }
  }

  lemma UnitEscapedMore(s: seq<u8>, b: u8)
    ensures UnitEscaped(s + [b]) ==
      UnitEscaped(s) + (if s == [] && b == '.' as int then Hexed(b) else UnitByte(b))
  {
    if s == [] {
      assert ([] + [b])[1..] == [];
    } else {
      assert (s + [b])[1..] == s[1..] + [b];
      UnitTailMore(s[1..], b);
    }
  }

  method UnitEscape(s: seq<u8>) returns (out: string)
    ensures out == UnitEscaped(s)
  {
    out := "";
    for i := 0 to |s|
      invariant out == UnitEscaped(s[..i])
    {
      var b := s[i];
      UnitEscapedMore(s[..i], b);
      assert s[..i + 1] == s[..i] + [b];
      if b == '.' as int && i == 0 {
        out := out + "\\x2e";
      } else if b == '/' as int {
        out := out + "-";
      } else if b == '-' as int || b == '\\' as int {
        out := out + Hexed(b);
      } else if Plain(b) {
        out := out + [b as char];
      } else {
        out := out + Hexed(b);
      }
    }
    assert s[..|s|] == s;
  }

  const UNCHANGED := "ABCDEFGHIJKLMNOPQRSTUVWXYZ" + "abcdefghijklmnopqrstuvwxyz" + "0123456789:_."

  lemma PlainExact(b: u8)
    ensures Plain(b) <==> b as char in UNCHANGED
  {
    CapitalExact(b);
    LetterExact(b);
    RestExact(b);
  }

  lemma CapitalExact(b: u8)
    ensures b as char in "ABCDEFGHIJKLMNOPQRSTUVWXYZ" <==> 'A' as int <= b <= 'Z' as int
  {
    if 'A' as int <= b <= 'Z' as int {
      assert "ABCDEFGHIJKLMNOPQRSTUVWXYZ"[b - 'A' as int] == b as char;
    }
  }

  lemma LetterExact(b: u8)
    ensures b as char in "abcdefghijklmnopqrstuvwxyz" <==> 'a' as int <= b <= 'z' as int
  {
    if 'a' as int <= b <= 'z' as int {
      assert "abcdefghijklmnopqrstuvwxyz"[b - 'a' as int] == b as char;
    }
  }

  lemma RestExact(b: u8)
    ensures b as char in "0123456789:_." <==> '0' as int <= b <= '9' as int || b in {0x3a, 0x5f, 0x2e}
  {
    if '0' as int <= b <= '9' as int {
      assert "0123456789:_."[b - '0' as int] == b as char;
    }
    assert "0123456789:_."[10] == ':' && "0123456789:_."[11] == '_' && "0123456789:_."[12] == '.';
  }

  /** What becomes of each octet of a volume's name after the first, and of the
      first unless it is a dot: a slash turns into a dash, letters, digits, colons,
      underscores and dots stay, everything else is written in hexadecimal; a dot
      in front as well. */
  lemma UnitByteExact(b: u8)
    ensures b == 0x2f ==> UnitByte(b) == "-"
    ensures b as char in UNCHANGED ==> UnitByte(b) == [b as char]
    ensures b != 0x2f && b as char !in UNCHANGED ==>
      UnitByte(b) == "\\x" + ["0123456789abcdef"[b / 16], "0123456789abcdef"[b % 16]]
    ensures UnitEscaped([b]) == if b == 0x2e then "\\x2e" else UnitByte(b)
  {
    PlainExact(b);
    assert [b][1..] == [];
  }

  lemma {:induction false} TailUnchanged(s: seq<u8>)
    requires forall b :: b in s ==> b as char in UNCHANGED
    ensures UnitTail(s) == AsText(s)
  {
    if s != [] {
      assert s[0] in s && forall b :: b in s[1..] ==> b in s;
      TailUnchanged(s[1..]);
      UnitByteExact(s[0]);
      AsTextFirst(s);
    }
  }

  lemma UnitUnchanged(s: seq<u8>)
    requires (forall b :: b in s ==> b as char in UNCHANGED) && (s != [] ==> s[0] != 0x2e)
    ensures UnitEscaped(s) == AsText(s)
  {
    if s != [] {
      assert s[0] in s && forall b :: b in s[1..] ==> b in s;
      TailUnchanged(s[1..]);
      UnitByteExact(s[0]);
      AsTextFirst(s);
    }
  }

  function UnitUnescaped(t: string): Option<seq<u8>> {
    if t == "" then Some([])
    else if t[0] == '-' then Cons('/' as int, UnitUnescaped(t[1..]))
    else if t[0] == '\\' then
      if |t| >= 4 && t[1] == 'x' && HexAt(t).Some? then Cons(HexAt(t).value, UnitUnescaped(t[4..])) else None
    else if t[0] as int < 0x100 then Cons(t[0] as int, UnitUnescaped(t[1..]))
    else None
  }

  /** What escaped unit names are made of; never a slash or a line break. */
  predicate UnitChar(c: char) {
    || '0' <= c <= '9' || 'a' <= c <= 'z' || 'A' <= c <= 'Z'
    || c == ':' || c == '_' || c == '.' || c == '-' || c == '\\'
  }

  predicate UnitText(t: string) {
    forall c :: c in t ==> UnitChar(c)
  }

  lemma UnitUnescapedHexed(b: u8, rest: string)
    ensures UnitUnescaped(Hexed(b) + rest) == Cons(b, UnitUnescaped(rest))
  {
    HexAtHexed(b, rest);
  }

  lemma UnitUnescapedByte(b: u8, rest: string)
    ensures UnitUnescaped(UnitByte(b) + rest) == Cons(b, UnitUnescaped(rest))
  {
    if b == '/' as int || Plain(b) {
      assert (UnitByte(b) + rest)[1..] == rest;
    } else {
      UnitUnescapedHexed(b, rest);
    }
  }

  lemma {:induction false} UnitTailReadBack(s: seq<u8>)
    ensures UnitUnescaped(UnitTail(s)) == Some(s)
    ensures UnitText(UnitTail(s))
  {
    if s != [] {
      UnitTailReadBack(s[1..]);
      UnitUnescapedByte(s[0], UnitTail(s[1..]));
      UnitByteText(s[0]);
      assert s == [s[0]] + s[1..];
    }
  }

  lemma UnitByteText(b: u8)
    ensures UnitText(UnitByte(b)) && UnitText(Hexed(b))
  {
    DigitOfDigits(b / 16);
    DigitOfDigits(b % 16);
  }

  /** Whatever the volume is called, its escaped name has no slash in it and
      says exactly that name. */
  lemma UnitEscapedReadBack(s: seq<u8>)
    ensures UnitUnescaped(UnitEscaped(s)) == Some(s)
    ensures UnitText(UnitEscaped(s))
  {
    if s != [] {
      UnitTailReadBack(s[1..]);
      UnitUnescapedByte(s[0], UnitTail(s[1..]));
      UnitUnescapedHexed(s[0], UnitTail(s[1..]));
      UnitByteText(s[0]);
      assert s == [s[0]] + s[1..];
    }
  }
}

/** Which unit a process runs in, by its cgroup. */
module Peer {
  import opened Prelude
  import opened Escape

  /** The position of the first `c`, or the length if there is none. */
  function Find(s: string, c: char): (i: nat)
    ensures i <= |s| && (i < |s| ==> s[i] == c)
    ensures forall k :: 0 <= k < i ==> s[k] != c
  {
    if s == "" || s[0] == c then 0 else 1 + Find(s[1..], c)
  }

  /** `str::lines`: a line break is a line feed, with the carriage return before
      it if there is one. */
  function Lines(s: string): seq<string> {
    if s == "" then []
    else
      var i := Find(s, '\n');
      if i == |s| then [s] else [Stripped(s[..i])] + Lines(s[i + 1..])
  }

  function Stripped(line: string): string {
    if line != "" && line[|line| - 1] == '\r' then line[..|line| - 1] else line
  }

  /** A text of these lines, each followed by its line break. */
  function Text(lines: seq<string>, breaks: seq<string>): string
    requires |lines| == |breaks|
  {
    if lines == [] then "" else lines[0] + breaks[0] + Text(lines[1..], breaks[1..])
  }

  /** A line has no line feed in it and no carriage return at its end. */
  predicate IsLine(line: string) {
    '\n' !in line && (line != "" ==> line[|line| - 1] != '\r')
  }

  /** Each line break is a line feed, with a carriage return before it or not; the
      last may be missing, unless the line would be empty. */
  ghost predicate Broken(lines: seq<string>, breaks: seq<string>) {
    && |lines| == |breaks|
    && (forall i :: 0 <= i < |lines| ==> IsLine(lines[i]))
    && (forall i :: 0 <= i < |breaks| ==>
      breaks[i] in {"\n", "\r\n"} || (breaks[i] == "" && i == |breaks| - 1 && lines[i] != ""))
  }

  lemma FindIs(before: string, c: char, rest: string)
    requires c !in before
    ensures Find(before + [c] + rest, c) == |before|
  {
    var s := before + [c] + rest;
    assert s[|before|] == c;
    assert forall k :: 0 <= k < |before| ==> s[k] == before[k];
  }

  lemma CutAt(before: string, rest: string)
    requires '\n' !in before
    ensures Lines(before + ['\n'] + rest) == [Stripped(before)] + Lines(rest)
  {
    var s := before + ['\n'] + rest;
    FindIs(before, '\n', rest);
    assert s[..|before|] == before && s[|before| + 1..] == rest;
  }

  lemma StripsReturn(line: string)
    ensures Stripped(line + "\r") == line
    ensures IsLine(line) ==> Stripped(line) == line
  {
    var more := line + "\r";
    assert more[..|more| - 1] == line;
  }

  lemma LineFirst(line: string, end: string, rest: string)
    requires IsLine(line) && end in {"\n", "\r\n"}
    ensures Lines(line + end + rest) == [line] + Lines(rest)
  {
    StripsReturn(line);
    if end == "\n" {
      assert line + end + rest == line + ['\n'] + rest;
      CutAt(line, rest);
    } else {
      assert line + end + rest == line + "\r" + ['\n'] + rest;
      CutAt(line + "\r", rest);
    }
  }

  /** Whatever the lines, and however they are ended, they come back. */
  lemma {:induction false} LinesReadBack(lines: seq<string>, breaks: seq<string>)
    requires Broken(lines, breaks)
    ensures Lines(Text(lines, breaks)) == lines
  {
    if lines != [] {
      var rest := Text(lines[1..], breaks[1..]);
      LinesReadBack(lines[1..], breaks[1..]);
      if breaks[0] == "" {
        assert lines[0] + breaks[0] + rest == lines[0];
        OneLine(lines[0]);
      } else {
        LineFirst(lines[0], breaks[0], rest);
      }
      assert lines == [lines[0]] + lines[1..];
    }
  }

  const UNIFIED := "0::"

  function UnifiedPath(lines: seq<string>): Option<string> {
    if lines == [] then None
    else if UNIFIED <= lines[0] then Some(lines[0][|UNIFIED|..])
    else UnifiedPath(lines[1..])
  }

  /** What follows the last slash. */
  function LastComponent(path: string): string {
    if path == "" then ""
    else if path[|path| - 1] == '/' then ""
    else LastComponent(path[..|path| - 1]) + [path[|path| - 1]]
  }

  /** What follows the last slash is `name`, or all of it when there is none. */
  ghost predicate EndsIn(path: string, name: string) {
    '/' !in name && (path == name || exists head :: path == head + "/" + name)
  }

  lemma {:induction false} LastComponentExact(path: string, name: string)
    ensures LastComponent(path) == name <==> EndsIn(path, name)
  {
    NoSlashIn(path);
    if LastComponent(path) == name {
      var head := LastComponentSplits(path);
    }
    if EndsIn(path, name) {
      if path == name {
        LastComponentAll(path);
      } else {
        var head :| path == head + "/" + name;
        LastComponentOf(head, name);
      }
    }
  }

  lemma {:induction false} NoSlashIn(path: string)
    ensures '/' !in LastComponent(path)
  {
    if path != "" && path[|path| - 1] != '/' {
      NoSlashIn(path[..|path| - 1]);
    }
  }

  lemma {:induction false} LastComponentAll(path: string)
    requires '/' !in path
    ensures LastComponent(path) == path
  {
    if path != "" {
      assert forall c :: c in path[..|path| - 1] ==> c in path;
      assert path[|path| - 1] in path;
      LastComponentAll(path[..|path| - 1]);
      assert path == path[..|path| - 1] + [path[|path| - 1]];
    }
  }

  lemma {:induction false} LastComponentSplits(path: string) returns (head: string)
    ensures path == LastComponent(path) || path == head + "/" + LastComponent(path)
  {
    head := "";
    if path != "" {
      var init, last := path[..|path| - 1], path[|path| - 1];
      assert path == init + [last];
      if last == '/' {
        head := init;
        assert path == head + "/" + "";
      } else {
        head := LastComponentSplits(init);
        if init != LastComponent(init) {
          assert path == head + "/" + (LastComponent(init) + [last]);
        }
      }
    }
  }

  predicate InUnit(cgroup: string, unit: string) {
    var path := UnifiedPath(Lines(cgroup));
    path.Some? && LastComponent(path.value) == unit
  }

  /** The first line of the unified hierarchy. */
  ghost predicate Unified(lines: seq<string>, k: nat) {
    k < |lines| && "0::" <= lines[k] && forall j :: 0 <= j < k ==> !("0::" <= lines[j])
  }

  lemma {:induction false} UnifiedPathExact(lines: seq<string>)
    ensures UnifiedPath(lines).None? <==> forall j :: 0 <= j < |lines| ==> !("0::" <= lines[j])
    ensures forall k: nat :: Unified(lines, k) ==> UnifiedPath(lines) == Some(lines[k][3..])
    ensures UnifiedPath(lines).Some? ==> exists k: nat :: Unified(lines, k)
  {
    if lines != [] {
      var rest := lines[1..];
      UnifiedPathExact(rest);
      assert forall j :: 0 <= j < |rest| ==> rest[j] == lines[j + 1];
      if !("0::" <= lines[0]) {
        forall k: nat | Unified(lines, k) ensures UnifiedPath(lines) == Some(lines[k][3..]) {
          assert Unified(rest, k - 1);
        }
        if UnifiedPath(rest).Some? {
          var k: nat :| Unified(rest, k);
          assert Unified(lines, k + 1);
        }
      } else {
        assert Unified(lines, 0);
      }
    }
  }

  /** A process is in a unit exactly when, of the lines its cgroup file has, the
      first of the unified hierarchy goes on with a path whose last component is
      the unit; however the lines are ended, and whatever other hierarchies come
      before and after. */
  lemma InUnitExact(lines: seq<string>, breaks: seq<string>, unit: string)
    requires Broken(lines, breaks)
    ensures InUnit(Text(lines, breaks), unit) <==> exists k: nat :: Unified(lines, k) && EndsIn(lines[k][3..], unit)
  {
    LinesReadBack(lines, breaks);
    UnifiedPathExact(lines);
    if UnifiedPath(lines).Some? {
      LastComponentExact(UnifiedPath(lines).value, unit);
    }
  }

  function UnitOf(volume: seq<u8>): string {
    "systemd-cryptsetup@" + UnitEscaped(volume) + ".service"
  }

  lemma UnitOfInjective(v: seq<u8>, w: seq<u8>)
    requires UnitOf(v) == UnitOf(w)
    ensures v == w
  {
    var a, b := UnitOf(v), UnitOf(w);
    assert |a| == |b|;
    assert a[19..|a| - 8] == UnitEscaped(v) && b[19..|b| - 8] == UnitEscaped(w);
    UnitEscapedReadBack(v);
    UnitEscapedReadBack(w);
  }

  /** No process is in the units of two volumes. */
  lemma OneVolumePerCgroup(cgroup: string, v: seq<u8>, w: seq<u8>)
    requires InUnit(cgroup, UnitOf(v)) && InUnit(cgroup, UnitOf(w))
    ensures v == w
  {
    UnitOfInjective(v, w);
  }

  lemma {:induction false} LastComponentOf(path: string, name: string)
    requires '/' !in name
    ensures LastComponent(path + "/" + name) == name
  {
    var p := path + "/" + name;
    if name == "" {
      assert p[|p| - 1] == '/';
    } else {
      assert p[..|p| - 1] == path + "/" + name[..|name| - 1];
      LastComponentOf(path, name[..|name| - 1]);
    }
  }

  /** And every volume has cgroups that count as its own: those whose unified
      path ends in its unit, as the kernel writes them. */
  lemma OwnUnitAccepted(path: string, volume: seq<u8>)
    requires '\n' !in path
    ensures InUnit(UNIFIED + path + "/" + UnitOf(volume), UnitOf(volume))
    ensures InUnit(UNIFIED + path + "/" + UnitOf(volume) + "\n", UnitOf(volume))
  {
    var line := UNIFIED + path + "/" + UnitOf(volume);
    OwnLine(path, volume);
    OneUnified(line, UnitOf(volume), "");
    OneUnified(line, UnitOf(volume), "\n");
    assert line + "" == line;
  }

  lemma OwnLine(path: string, volume: seq<u8>)
    requires '\n' !in path
    ensures var line := UNIFIED + path + "/" + UnitOf(volume);
      IsLine(line) && UNIFIED <= line && EndsIn(line[3..], UnitOf(volume))
  {
    var unit := UnitOf(volume);
    var line := UNIFIED + path + "/" + unit;
    UnitOneComponent(volume);
    UnitEnds(volume, UNIFIED + path + "/");
    Continues(path, unit);
  }

  lemma Continues(path: string, unit: string)
    requires '/' !in unit
    ensures EndsIn((UNIFIED + path + "/" + unit)[3..], unit)
  {
    assert (UNIFIED + path + "/" + unit)[3..] == path + "/" + unit;
  }

  lemma UnitEnds(volume: seq<u8>, before: string)
    ensures var line := before + UnitOf(volume); line[|line| - 1] == 'e'
  {
    var unit := UnitOf(volume);
    assert unit[|unit| - 1] == ".service"[7];
  }

  lemma OneUnified(line: string, unit: string, end: string)
    requires IsLine(line) && UNIFIED <= line && EndsIn(line[3..], unit) && end in {"", "\n"}
    ensures InUnit(line + end, unit)
  {
    assert [line][1..] == [] && [end][1..] == [];
    assert Text([line], [end]) == line + end + "" == line + end;
    assert Unified([line], 0) && EndsIn([line][0][3..], unit);
    InUnitExact([line], [end], unit);
  }

  /** A volume's unit, by the name systemd gives it. */
  lemma UnitNamed(volume: seq<u8>)
    requires (forall b :: b in volume ==> b as char in UNCHANGED) && (volume != [] ==> volume[0] != 0x2e)
    ensures UnitOf(volume) == "systemd-cryptsetup@" + AsText(volume) + ".service"
  {
    UnitUnchanged(volume);
  }

  lemma UnitOneComponent(volume: seq<u8>)
    ensures '/' !in UnitOf(volume) && '\n' !in UnitOf(volume)
  {
    UnitEscapedReadBack(volume);
    ComponentOf("systemd-cryptsetup@", UnitEscaped(volume), ".service");
  }

  predicate OneComponent(s: string) {
    '/' !in s && '\n' !in s
  }

  lemma ComponentOf(before: string, name: string, after: string)
    requires OneComponent(before) && OneComponent(name) && OneComponent(after)
    ensures OneComponent(before + name + after)
  {
  }

  lemma OneLine(line: string)
    requires line != "" && '\n' !in line
    ensures Lines(line) == [line]
  {
    assert Find(line, '\n') == |line|;
  }
}

/** What `systemd-ask-password --multiple` printed. */
module AskPw {
  import opened Prelude

  const MAX_CANDIDATES: nat := 4
  const NEWLINE: u8 := 0x0a

  type Secret = seq<u8>

  /** The pieces between newlines; always at least one. */
  function Split(s: seq<u8>): (r: seq<Secret>)
    ensures r != []
  {
    if s == [] then [[]]
    else
      var rest := Split(s[1..]);
      if s[0] == NEWLINE then [[]] + rest else [[s[0]] + rest[0]] + rest[1..]
  }

  function NonEmpty(list: seq<Secret>): seq<Secret> {
    if list == [] then []
    else if list[0] == [] then NonEmpty(list[1..])
    else [list[0]] + NonEmpty(list[1..])
  }

  function Candidates(stdout: seq<u8>): (r: seq<Secret>)
    ensures |r| <= MAX_CANDIDATES
  {
    var all := NonEmpty(Split(stdout));
    if |all| <= MAX_CANDIDATES then all else all[..MAX_CANDIDATES]
  }

  function Joined(list: seq<Secret>): seq<u8> {
    if list == [] then []
    else if |list| == 1 then list[0]
    else list[0] + [NEWLINE] + Joined(list[1..])
  }

  /** Splitting loses nothing. */
  lemma {:induction false} JoinedSplit(s: seq<u8>)
    ensures Joined(Split(s)) == s
  {
    if s != [] {
      JoinedSplit(s[1..]);
      var rest := Split(s[1..]);
      if s[0] == NEWLINE {
        assert ([[]] + rest)[1..] == rest;
        assert Joined([[]] + rest) == [] + [NEWLINE] + Joined(rest);
      } else {
        var r := [[s[0]] + rest[0]] + rest[1..];
        assert r[1..] == rest[1..];
        assert Joined(r) == [s[0]] + Joined(rest);
      }
    }
  }

  lemma {:induction false} SplitPiece(piece: Secret, rest: seq<u8>)
    requires NEWLINE !in piece
    ensures Split(piece + [NEWLINE] + rest) == [piece] + Split(rest)
    ensures Split(piece) == [piece]
  {
    if piece == [] {
      assert piece + [NEWLINE] + rest == [NEWLINE] + rest;
      assert ([NEWLINE] + rest)[1..] == rest;
    } else {
      assert NEWLINE !in piece[1..];
      SplitPiece(piece[1..], rest);
      assert (piece + [NEWLINE] + rest)[1..] == piece[1..] + [NEWLINE] + rest;
      assert piece == [piece[0]] + piece[1..];
      assert ([piece[1..]] + Split(rest))[1..] == Split(rest);
    }
  }

  lemma {:induction false} SplitJoined(list: seq<Secret>)
    requires list != [] && forall p :: p in list ==> NEWLINE !in p
    ensures Split(Joined(list)) == list
  {
    if |list| == 1 {
      SplitPiece(list[0], []);
      assert list == [list[0]];
    } else {
      SplitJoined(list[1..]);
      SplitPiece(list[0], Joined(list[1..]));
      assert list == [list[0]] + list[1..];
    }
  }

  lemma {:induction false} NonEmptyAll(list: seq<Secret>)
    requires [] !in list
    ensures NonEmpty(list) == list
  {
    if list != [] {
      assert list == [list[0]] + list[1..];
      NonEmptyAll(list[1..]);
    }
  }

  ghost predicate Lineless(list: seq<Secret>) {
    forall p :: p in list ==> NEWLINE !in p
  }

  function FirstFour(list: seq<Secret>): seq<Secret> {
    if |list| <= 4 then list else list[..4]
  }

  lemma {:induction false} NonEmptyJoined(a: seq<Secret>, b: seq<Secret>)
    ensures NonEmpty(a + b) == NonEmpty(a) + NonEmpty(b)
  {
    if a == [] {
      assert a + b == b;
    } else {
      NonEmptyJoined(a[1..], b);
      assert (a + b)[1..] == a[1..] + b;
      if a[0] != [] {
        assert [a[0]] + (NonEmpty(a[1..]) + NonEmpty(b)) == [a[0]] + NonEmpty(a[1..]) + NonEmpty(b);
      }
    }
  }

  lemma NonEmptyOne(p: Secret)
    ensures NonEmpty([p]) == if p == [] then [] else [p]
  {
    assert [p][1..] == [];
    assert NonEmpty([p][1..]) == [];
  }

  /** What is dropped is the empty pieces, and nothing else; the order stays. */
  lemma NonEmptyExact(a: seq<Secret>, p: Secret, b: seq<Secret>)
    ensures NonEmpty([]) == []
    ensures NonEmpty(a + [p] + b) == NonEmpty(a) + (if p == [] then [] else [p]) + NonEmpty(b)
  {
    NonEmptyJoined(a + [p], b);
    NonEmptyJoined(a, [p]);
    NonEmptyOne(p);
  }

  /** What was printed, split at its newlines: the first four pieces that are not
      empty. */
  lemma CandidatesExact(list: seq<Secret>)
    requires list != [] && Lineless(list)
    ensures Candidates(Joined(list)) == FirstFour(NonEmpty(list))
  {
    SplitJoined(list);
  }

  /** Passphrases without newlines, printed one a line without a final line
      break, come back verbatim and in order, up to the limit. */
  lemma CandidatesOffered(list: seq<Secret>)
    requires forall p :: p in list ==> NEWLINE !in p && p != []
    ensures Candidates(Joined(list)) == if |list| <= 4 then list else list[..4]
  {
    if list != [] {
      SplitJoined(list);
      NonEmptyAll(list);
    }
  }
}
