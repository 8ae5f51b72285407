/** The abstract socket name a peer binds: RANDOM, an infix, the volume. */
module BindName {
  import opened Prelude
  import Escape

  datatype Phase = Plain | Tpm2 | Fido2Salt | Pkcs11 | Unknown

  datatype PeerName = PeerName(phase: Phase, volume: seq<u8>)

  datatype Infix = Infix(bytes: seq<u8>, phase: Phase)

  function Ascii(text: string): (r: seq<u8>)
    ensures |r| == |text|
    ensures forall i :: 0 <= i < |r| && text[i] as int < 0x80 ==> r[i] == text[i] as int
  {
    seq(|text|, i requires 0 <= i < |text| => text[i] as int % 0x100)
  }

  const SLASH: u8 := 0x2f

  function Table(): seq<Infix> {
    [ Infix(Ascii("/cryptsetup/"), Plain),
      Infix(Ascii("/cryptsetup-tpm2/"), Tpm2),
      Infix(Ascii("/cryptsetup-fido2-salt/"), Fido2Salt),
      Infix(Ascii("/cryptsetup-pkcs11/"), Pkcs11)]
  }

  /** The position of the first slash, or the length if there is none. */
  function FirstSlash(s: seq<u8>): (i: nat)
    ensures i <= |s| && (i < |s| ==> s[i] == SLASH)
    ensures forall k :: 0 <= k < i ==> s[k] != SLASH
  {
    if s == [] || s[0] == SLASH then 0 else 1 + FirstSlash(s[1..])
  }

  /** The position after the last slash, or zero if there is none. */
  function AfterLastSlash(s: seq<u8>): (i: nat)
    ensures i <= |s| && (i > 0 ==> s[i - 1] == SLASH)
    ensures forall k :: i <= k < |s| ==> s[k] != SLASH
  {
    if s == [] then 0
    else if s[|s| - 1] == SLASH then |s|
    else AfterLastSlash(s[..|s| - 1])
  }

  predicate Alphanumeric(b: u8) {
    0x30 <= b <= 0x39 || 0x41 <= b <= 0x5a || 0x61 <= b <= 0x7a
  }

  predicate IsRandom(s: seq<u8>) {
    s != [] && forall i :: 0 <= i < |s| ==> Alphanumeric(s[i])
  }

  /** The first entry whose infix starts `rest`. */
  function FirstMatch(table: seq<Infix>, rest: seq<u8>): (r: Option<Infix>)
    ensures r.Some? ==> r.value in table && r.value.bytes <= rest
    ensures r.None? ==> forall e :: e in table ==> !(e.bytes <= rest)
  {
    if table == [] then None
    else
      assert forall e :: e in table <==> e == table[0] || e in table[1..];
      if table[0].bytes <= rest then Some(table[0]) else FirstMatch(table[1..], rest)
  }

  function Named(phase: Phase, volume: seq<u8>): Option<PeerName> {
    if volume == [] then None else Some(PeerName(phase, volume))
  }

  function ParseWith(table: seq<Infix>, name: seq<u8>): Option<PeerName> {
    var slash := FirstSlash(name);
    if slash == |name| || !IsRandom(name[..slash]) then None
    else
      var rest := name[slash..];
      match FirstMatch(table, rest)
      case Some(infix) => Named(infix.phase, rest[|infix.bytes|..])
      case None => Named(Unknown, rest[AfterLastSlash(rest)..])
  }

  function Parse(name: seq<u8>): Option<PeerName> {
    ParseWith(Table(), name)
  }

  // ---- The table ---------------------------------------------------------

  lemma TableShape(e: Infix)
    requires e in Table()
    ensures |e.bytes| > 12 || e == Table()[0]
    ensures |e.bytes| >= 12 && e.bytes[0] == SLASH && e.phase != Unknown
    ensures e.phase == Plain ==> e.bytes[11] == SLASH
    ensures e.phase != Plain ==> e.bytes[11] == '-' as int
    ensures e.phase == Tpm2 ==> e.bytes[12] == 't' as int
    ensures e.phase == Fido2Salt ==> e.bytes[12] == 'f' as int
    ensures e.phase == Pkcs11 ==> e.bytes[12] == 'p' as int
  {
    var t := Table();
    assert e == t[0] || e == t[1] || e == t[2] || e == t[3];
  }

  lemma PhaseDetermines(a: Infix, b: Infix)
    requires a in Table() && b in Table() && a.phase == b.phase
    ensures a == b
  {
    var t := Table();
    assert a == t[0] || a == t[1] || a == t[2] || a == t[3];
    assert b == t[0] || b == t[1] || b == t[2] || b == t[3];
  }

  /** No two infixes start the same name. */
  lemma OneInfix(a: Infix, b: Infix, rest: seq<u8>)
    requires a in Table() && b in Table() && a.bytes <= rest && b.bytes <= rest
    ensures a == b
  {
    TableShape(a);
    TableShape(b);
    assert rest[11] == a.bytes[11] && rest[11] == b.bytes[11];
    if a.phase != Plain {
      assert rest[12] == a.bytes[12] && rest[12] == b.bytes[12];
    }
    PhaseDetermines(a, b);
  }

  lemma MatchIs(table: seq<Infix>, e: Infix, rest: seq<u8>)
    requires forall x :: x in table <==> x in Table()
    requires e in Table() && e.bytes <= rest
    ensures FirstMatch(table, rest) == Some(e)
  {
    OneInfix(FirstMatch(table, rest).value, e, rest);
  }

  // ---- What parsing means ------------------------------------------------

  /** In whatever order the table is searched, the answer is the same. */
  lemma OrderIrrelevant(table: seq<Infix>, name: seq<u8>)
    requires forall e :: e in table <==> e in Table()
    ensures ParseWith(table, name) == Parse(name)
  {
    var rest := name[FirstSlash(name)..];
    if FirstMatch(Table(), rest).Some? {
      MatchIs(table, FirstMatch(Table(), rest).value, rest);
    }
  }

  lemma SplitsAt(random: seq<u8>, rest: seq<u8>)
    requires IsRandom(random) && rest != [] && rest[0] == SLASH
    ensures FirstSlash(random + rest) == |random|
  {
    var s := random + rest;
    assert s[|random|] == SLASH;
    assert forall k :: 0 <= k < |random| ==> s[k] == random[k];
  }

  lemma ComposedParses(random: seq<u8>, e: Infix, volume: seq<u8>)
    requires e in Table() && volume != [] && IsRandom(random)
    ensures Parse(random + (e.bytes + volume)) == Some(PeerName(e.phase, volume))
  {
    TableShape(e);
    var rest := e.bytes + volume;
    SplitsAt(random, rest);
    assert (random + rest)[..|random|] == random && (random + rest)[|random|..] == rest;
    MatchIs(Table(), e, rest);
  }

  lemma ParsedComposes(name: seq<u8>, e: Infix, volume: seq<u8>) returns (random: seq<u8>)
    requires e in Table() && Parse(name) == Some(PeerName(e.phase, volume))
    ensures IsRandom(random) && name == random + (e.bytes + volume)
  {
    TableShape(e);
    random := name[..FirstSlash(name)];
    var rest := name[FirstSlash(name)..];
    var found := FirstMatch(Table(), rest);
    PhaseDetermines(found.value, e);
    assert rest == e.bytes + volume;
    assert name == random + rest;
  }

  /** A name is of a known phase and volume exactly when it is an alphanumeric
      prefix, that phase's infix, and then that volume. */
  lemma ParsesExactly(name: seq<u8>, e: Infix, volume: seq<u8>)
    requires e in Table() && volume != []
    ensures Parse(name) == Some(PeerName(e.phase, volume))
        <==> exists random :: IsRandom(random) && name == random + (e.bytes + volume)
  {
    if Parse(name) == Some(PeerName(e.phase, volume)) {
      var random := ParsedComposes(name, e, volume);
    }
    forall r | IsRandom(r) && name == r + (e.bytes + volume)
      ensures Parse(name) == Some(PeerName(e.phase, volume))
    {
      ComposedParses(r, e, volume);
    }
  }

  /** `middle` runs from the first slash to the last, and no known infix starts
      there. */
  ghost predicate IsUnknown(name: seq<u8>, random: seq<u8>, middle: seq<u8>, volume: seq<u8>) {
    && name == random + (middle + volume)
    && IsRandom(random) && SLASH !in volume
    && middle != [] && middle[0] == SLASH && middle[|middle| - 1] == SLASH
    && forall e :: e in Table() ==> !(e.bytes <= middle + volume)
  }

  lemma UnknownComposed(name: seq<u8>, random: seq<u8>, middle: seq<u8>, volume: seq<u8>)
    requires volume != [] && IsUnknown(name, random, middle, volume)
    ensures Parse(name) == Some(PeerName(Unknown, volume))
  {
    SplitsAt(random, middle + volume);
    assert name[..|random|] == random && name[|random|..] == middle + volume;
    LastCut(middle, volume);
  }

  lemma UnknownParsed(name: seq<u8>, volume: seq<u8>) returns (random: seq<u8>, middle: seq<u8>)
    requires Parse(name) == Some(PeerName(Unknown, volume))
    ensures IsUnknown(name, random, middle, volume)
  {
    random := name[..FirstSlash(name)];
    var rest := name[FirstSlash(name)..];
    if FirstMatch(Table(), rest).Some? {
      TableShape(FirstMatch(Table(), rest).value);
    }
    var cut := AfterLastSlash(rest);
    assert rest[0] == SLASH;
    middle := rest[..cut];
    assert rest == middle + volume;
    assert name == random + rest;
  }

  /** A name is of an unknown phase exactly when it has the documented shape,
      no known infix follows the prefix, and the last component is not empty --
      which is then the volume. */
  lemma UnknownExactly(name: seq<u8>, volume: seq<u8>)
    requires volume != []
    ensures Parse(name) == Some(PeerName(Unknown, volume))
        <==> exists random, middle :: IsUnknown(name, random, middle, volume)
  {
    if Parse(name) == Some(PeerName(Unknown, volume)) {
      var random, middle := UnknownParsed(name, volume);
    }
    forall r, m | IsUnknown(name, r, m, volume) ensures Parse(name) == Some(PeerName(Unknown, volume)) {
      UnknownComposed(name, r, m, volume);
    }
  }

  lemma LastCut(middle: seq<u8>, volume: seq<u8>)
    requires middle != [] && middle[|middle| - 1] == SLASH && SLASH !in volume
    ensures AfterLastSlash(middle + volume) == |middle|
    ensures (middle + volume)[|middle|..] == volume
  {
    var s := middle + volume;
    var cut := AfterLastSlash(s);
    assert s[|middle| - 1] == SLASH;
    forall k | |middle| <= k < |s| ensures s[k] in volume {
      assert s[k] == volume[k - |middle|];
    }
    assert cut >= |middle|;
  }

  // ---- In letters --------------------------------------------------------

  ghost predicate LetterOrDigit(c: char) {
    c in "ABCDEFGHIJKLMNOPQRSTUVWXYZ" || c in "abcdefghijklmnopqrstuvwxyz" || c in "0123456789"
  }

  lemma AlphanumericExact(b: u8)
    ensures Alphanumeric(b) <==> LetterOrDigit(b as char)
  {
    Escape.CapitalExact(b);
    Escape.LetterExact(b);
    DigitExact(b);
  }

  lemma DigitExact(b: u8)
    ensures b as char in "0123456789" <==> '0' as int <= b <= '9' as int
  {
    if '0' as int <= b <= '9' as int {
      assert "0123456789"[b - '0' as int] == b as char;
    }
  }

  /** The name is letters and digits, at least one, this text, and then the
      volume. */
  ghost predicate Reads(name: seq<u8>, text: string, volume: seq<u8>) {
    exists random :: Random(random) && name == random + (Ascii(text) + volume)
  }

  ghost predicate Random(s: seq<u8>) {
    |s| >= 1 && forall b :: b in s ==> LetterOrDigit(b as char)
  }

  lemma RandomExact(s: seq<u8>)
    ensures IsRandom(s) <==> Random(s)
  {
    if IsRandom(s) {
      forall b | b in s ensures LetterOrDigit(b as char) {
        var i :| 0 <= i < |s| && s[i] == b;
        AlphanumericExact(b);
      }
    }
    if Random(s) {
      forall i | 0 <= i < |s| ensures Alphanumeric(s[i]) {
        assert s[i] in s;
        AlphanumericExact(s[i]);
      }
    }
  }

  lemma ReadsComposed(name: seq<u8>, text: string, volume: seq<u8>)
    ensures Reads(name, text, volume)
        <==> exists random :: IsRandom(random) && name == random + (Ascii(text) + volume)
  {
    forall s ensures Random(s) <==> IsRandom(s) {
      RandomExact(s);
    }
  }

  /** Each phase has its infix. */
  lemma PhasesExactly(name: seq<u8>, volume: seq<u8>)
    requires volume != []
    ensures Parse(name) == Some(PeerName(Plain, volume)) <==> Reads(name, "/cryptsetup/", volume)
    ensures Parse(name) == Some(PeerName(Tpm2, volume)) <==> Reads(name, "/cryptsetup-tpm2/", volume)
    ensures Parse(name) == Some(PeerName(Fido2Salt, volume)) <==> Reads(name, "/cryptsetup-fido2-salt/", volume)
    ensures Parse(name) == Some(PeerName(Pkcs11, volume)) <==> Reads(name, "/cryptsetup-pkcs11/", volume)
  {
    PhaseExactly(name, Table()[0], "/cryptsetup/", volume);
    PhaseExactly(name, Table()[1], "/cryptsetup-tpm2/", volume);
    PhaseExactly(name, Table()[2], "/cryptsetup-fido2-salt/", volume);
    PhaseExactly(name, Table()[3], "/cryptsetup-pkcs11/", volume);
  }

  lemma PhaseExactly(name: seq<u8>, e: Infix, text: string, volume: seq<u8>)
    requires volume != [] && e in Table() && e.bytes == Ascii(text)
    ensures Parse(name) == Some(PeerName(e.phase, volume)) <==> Reads(name, text, volume)
  {
    ParsesExactly(name, e, volume);
    ReadsComposed(name, text, volume);
  }
}
