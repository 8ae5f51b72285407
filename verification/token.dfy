/** JSON values as `serde_json` holds them. An object is its entries in the
    order iteration visits them; keys do not repeat. */
module Json {
  import opened Prelude

  datatype Value =
    | Null
    | Bool(flag: bool)
    | Number(n: int)
    | String(text: string)
    | Array(items: seq<Value>)
    | Object(entries: seq<(string, Value)>)
  {
    function Get(key: string): Option<Value> {
      if Object? then Lookup(entries, key) else None
    }

    predicate Has(key: string) {
      Get(key).Some?
    }

    function AsStr(): Option<string> {
      if String? then Some(text) else None
    }

    function AsBool(): Option<bool> {
      if Bool? then Some(flag) else None
    }

    function AsU64(): Option<nat> {
      if Number? && 0 <= n < 0x1_0000_0000_0000_0000 then Some(n) else None
    }
  }

  function Lookup(entries: seq<(string, Value)>, key: string): Option<Value> {
    if entries == [] then None
    else if entries[0].0 == key then Some(entries[0].1)
    else Lookup(entries[1..], key)
  }

  lemma {:induction false} LookupAt(entries: seq<(string, Value)>, key: string, k: nat)
    requires k < |entries| && entries[k].0 == key && forall i :: 0 <= i < k ==> entries[i].0 != key
    ensures Lookup(entries, key) == Some(entries[k].1)
  {
    if k > 0 {
      LookupAt(entries[1..], key, k - 1);
    }
  }

  lemma {:induction false} LookupNone(entries: seq<(string, Value)>, key: string)
    requires forall i :: 0 <= i < |entries| ==> entries[i].0 != key
    ensures Lookup(entries, key) == None
  {
    if entries != [] {
      LookupNone(entries[1..], key);
    }
  }

  /** The object has an entry with this key, and the first such is this. */
  ghost predicate Holds(v: Value, key: string, x: Value) {
    && v.Object?
    && exists k :: 0 <= k < |v.entries| && v.entries[k] == (key, x) && forall j :: 0 <= j < k ==> v.entries[j].0 != key
  }

  ghost predicate Lacks(v: Value, key: string) {
    v.Object? ==> forall k :: 0 <= k < |v.entries| ==> v.entries[k].0 != key
  }

  lemma {:induction false} FirstWith(entries: seq<(string, Value)>, key: string) returns (k: nat)
    requires exists i :: 0 <= i < |entries| && entries[i].0 == key
    ensures k < |entries| && entries[k].0 == key && forall j :: 0 <= j < k ==> entries[j].0 != key
  {
    if entries[0].0 == key {
      k := 0;
    } else {
      var i :| 0 <= i < |entries| && entries[i].0 == key;
      assert entries[1..][i - 1].0 == key;
      var n := FirstWith(entries[1..], key);
      k := n + 1;
      forall j | 0 <= j < k ensures entries[j].0 != key {
        assert j > 0 ==> entries[1..][j - 1] == entries[j];
      }
    }
  }

  lemma GetExact(v: Value, key: string)
    ensures v.Get(key) == None <==> Lacks(v, key)
    ensures forall x :: Holds(v, key, x) <==> v.Get(key) == Some(x)
  {
    if v.Object? {
      if Lacks(v, key) {
        LookupNone(v.entries, key);
      } else {
        var k := FirstWith(v.entries, key);
        LookupAt(v.entries, key, k);
        assert v.entries[k] == (key, v.entries[k].1);
      }
      forall x | Holds(v, key, x) ensures v.Get(key) == Some(x) {
        var k :| 0 <= k < |v.entries| && v.entries[k] == (key, x) && forall j :: 0 <= j < k ==> v.entries[j].0 != key;
        LookupAt(v.entries, key, k);
      }
    }
  }
}

/** Hexadecimal, as `char::to_digit(16)` reads it. */
module Hex {
  import opened Prelude

  function Digit(c: char): Option<nat> {
    if '0' <= c <= '9' then Some((c - '0') as nat)
    else if 'a' <= c <= 'f' then Some((c - 'a') as nat + 10)
    else if 'A' <= c <= 'F' then Some((c - 'A') as nat + 10)
    else None
  }

  const DIGITS := "0123456789abcdef"

  /** Two lower-case digits a byte. */
  function Hex(bytes: seq<u8>): string {
    if bytes == [] then "" else [DIGITS[bytes[0] / 16], DIGITS[bytes[0] % 16]] + Hex(bytes[1..])
  }

  function Lower(c: char): char {
    if 'A' <= c <= 'F' then c - 'A' + 'a' else c
  }

  /** `text` with its hexadecimal digits in lower case. */
  function LowerAll(text: string): string {
    if text == "" then "" else [Lower(text[0])] + LowerAll(text[1..])
  }

  function Unhexed(text: string): Option<seq<u8>> {
    if text == "" then Some([])
    else if |text| == 1 || Digit(text[0]).None? || Digit(text[1]).None? then None
    else Continue([Digit(text[0]).value * 16 + Digit(text[1]).value], Unhexed(text[2..]))
  }

  method Unhex(text: string) returns (r: Option<seq<u8>>)
    ensures r == Unhexed(text)
  {
    if |text| % 2 != 0 {
      OddIsNone(text);
      return None;
    }
    var out: seq<u8> := [];
    var i := 0;
    assert text[0..] == text;
    ContinueFrom([], 0, Unhexed(text));
    while i < |text|
      invariant 0 <= i <= |text| && i % 2 == 0
      invariant Unhexed(text) == Continue(out, Unhexed(text[i..]))
    {
      var hi, lo := Digit(text[i]), Digit(text[i + 1]);
      if hi.None? || lo.None? {
        return None;
      }
      assert text[i..][2..] == text[i + 2..];
      ContinueFrom(out, hi.value * 16 + lo.value, Unhexed(text[i + 2..]));
      out := out + [hi.value * 16 + lo.value];
      i := i + 2;
    }
    assert text[i..] == "" && out + [] == out;
    r := Some(out);
  }

  lemma ContinueFrom(done: seq<u8>, b: u8, rest: Option<seq<u8>>)
    ensures Continue([], rest) == rest
    ensures Continue(done, Continue([b], rest)) == Continue(done + [b], rest)
  {
    if rest.Some? {
      assert [] + rest.value == rest.value;
      assert done + ([b] + rest.value) == done + [b] + rest.value;
    }
  }

  function Continue(done: seq<u8>, rest: Option<seq<u8>>): Option<seq<u8>> {
    match rest
    case None => None
    case Some(more) => Some(done + more)
  }

  lemma {:induction false} OddIsNone(text: string)
    requires |text| % 2 != 0
    ensures Unhexed(text).None?
  {
    if |text| > 1 {
      OddIsNone(text[2..]);
    }
  }

  lemma DigitSpells(c: char, d: nat)
    requires d < 16
    ensures Digit(c) == Some(d) <==> Lower(c) == DIGITS[d]
  {
  }

  lemma TwoAhead(a0: char, a1: char, a: string, b0: char, b1: char, b: string)
    ensures [a0, a1] + a == [b0, b1] + b <==> a0 == b0 && a1 == b1 && a == b
  {
    var x, y := [a0, a1] + a, [b0, b1] + b;
    assert x[2..] == a && y[2..] == b && x[0] == a0 && x[1] == a1 && y[0] == b0 && y[1] == b1;
  }

  lemma TwoDigits(hi: nat, lo: nat, b: u8)
    requires hi < 16 && lo < 16
    ensures hi * 16 + lo == b <==> hi == b / 16 && lo == b % 16
  {
  }

  /** A text is read as `bytes` exactly when it spells their digits, in either
      case. */
  lemma {:induction false} UnhexExact(text: string, bytes: seq<u8>)
    ensures Unhexed(text) == Some(bytes) <==> LowerAll(text) == Hex(bytes)
  {
    if |text| >= 2 && bytes != [] {
      UnhexExact(text[2..], bytes[1..]);
      assert LowerAll(text) == [Lower(text[0]), Lower(text[1])] + LowerAll(text[2..]) by {
        assert text[1..][1..] == text[2..];
      }
      var hi, lo := bytes[0] / 16, bytes[0] % 16;
      DigitSpells(text[0], hi);
      DigitSpells(text[1], lo);
      TwoAhead(Lower(text[0]), Lower(text[1]), LowerAll(text[2..]), DIGITS[hi], DIGITS[lo], Hex(bytes[1..]));
      FirstByte(text, bytes);
    }
  }

  lemma FirstByte(text: string, bytes: seq<u8>)
    requires |text| >= 2 && bytes != []
    ensures Unhexed(text) == Some(bytes) <==>
      && Digit(text[0]) == Some(bytes[0] / 16) && Digit(text[1]) == Some(bytes[0] % 16)
      && Unhexed(text[2..]) == Some(bytes[1..])
  {
    assert bytes == [bytes[0]] + bytes[1..];
    var rest := Unhexed(text[2..]);
    if Digit(text[0]).Some? && Digit(text[1]).Some? && rest.Some? {
      var b := Digit(text[0]).value * 16 + Digit(text[1]).value;
      TwoDigits(Digit(text[0]).value, Digit(text[1]).value, bytes[0]);
      assert ([b] + rest.value)[0] == b && ([b] + rest.value)[1..] == rest.value;
    }
  }

  /** This character is the hexadecimal digit `d`. */
  predicate DigitIs(c: char, d: nat)
    requires d < 16
  {
    c == "0123456789abcdef"[d] || c == "0123456789ABCDEF"[d]
  }

  lemma DigitExact(c: char, d: nat)
    requires d < 16
    ensures Digit(c) == Some(d) <==> DigitIs(c, d)
  {
  }

  predicate PairAt(text: string, bytes: seq<u8>, i: nat)
    requires i < |bytes| && |text| == 2 * |bytes|
  {
    DigitIs(text[2 * i], bytes[i] / 16) && DigitIs(text[2 * i + 1], bytes[i] % 16)
  }

  predicate Spelled(text: string, bytes: seq<u8>) {
    |text| == 2 * |bytes| && forall i :: 0 <= i < |bytes| ==> PairAt(text, bytes, i)
  }

  /** A text is read as `bytes` exactly when it has two digits for each, the high
      one first, in either case. */
  lemma {:induction false} UnhexSpelled(text: string, bytes: seq<u8>)
    ensures Unhexed(text) == Some(bytes) <==> Spelled(text, bytes)
  {
    if |text| >= 2 && bytes != [] {
      UnhexSpelled(text[2..], bytes[1..]);
      FirstByte(text, bytes);
      DigitExact(text[0], bytes[0] / 16);
      DigitExact(text[1], bytes[0] % 16);
      SpelledFirst(text, bytes);
    }
  }

  lemma SpelledFirst(text: string, bytes: seq<u8>)
    requires |text| >= 2 && bytes != []
    ensures Spelled(text, bytes) <==>
      && DigitIs(text[0], bytes[0] / 16) && DigitIs(text[1], bytes[0] % 16) && Spelled(text[2..], bytes[1..])
  {
    if |text| == 2 * |bytes| {
      assert PairAt(text, bytes, 0) <==> DigitIs(text[0], bytes[0] / 16) && DigitIs(text[1], bytes[0] % 16);
      forall i | 0 <= i < |bytes| - 1 ensures PairAt(text[2..], bytes[1..], i) <==> PairAt(text, bytes, i + 1) {
        assert text[2..][2 * i] == text[2 * (i + 1)] && text[2..][2 * i + 1] == text[2 * (i + 1) + 1];
      }
      if PairAt(text, bytes, 0) && Spelled(text[2..], bytes[1..]) {
        forall i | 0 <= i < |bytes| ensures PairAt(text, bytes, i) {
          assert i > 0 ==> PairAt(text[2..], bytes[1..], i - 1);
        }
      }
    }
  }
}

/** Selections of PCRs as JSON lists, in the header and in the configuration. */
module Selections {
  import opened Prelude
  import opened Json
  import opened TpmClient
  import Lists

  datatype ListError = NotAnArray | NonInteger | NotAPcr(n: nat) | Empty

  const MAX_PCR: nat := 23

  /** The numbers of a list, or the first thing wrong with it. */
  function Numbers(items: seq<Value>): Result<seq<u8>, ListError> {
    if items == [] then Ok([])
    else if items[0].AsU64().None? then Err(NonInteger)
    else if items[0].AsU64().value > MAX_PCR then Err(NotAPcr(items[0].AsU64().value))
    else After([items[0].AsU64().value], Numbers(items[1..]))
  }

  function After(done: seq<u8>, rest: Result<seq<u8>, ListError>): Result<seq<u8>, ListError> {
    match rest
    case Ok(more) => Ok(done + more)
    case Err(e) => Err(e)
  }

  lemma AfterMore(done: seq<u8>, n: u8, rest: Result<seq<u8>, ListError>)
    ensures After([], rest) == rest
    ensures After(done, After([n], rest)) == After(done + [n], rest)
  {
    if rest.Ok? {
      assert [] + rest.value == rest.value;
      assert done + ([n] + rest.value) == done + [n] + rest.value;
    }
  }

  function HeaderPcrs(value: Value): Result<seq<u8>, ListError> {
    if !value.Array? then Err(NotAnArray) else
    var numbers :- Numbers(value.items);
    Ok(SortDedup(numbers))
  }

  function ConfigPcrs(value: Value): Result<seq<u8>, ListError> {
    if !value.Array? then Err(NotAnArray) else
    var numbers :- Numbers(value.items);
    if numbers == [] then Err(Empty) else Ok(SortDedup(numbers))
  }

  /** `token::pcr_list`: collect, sort, drop repeats. */
  method ReadHeaderPcrs(value: Value) returns (r: Result<seq<u8>, ListError>)
    ensures r == HeaderPcrs(value)
  {
    if !value.Array? {
      return Err(NotAnArray);
    }
    var list := value.items;
    var out: seq<u8> := [];
    assert list[0..] == list;
    AfterMore([], 0, Numbers(list));
    for i := 0 to |list|
      invariant Numbers(list) == After(out, Numbers(list[i..]))
    {
      var n := list[i].AsU64();
      if n.None? {
        return Err(NonInteger);
      }
      if n.value > MAX_PCR {
        return Err(NotAPcr(n.value));
      }
      assert list[i..][1..] == list[i + 1..];
      AfterMore(out, n.value, Numbers(list[i + 1..]));
      out := out + [n.value];
    }
    assert list[|list|..] == [] && out + [] == out;
    r := Ok(SortDedup(out));
  }

  /** `config::pcrs`: collect into an ordered set, refuse an empty one. */
  method ReadConfigPcrs(value: Value) returns (r: Result<seq<u8>, ListError>)
    ensures r == ConfigPcrs(value)
  {
    if !value.Array? {
      return Err(NotAnArray);
    }
    var list := value.items;
    var out: set<int> := {};
    ghost var seen: seq<u8> := [];
    assert list[0..] == list;
    AfterMore([], 0, Numbers(list));
    for i := 0 to |list|
      invariant Numbers(list) == After(seen, Numbers(list[i..]))
      invariant out == Lists.Elements(seen)
      invariant seen == [] <==> out == {}
    {
      var n := list[i].AsU64();
      if n.None? {
        return Err(NonInteger);
      }
      if n.value > MAX_PCR {
        return Err(NotAPcr(n.value));
      }
      assert list[i..][1..] == list[i + 1..];
      AfterMore(seen, n.value, Numbers(list[i + 1..]));
      out := out + {n.value};
      seen := seen + [n.value];
    }
    assert list[|list|..] == [] && seen + [] == seen;
    if out == {} {
      return Err(Empty);
    }
    var pcrs := Lists.Listing(out, 0x100);
    assert pcrs == SortDedup(seen);
    r := Ok(pcrs);
  }

  /** The registers a list names. */
  function Named(items: seq<Value>): set<int> {
    set i | 0 <= i < |items| && items[i].Number? :: items[i].n
  }

  lemma {:induction false} NumbersNamed(items: seq<Value>)
    ensures Numbers(items).Ok? ==> Lists.Elements(Numbers(items).value) == Named(items)
  {
    if items != [] && Numbers(items).Ok? {
      NumbersNamed(items[1..]);
      var head, rest := items[0], items[1..];
      assert Lists.Elements(Numbers(items).value) == {head.n} + Lists.Elements(Numbers(rest).value);
      forall x ensures x in Named(items) <==> x == head.n || x in Named(rest) {
        if x in Named(rest) {
          var i :| 0 <= i < |rest| && rest[i].Number? && rest[i].n == x;
          assert items[i + 1].n == x;
        }
        if x in Named(items) && x != head.n {
          var i :| 0 <= i < |items| && items[i].Number? && items[i].n == x;
          assert rest[i - 1].n == x;
        }
      }
    }
  }

  ghost predicate InRange(items: seq<Value>) {
    forall i :: 0 <= i < |items| ==> items[i].Number? && 0 <= items[i].n <= 23
  }

  lemma InRangeFirst(items: seq<Value>)
    requires items != []
    ensures InRange(items) <==> items[0].Number? && 0 <= items[0].n <= 23 && InRange(items[1..])
  {
    assert forall i :: 0 < i < |items| ==> items[1..][i - 1] == items[i];
    assert forall i :: 0 <= i < |items| - 1 ==> items[1..][i] == items[i + 1];
  }

  /** A list is accepted exactly when every item is an integer in 0..=23, and
      read in order. */
  lemma {:induction false} NumbersExact(items: seq<Value>)
    ensures Numbers(items).Ok? <==> InRange(items)
    ensures Numbers(items).Ok? ==>
      |Numbers(items).value| == |items| && forall i :: 0 <= i < |items| ==> items[i] == Number(Numbers(items).value[i])
  {
    if items != [] {
      NumbersExact(items[1..]);
      InRangeFirst(items);
      if Numbers(items).Ok? {
        forall i | 0 <= i < |items| ensures items[i] == Number(Numbers(items).value[i]) {
          assert i > 0 ==> items[1..][i - 1] == items[i];
        }
      }
    }
  }

  /** A selection is read from a list of integers in 0..=23 and nothing else, a
      configured one from such a list that is not empty: as the ascending list of
      the registers it names. */
  lemma SelectionExact(v: Value)
    ensures HeaderPcrs(v).Ok? <==> v.Array? && InRange(v.items)
    ensures ConfigPcrs(v).Ok? <==> v.Array? && InRange(v.items) && v.items != []
    ensures HeaderPcrs(v).Ok? ==>
      Lists.Ascending(HeaderPcrs(v).value) && Lists.Elements(HeaderPcrs(v).value) == Named(v.items)
    ensures ConfigPcrs(v).Ok? ==> ConfigPcrs(v) == HeaderPcrs(v)
  {
    if v.Array? {
      NumbersExact(v.items);
      NumbersNamed(v.items);
      if Numbers(v.items).Ok? {
        var numbers := Numbers(v.items).value;
        assert Lists.Elements(SortDedup(numbers)) == Lists.Elements(numbers);
      }
    }
  }

  /** Two accepted lists, one from the header and one from the configuration,
      are equal as read exactly when they name the same registers, whatever
      their order and repeats. */
  lemma SelectionsAgree(header: Value, config: Value)
    requires HeaderPcrs(header).Ok? && ConfigPcrs(config).Ok?
    ensures HeaderPcrs(header).value == ConfigPcrs(config).value <==> Named(header.items) == Named(config.items)
  {
    NumbersNamed(header.items);
    NumbersNamed(config.items);
    var a, b := Numbers(header.items).value, Numbers(config.items).value;
    assert Lists.Elements(SortDedup(a)) == Lists.Elements(a);
    assert Lists.Elements(SortDedup(b)) == Lists.Elements(b);
  }
}

/** The `systemd-tpm2` tokens of a LUKS2 header. */
module Token {
  import opened Prelude
  import opened Json
  import opened Selections
  import Hex
  import Lists

  /** Why a policy is more than a literal PCR policy. */
  datatype Advanced = UnknownField(key: string) | SignedPolicy | PcrlockPolicy

  datatype Tpm2Token = Tpm2Token(
    index: u32, pcrs: seq<u8>, bank: Option<string>, policyHash: seq<u8>, pin: bool, advanced: Option<Advanced>)

  datatype TokenError =
    | NotRead
    | BadIndex(key: string)
    | BadPcrs(why: ListError)
    | NoPolicyHash
    | NonString
    | Shards(n: nat)
    | NeitherStringNorArray
    | BadHex

  const KNOWN_KEYS: seq<string> := [
    "type", "keyslots", "tpm2-blob", "tpm2-pcrs", "tpm2-pcr-bank", "tpm2-primary-alg", "tpm2-policy-hash", "tpm2-pin",
    "tpm2_pcrlock", "tpm2_pubkey_pcrs", "tpm2_pubkey", "tpm2_salt", "tpm2_srk", "tpm2_pcrlock_nv"]

  function FirstUnknown(entries: seq<(string, Value)>): (r: Option<string>)
    ensures r.None? <==> forall e :: e in entries ==> e.0 in KNOWN_KEYS
  {
    if entries == [] then None
    else
      assert forall e :: e in entries <==> e == entries[0] || e in entries[1..];
      if entries[0].0 !in KNOWN_KEYS then Some(entries[0].0) else FirstUnknown(entries[1..])
  }

  function AdvancedOf(value: Value): Option<Advanced> {
    if !value.Object? then None
    else if FirstUnknown(value.entries).Some? then Some(UnknownField(FirstUnknown(value.entries).value))
    else if value.Has("tpm2_pubkey") || value.Has("tpm2_pubkey_pcrs") then Some(SignedPolicy)
    else if value.Has("tpm2_pcrlock") || value.Has("tpm2_pcrlock_nv") then Some(PcrlockPolicy)
    else None
  }

  function SingleShard(value: Value): Result<string, TokenError> {
    match value
    case String(s) => Ok(s)
    case Array(items) =>
      if |items| != 1 then Err(Shards(|items|))
      else if items[0].String? then Ok(items[0].text)
      else Err(NonString)
    case _ => Err(NeitherStringNorArray)
  }

  function PolicyHashOf(value: Value): Result<seq<u8>, TokenError> {
    match value.Get("tpm2-policy-hash")
    case None => Err(NoPolicyHash)
    case Some(v) =>
      var text :- SingleShard(v);
      match Hex.Unhexed(text)
      case None => Err(BadHex)
      case Some(bytes) => Ok(bytes)
  }

  function PcrsOf(value: Value): Result<seq<u8>, TokenError> {
    match value.Get("tpm2-pcrs")
    case None => Ok([])
    case Some(v) =>
      match HeaderPcrs(v)
      case Ok(pcrs) => Ok(pcrs)
      case Err(e) => Err(BadPcrs(e))
  }

  predicate HasPin(value: Value) {
    || (value.Get("tpm2-pin").Some? && value.Get("tpm2-pin").value.AsBool() == Some(true))
    || value.Has("tpm2_salt")
  }

  function BankOf(value: Value): Option<string> {
    match value.Get("tpm2-pcr-bank")
    case None => None
    case Some(v) => v.AsStr()
  }

  function Decode(index: u32, value: Value): Result<Tpm2Token, TokenError> {
    var pcrs :- PcrsOf(value);
    var policyHash :- PolicyHashOf(value);
    Ok(Tpm2Token(index, pcrs, BankOf(value), policyHash, HasPin(value), AdvancedOf(value)))
  }

  /** The decimal number `digits` spell, if they do. */
  function Decimal(digits: string): Option<nat> {
    if digits == "" then Some(0)
    else
      var last := digits[|digits| - 1];
      match Decimal(digits[..|digits| - 1])
      case None => None
      case Some(n) => if '0' <= last <= '9' then Some(10 * n + (last - '0') as nat) else None
  }

  /** `str::parse::<u32>`: digits, after one plus sign at most, that fit. */
  function ParseU32(text: string): Option<u32> {
    var digits := if text != "" && text[0] == '+' then text[1..] else text;
    if digits == "" || Decimal(digits).None? || Decimal(digits).value >= 0x1_0000_0000 then None
    else Some(Decimal(digits).value)
  }

  function DigitChar(d: nat): char
    requires d < 10
  {
    "0123456789"[d]
  }

  function Printed(n: nat): string {
    (if n < 10 then "" else Printed(n / 10)) + [DigitChar(n % 10)]
  }

  predicate Zeroes(s: string) {
    forall c :: c in s ==> c == '0'
  }

  lemma {:induction false} DecimalZeroes(zeroes: string)
    requires Zeroes(zeroes)
    ensures Decimal(zeroes) == Some(0)
  {
    if zeroes != "" {
      var init := zeroes[..|zeroes| - 1];
      assert forall c :: c in init ==> c in zeroes;
      assert zeroes[|zeroes| - 1] in zeroes;
      DecimalZeroes(init);
    }
  }

  lemma DecimalMore(init: string, d: nat)
    requires d < 10 && Decimal(init).Some?
    ensures Decimal(init + [DigitChar(d)]) == Some(10 * Decimal(init).value + d)
  {
    var digits := init + [DigitChar(d)];
    assert digits[..|digits| - 1] == init && digits[|digits| - 1] == DigitChar(d);
  }

  lemma {:induction false} DecimalPrinted(zeroes: string, n: nat)
    requires Zeroes(zeroes)
    ensures Decimal(zeroes + Printed(n)) == Some(n)
    decreases n
  {
    if n < 10 {
      DecimalZeroes(zeroes);
      DecimalMore(zeroes, n);
      assert Printed(n) == [DigitChar(n)];
    } else {
      DecimalPrinted(zeroes, n / 10);
      DecimalMore(zeroes + Printed(n / 10), n % 10);
      assert zeroes + Printed(n) == zeroes + Printed(n / 10) + [DigitChar(n % 10)];
    }
  }

  lemma PrintedNext(m: nat, d: nat)
    requires d < 10
    ensures Printed(10 * m + d) == (if m == 0 then "" else Printed(m)) + [DigitChar(d)]
  {
    var n := 10 * m + d;
    assert n / 10 == m && n % 10 == d;
  }

  lemma DigitOf(c: char)
    requires '0' <= c <= '9'
    ensures c == DigitChar((c - '0') as nat)
  {
  }

  lemma LastDigit(digits: string) returns (m: nat, d: nat)
    requires digits != "" && Decimal(digits).Some?
    ensures var init := digits[..|digits| - 1];
      && d < 10 && Decimal(init) == Some(m) && Decimal(digits) == Some(10 * m + d)
      && digits == init + [DigitChar(d)]
  {
    var last := digits[|digits| - 1];
    DigitOf(last);
    m, d := Decimal(digits[..|digits| - 1]).value, (last - '0') as nat;
  }

  lemma PrintedMore(zeroes: string, m: nat, d: nat) returns (more: string)
    requires Zeroes(zeroes) && d < 10
    ensures Zeroes(more) && zeroes + Printed(m) + [DigitChar(d)] == more + Printed(10 * m + d)
  {
    PrintedNext(m, d);
    if m == 0 {
      PrintedNext(0, 0);
      more := zeroes + "0";
    } else {
      more := zeroes;
      Regrouped(zeroes, Printed(m), [DigitChar(d)]);
    }
  }

  lemma Regrouped(a: string, b: string, c: string)
    ensures a + b + c == a + (b + c)
  {
  }

  lemma {:induction false} DecimalOnlyPrinted(digits: string) returns (zeroes: string)
    requires digits != "" && Decimal(digits).Some?
    ensures Zeroes(zeroes) && digits == zeroes + Printed(Decimal(digits).value)
  {
    var init := digits[..|digits| - 1];
    var m, d := LastDigit(digits);
    if init == "" {
      zeroes := "";
      PrintedNext(0, d);
    } else {
      var before := DecimalOnlyPrinted(init);
      zeroes := PrintedMore(before, m, d);
    }
  }

  /** The number's decimal digits, after any zeroes. */
  ghost predicate InDecimal(digits: string, n: nat) {
    exists zeroes :: Zeroes(zeroes) && digits == zeroes + Printed(n)
  }

  lemma DecimalExact(digits: string, n: nat)
    ensures digits != "" && Decimal(digits) == Some(n) <==> InDecimal(digits, n)
    ensures InDecimal(digits, n) ==> digits[0] != '+'
  {
    if digits != "" && Decimal(digits) == Some(n) {
      var zeroes := DecimalOnlyPrinted(digits);
    }
    if InDecimal(digits, n) {
      var zeroes :| Zeroes(zeroes) && digits == zeroes + Printed(n);
      DecimalPrinted(zeroes, n);
      StartsWithDigit(zeroes, n);
    }
  }

  /** A token's key is read as a number exactly when it is that number in decimal,
      after any zeroes and at most one plus sign, and fits. */
  lemma ParseU32Exact(text: string, n: nat)
    ensures ParseU32(text) == Some(n) <==>
      n < 0x1_0000_0000 && (InDecimal(text, n) || (text != "" && text[0] == '+' && InDecimal(text[1..], n)))
  {
    DecimalExact(text, n);
    if text != "" {
      DecimalExact(text[1..], n);
    }
  }

  lemma {:induction false} PrintedStarts(n: nat)
    ensures '0' <= Printed(n)[0] <= '9'
  {
    if n >= 10 {
      PrintedStarts(n / 10);
    }
  }

  lemma StartsWithDigit(zeroes: string, n: nat)
    requires Zeroes(zeroes)
    ensures (zeroes + Printed(n))[0] != '+'
  {
    PrintedStarts(n);
    if zeroes != "" {
      assert zeroes[0] in zeroes;
    }
  }

  predicate IsTpm2(value: Value) {
    value.Get("type").Some? && value.Get("type").value.AsStr() == Some("systemd-tpm2")
  }

  function Entry(entry: (string, Value)): Result<Tpm2Token, TokenError> {
    match ParseU32(entry.0)
    case None => Err(BadIndex(entry.0))
    case Some(index) => Decode(index, entry.1)
  }

  /** The tokens of these entries, or the first one that cannot be read. */
  function Collected(entries: seq<(string, Value)>): Result<seq<Tpm2Token>, TokenError> {
    if entries == [] then Ok([])
    else if !IsTpm2(entries[0].1) then Collected(entries[1..])
    else
      match Entry(entries[0])
      case Err(e) => Err(e)
      case Ok(token) => Behind([token], Collected(entries[1..]))
  }

  function Behind(done: seq<Tpm2Token>, rest: Result<seq<Tpm2Token>, TokenError>): Result<seq<Tpm2Token>, TokenError> {
    match rest
    case Ok(more) => Ok(done + more)
    case Err(e) => Err(e)
  }

  lemma BehindMore(done: seq<Tpm2Token>, token: Tpm2Token, rest: Result<seq<Tpm2Token>, TokenError>)
    ensures Behind([], rest) == rest
    ensures Behind(done, Behind([token], rest)) == Behind(done + [token], rest)
  {
    if rest.Ok? {
      assert [] + rest.value == rest.value;
      assert done + ([token] + rest.value) == done + [token] + rest.value;
    }
  }

  function TokenEntries(root: Value): seq<(string, Value)> {
    match root.Get("tokens")
    case Some(Object(entries)) => entries
    case _ => []
  }

  function TokenIndex(token: Tpm2Token): int { token.index }

  /** Every `systemd-tpm2` token of a header, by index. */
  function Tokens(root: Value): Result<seq<Tpm2Token>, TokenError> {
    var tokens :- Collected(TokenEntries(root));
    Ok(Lists.SortByKey(tokens, TokenIndex))
  }

  /** What the `systemd-tpm2` entries decode to, as a bag. */
  function Decodings(entries: seq<(string, Value)>): multiset<Tpm2Token> {
    if entries == [] then multiset{}
    else if IsTpm2(entries[0].1) && Entry(entries[0]).Ok? then
      multiset{Entry(entries[0]).value} + Decodings(entries[1..])
    else Decodings(entries[1..])
  }

  /** The first `systemd-tpm2` entry that does not decode. */
  predicate FirstBad(entries: seq<(string, Value)>, i: nat) {
    && i < |entries| && IsTpm2(entries[i].1) && Entry(entries[i]).Err?
    && forall j :: 0 <= j < i && IsTpm2(entries[j].1) ==> Entry(entries[j]).Ok?
  }

  lemma {:induction false} CollectedAll(entries: seq<(string, Value)>)
    requires Collected(entries).Ok?
    ensures forall i :: 0 <= i < |entries| && IsTpm2(entries[i].1) ==> Entry(entries[i]).Ok?
    ensures multiset(Collected(entries).value) == Decodings(entries)
  {
    if entries != [] {
      CollectedAll(entries[1..]);
      forall i | 0 <= i < |entries| && IsTpm2(entries[i].1) ensures Entry(entries[i]).Ok? {
        assert i > 0 ==> entries[1..][i - 1] == entries[i];
      }
    }
  }

  lemma {:induction false} CollectedBad(entries: seq<(string, Value)>) returns (i: nat)
    requires Collected(entries).Err?
    ensures FirstBad(entries, i) && Entry(entries[i]) == Err(Collected(entries).error)
  {
    if IsTpm2(entries[0].1) && Entry(entries[0]).Err? {
      i := 0;
    } else {
      var k := CollectedBad(entries[1..]);
      i := k + 1;
      forall j | 0 <= j < i && IsTpm2(entries[j].1) ensures Entry(entries[j]).Ok? {
        assert j > 0 ==> entries[1..][j - 1] == entries[j];
      }
    }
  }

  lemma DecodedFirst(entries: seq<(string, Value)>, token: Tpm2Token)
    requires entries != [] && IsTpm2(entries[0].1) && Entry(entries[0]) == Ok(token)
    ensures token in Decodings(entries)
  {
  }

  lemma DecodedMore(entries: seq<(string, Value)>, token: Tpm2Token)
    requires entries != [] && token in Decodings(entries[1..])
    ensures token in Decodings(entries)
  {
  }

  /** Every `systemd-tpm2` entry of a header that is read is among its tokens. */
  lemma {:induction false} DecodedIn(entries: seq<(string, Value)>, k: nat, token: Tpm2Token)
    requires k < |entries| && IsTpm2(entries[k].1) && Entry(entries[k]) == Ok(token)
    ensures token in Decodings(entries)
  {
    if k == 0 {
      DecodedFirst(entries, token);
    } else {
      assert entries[1..][k - 1] == entries[k];
      DecodedIn(entries[1..], k - 1, token);
      DecodedMore(entries, token);
    }
  }

  lemma ReadIn(root: Value, k: nat)
    requires Tokens(root).Ok? && k < |TokenEntries(root)| && IsTpm2(TokenEntries(root)[k].1)
    ensures Entry(TokenEntries(root)[k]).Ok? && Entry(TokenEntries(root)[k]).value in Tokens(root).value
  {
    TokensExact(root);
    DecodedIn(TokenEntries(root), k, Entry(TokenEntries(root)[k]).value);
    assert Entry(TokenEntries(root)[k]).value in multiset(Tokens(root).value);
  }

  ghost predicate ByIndex(tokens: seq<Tpm2Token>) {
    forall i, j :: 0 <= i < j < |tokens| ==> tokens[i].index <= tokens[j].index
  }

  lemma {:induction false} SortedByIndex(tokens: seq<Tpm2Token>)
    requires Lists.SortedBy(tokens, TokenIndex)
    ensures ByIndex(tokens)
  {
    if |tokens| > 1 {
      SortedByIndex(tokens[1..]);
      forall i, j | 0 <= i < j < |tokens| ensures tokens[i].index <= tokens[j].index {
        assert tokens[1..][j - 1] == tokens[j];
        assert TokenIndex(tokens[0]) <= TokenIndex(tokens[1]);
        assert i > 0 ==> tokens[1..][i - 1] == tokens[i];
        assert i == 0 && j > 1 ==> tokens[1..][0].index <= tokens[1..][j - 1].index;
      }
    }
  }

  /** Reading a header fails exactly when one of its `systemd-tpm2` tokens does
      not decode, with the error of the first that does not; otherwise it gives
      what exactly those tokens decode to, in the order of their indices. */
  lemma TokensExact(root: Value)
    ensures Tokens(root).Ok? <==> forall i :: 0 <= i < |TokenEntries(root)| && IsTpm2(TokenEntries(root)[i].1) ==>
      Entry(TokenEntries(root)[i]).Ok?
    ensures Tokens(root).Err? ==>
      exists i: nat :: FirstBad(TokenEntries(root), i) && Entry(TokenEntries(root)[i]) == Err(Tokens(root).error)
    ensures Tokens(root).Ok? ==>
      multiset(Tokens(root).value) == Decodings(TokenEntries(root)) && ByIndex(Tokens(root).value)
  {
    var entries := TokenEntries(root);
    if Collected(entries).Ok? {
      CollectedAll(entries);
      Lists.SortSorts(Collected(entries).value, TokenIndex);
      SortedByIndex(Tokens(root).value);
    } else {
      var i := CollectedBad(entries);
    }
  }

  /** Where the tokens of a header are. */
  lemma EntriesExact(root: Value)
    ensures forall entries :: Holds(root, "tokens", Object(entries)) ==> TokenEntries(root) == entries
    ensures (forall entries :: !Holds(root, "tokens", Object(entries))) ==> TokenEntries(root) == []
  {
    GetExact(root, "tokens");
    if root.Get("tokens").Some? && root.Get("tokens").value.Object? {
      assert Holds(root, "tokens", Object(root.Get("tokens").value.entries));
    }
  }

  // ---- Which tokens are plain --------------------------------------------

  /** The entries of a header that matter. */
  lemma IsTpm2Exact(value: Value)
    ensures IsTpm2(value) <==> Holds(value, "type", String("systemd-tpm2"))
  {
    GetExact(value, "type");
  }

  ghost predicate AllKnown(value: Value) {
    value.Object? ==> forall k :: 0 <= k < |value.entries| ==> value.entries[k].0 in {
      "type", "keyslots", "tpm2-blob", "tpm2-pcrs", "tpm2-pcr-bank", "tpm2-primary-alg", "tpm2-policy-hash", "tpm2-pin",
      "tpm2_pcrlock", "tpm2_pubkey_pcrs", "tpm2_pubkey", "tpm2_salt", "tpm2_srk", "tpm2_pcrlock_nv"}
  }

  ghost predicate Signed(value: Value) {
    !(Lacks(value, "tpm2_pubkey") && Lacks(value, "tpm2_pubkey_pcrs"))
  }

  ghost predicate Pcrlocked(value: Value) {
    !(Lacks(value, "tpm2_pcrlock") && Lacks(value, "tpm2_pcrlock_nv"))
  }

  lemma KnownKeysAre(key: string)
    ensures key in KNOWN_KEYS <==> key in {
      "type", "keyslots", "tpm2-blob", "tpm2-pcrs", "tpm2-pcr-bank", "tpm2-primary-alg", "tpm2-policy-hash", "tpm2-pin",
      "tpm2_pcrlock", "tpm2_pubkey_pcrs", "tpm2_pubkey", "tpm2_salt", "tpm2_srk", "tpm2_pcrlock_nv"}
  {
  }

  lemma AllKnownExact(value: Value)
    requires value.Object?
    ensures AllKnown(value) <==> FirstUnknown(value.entries).None?
  {
    forall k | 0 <= k < |value.entries| ensures value.entries[k] in value.entries {
      KnownKeysAre(value.entries[k].0);
    }
    forall e | e in value.entries ensures exists k :: 0 <= k < |value.entries| && value.entries[k] == e {
    }
  }

  lemma {:induction false} FirstUnknownIs(entries: seq<(string, Value)>)
    ensures var key := FirstUnknown(entries);
      key.Some? ==> key.value !in KNOWN_KEYS && exists k :: 0 <= k < |entries| && entries[k].0 == key.value
  {
    if entries != [] && entries[0].0 in KNOWN_KEYS && FirstUnknown(entries).Some? {
      FirstUnknownIs(entries[1..]);
      var k :| 0 <= k < |entries[1..]| && entries[1..][k].0 == FirstUnknown(entries).value;
      assert entries[k + 1].0 == FirstUnknown(entries).value;
    }
  }

  /** A policy is a plain one exactly when every field is one of the fourteen known
      and none is of a signed or a pcrlock policy; and which of the three it is
      otherwise, an unknown field first. */
  lemma AdvancedExact(value: Value)
    requires value.Object?
    ensures var kind := AdvancedOf(value);
      && (kind == None <==> AllKnown(value) && !Signed(value) && !Pcrlocked(value))
      && (kind == Some(SignedPolicy) <==> AllKnown(value) && Signed(value))
      && (kind == Some(PcrlockPolicy) <==> AllKnown(value) && !Signed(value) && Pcrlocked(value))
      && (kind.Some? && kind.value.UnknownField? <==> !AllKnown(value))
      && (kind.Some? && kind.value.UnknownField? ==> !Lacks(value, kind.value.key) && kind.value.key !in KNOWN_KEYS)
  {
    AllKnownExact(value);
    FirstUnknownIs(value.entries);
    GetExact(value, "tpm2_pubkey");
    GetExact(value, "tpm2_pubkey_pcrs");
    GetExact(value, "tpm2_pcrlock");
    GetExact(value, "tpm2_pcrlock_nv");
  }

  /** It takes a PIN exactly when it says so, or carries a salt. */
  lemma PinExact(value: Value)
    ensures HasPin(value) <==> Holds(value, "tpm2-pin", Bool(true)) || !Lacks(value, "tpm2_salt")
  {
    GetExact(value, "tpm2-pin");
    GetExact(value, "tpm2_salt");
  }

  ghost predicate PcrsAre(value: Value, pcrs: seq<u8>) {
    || (Lacks(value, "tpm2-pcrs") && pcrs == [])
    || (exists items ::
      && Holds(value, "tpm2-pcrs", Array(items)) && InRange(items)
      && Lists.Ascending(pcrs) && Lists.Elements(pcrs) == Named(items))
  }

  ghost predicate BankIs(value: Value, bank: Option<string>) {
    match bank
    case Some(name) => Holds(value, "tpm2-pcr-bank", String(name))
    case None => forall name :: !Holds(value, "tpm2-pcr-bank", String(name))
  }

  /** The policy is written once, as text or as a list of one text. */
  ghost predicate PolicyIs(value: Value, policy: seq<u8>) {
    exists text ::
      && (Holds(value, "tpm2-policy-hash", String(text)) || Holds(value, "tpm2-policy-hash", Array([String(text)])))
      && Hex.Spelled(text, policy)
  }

  lemma ListedOnce(pcrs: seq<u8>, items: seq<Value>)
    requires HeaderPcrs(Array(items)).Ok?
    ensures Lists.Ascending(pcrs) && Lists.Elements(pcrs) == Named(items) <==> HeaderPcrs(Array(items)) == Ok(pcrs)
  {
    SelectionExact(Array(items));
    var read := HeaderPcrs(Array(items)).value;
    if Lists.Ascending(pcrs) && Lists.Elements(pcrs) == Named(items) {
      forall x: int ensures x in pcrs <==> x in read {
        assert x in pcrs <==> x in Lists.Elements(pcrs);
        assert x in read <==> x in Lists.Elements(read);
      }
      Lists.AscendingUnique(pcrs, read);
    }
  }

  lemma PcrsExact(value: Value, pcrs: seq<u8>)
    ensures PcrsOf(value) == Ok(pcrs) <==> PcrsAre(value, pcrs)
  {
    GetExact(value, "tpm2-pcrs");
    match value.Get("tpm2-pcrs") {
      case None =>
      case Some(list) =>
        SelectionExact(list);
        if list.Array? && InRange(list.items) {
          ListedOnce(pcrs, list.items);
          assert Holds(value, "tpm2-pcrs", Array(list.items));
        }
    }
  }

  lemma BankExact(value: Value, bank: Option<string>)
    ensures BankOf(value) == bank <==> BankIs(value, bank)
  {
    GetExact(value, "tpm2-pcr-bank");
  }

  lemma ShardExact(v: Value, text: string)
    ensures SingleShard(v) == Ok(text) <==> v == String(text) || v == Array([String(text)])
  {
    if v.Array? && |v.items| == 1 {
      assert v.items == [v.items[0]];
    }
  }

  lemma PolicyExact(value: Value, policy: seq<u8>)
    ensures PolicyHashOf(value) == Ok(policy) <==> PolicyIs(value, policy)
  {
    GetExact(value, "tpm2-policy-hash");
    match value.Get("tpm2-policy-hash") {
      case None =>
      case Some(v) =>
        forall text ensures SingleShard(v) == Ok(text) <==> v == String(text) || v == Array([String(text)]) {
          ShardExact(v, text);
        }
        forall text ensures Hex.Unhexed(text) == Some(policy) <==> Hex.Spelled(text, policy) {
          Hex.UnhexSpelled(text, policy);
        }
    }
  }

  /** A token decodes, and to this, exactly when its fields say so. */
  lemma DecodeExact(index: u32, value: Value, token: Tpm2Token)
    ensures Decode(index, value) == Ok(token) <==>
      && token.index == index && PcrsAre(value, token.pcrs) && BankIs(value, token.bank)
      && PolicyIs(value, token.policyHash)
      && (token.pin <==> Holds(value, "tpm2-pin", Bool(true)) || !Lacks(value, "tpm2_salt"))
      && token.advanced == AdvancedOf(value)
  {
    PcrsExact(value, token.pcrs);
    BankExact(value, token.bank);
    PolicyExact(value, token.policyHash);
    PinExact(value);
  }

  method Parse(root: Value) returns (r: Result<seq<Tpm2Token>, TokenError>)
    ensures r == Tokens(root)
  {
    var tokens := root.Get("tokens");
    if tokens.None? || !tokens.value.Object? {
      return Ok([]);
    }
    var entries := tokens.value.entries;
    var out: seq<Tpm2Token> := [];
    assert entries[0..] == entries;
    BehindFrom(Collected(entries));
    for i := 0 to |entries|
      invariant Collected(entries) == Behind(out, Collected(entries[i..]))
    {
      assert entries[i..][1..] == entries[i + 1..];
      if IsTpm2(entries[i].1) {
        var index := ParseU32(entries[i].0);
        if index.None? {
          return Err(BadIndex(entries[i].0));
        }
        var token :- Decode(index.value, entries[i].1);
        BehindMore(out, token, Collected(entries[i + 1..]));
        out := out + [token];
      }
    }
    assert entries[|entries|..] == [] && out + [] == out;
    r := Ok(Lists.SortByKey(out, TokenIndex));
  }

  lemma BehindFrom(rest: Result<seq<Tpm2Token>, TokenError>)
    ensures Behind([], rest) == rest
  {
    if rest.Ok? {
      assert [] + rest.value == rest.value;
    }
  }
}
