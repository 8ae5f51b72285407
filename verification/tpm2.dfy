/** The TPM client. The functions say what each exchange with the device yields
    and which commands it sends; the methods of `Tpm` do the same work step by
    step. */
module Tpm2 {
  import opened Prelude
  import opened Bits
  import opened Wire
  import Lists

  const ST_NO_SESSIONS: u16 := 0x8001

  const CC_FLUSH_CONTEXT: u32 := 0x0000_0165
  const CC_START_AUTH_SESSION: u32 := 0x0000_0176
  const CC_GET_CAPABILITY: u32 := 0x0000_017a
  const CC_PCR_READ: u32 := 0x0000_017e
  const CC_POLICY_PCR: u32 := 0x0000_017f
  const CC_POLICY_GET_DIGEST: u32 := 0x0000_0189

  const RH_NULL: u32 := 0x4000_0007
  const SE_TRIAL: u8 := 0x03
  const ALG_NULL: u16 := 0x0010

  const CAP_TPM_PROPERTIES: u32 := 0x0000_0006
  const PT_PERMANENT: u32 := 0x0000_0200
  const PT_LOCKOUT_COUNTER: u32 := 0x0000_020e
  const PT_MAX_AUTH_FAIL: u32 := 0x0000_020f
  const PERMANENT_IN_LOCKOUT_BIT: nat := 9

  const MAX_RESPONSE: nat := 4096

  datatype Bank = Sha1 | Sha256 | Sha384 | Sha512 {
    function Alg(): u16 {
      match this
      case Sha1 => 0x0004
      case Sha256 => 0x000b
      case Sha384 => 0x000c
      case Sha512 => 0x000d
    }

    function Name(): string {
      match this
      case Sha1 => "sha1"
      case Sha256 => "sha256"
      case Sha384 => "sha384"
      case Sha512 => "sha512"
    }
  }

  /** The banks, by the names configurations and headers use. */
  lemma BankNamed(bank: Bank)
    ensures bank.Name() == "sha1" <==> bank.Alg() == 0x04
    ensures bank.Name() == "sha256" <==> bank.Alg() == 0x0b
    ensures bank.Name() == "sha384" <==> bank.Alg() == 0x0c
    ensures bank.Name() == "sha512" <==> bank.Alg() == 0x0d
  {
    var name := bank.Name();
    match bank
    case Sha1 => assert |name| == 4;
    case Sha256 => assert |name| == 6 && name[3] == '2';
    case Sha384 => assert |name| == 6 && name[3] == '3';
    case Sha512 => assert |name| == 6 && name[3] == '5';
  }

  datatype Lockout = Lockout(inLockout: bool, counter: u32, maxAuthFail: u32)

  /** What one command brings back: the bytes of one `read(2)`, or nothing,
      when writing, waiting or reading failed. */
  datatype Reply = Lost | Got(bytes: seq<u8>)

  /** The commands sent so far, oldest first. */
  type Log = seq<seq<u8>>

  /** Any TPM at all: its answer to the last command of a log may depend on
      everything it was sent. */
  type Device = Log -> Reply

  // ---- Framing -----------------------------------------------------------

  function Command(cc: u32, body: seq<u8>): seq<u8> {
    U16(ST_NO_SESSIONS) + (U32((10 + |body|) % 0x1_0000_0000) + (U32(cc) + body))
  }

  function Response(tag: u16, rc: u32, payload: seq<u8>): seq<u8>
    requires |payload| < 0x1_0000_0000 - 10
  {
    U16(tag) + (U32(10 + |payload|) + (U32(rc) + payload))
  }

  function ResponsePayload(buf: seq<u8>): Result<seq<u8>, Fault> {
    if |buf| < 10 then Err(ShortResponse)
    else if OfU32(buf[2..6]) != |buf| then Err(SizeMismatch)
    else if OfU32(buf[6..10]) != 0 then Err(ResponseCode(OfU32(buf[6..10])))
    else Ok(buf[10..])
  }

  /** A response is accepted exactly when it is a success header declaring its
      own length, under any tag, and then the payload. */
  lemma ResponsePayloadExact(buf: seq<u8>, payload: seq<u8>)
    requires |payload| < 0x1_0000_0000 - 10
    ensures ResponsePayload(buf) == Ok(payload) <==> exists tag: u16 :: buf == Response(tag, 0, payload)
  {
    if ResponsePayload(buf) == Ok(payload) {
      BigEndian16(0, buf[..2]);
      BigEndian(0, buf[2..6]);
      BigEndian(0, buf[6..10]);
      assert buf == Response(OfU16(buf[..2]), 0, payload);
    }
    forall tag: u16 | buf == Response(tag, 0, payload) ensures ResponsePayload(buf) == Ok(payload) {
      ResponseReadBack(tag, 0, payload);
    }
  }

  lemma ResponseReadBack(tag: u16, rc: u32, payload: seq<u8>)
    requires |payload| < 0x1_0000_0000 - 10
    ensures ResponsePayload(Response(tag, rc, payload)) == if rc == 0 then Ok(payload) else Err(ResponseCode(rc))
  {
    var buf := Response(tag, rc, payload);
    assert buf[2..6] == U32(10 + |payload|) && buf[6..10] == U32(rc) && buf[10..] == payload;
    BigEndian(10 + |payload|, U32(0));
    BigEndian(rc, U32(0));
  }

  function Payload(dev: Device, log: Log): Result<seq<u8>, Fault> {
    match dev(log)
    case Lost => Err(Transport)
    case Got(bytes) => ResponsePayload(if |bytes| <= MAX_RESPONSE then bytes else bytes[..MAX_RESPONSE])
  }

  /** One read brings the first page of a response at most. */
  lemma FirstPage(dev: Device, log: Log)
    ensures dev(log).Lost? ==> Payload(dev, log) == Err(Transport)
    ensures dev(log).Got? ==> exists page ::
      page <= dev(log).bytes && |page| <= 4096 && (|dev(log).bytes| <= 4096 ==> page == dev(log).bytes)
      && Payload(dev, log) == ResponsePayload(page)
  {
    if dev(log).Got? {
      var bytes := dev(log).bytes;
      var page := if |bytes| <= 4096 then bytes else bytes[..4096];
      assert page <= bytes;
    }
  }

  function Sent(log: Log, cc: u32, body: seq<u8>): Log {
    log + [Command(cc, body)]
  }

  // ---- Dictionary-attack state -------------------------------------------

  datatype Properties = Properties(permanent: Option<u32>, counter: Option<u32>, maxAuthFail: Option<u32>) {
    function Note(property: u32, value: u32): Properties {
      if property == PT_PERMANENT then this.(permanent := Some(value))
      else if property == PT_LOCKOUT_COUNTER then this.(counter := Some(value))
      else if property == PT_MAX_AUTH_FAIL then this.(maxAuthFail := Some(value))
      else this
    }

    function Verdict(): Result<Lockout, Fault> {
      if permanent.None? then Err(NoPermanent)
      else Ok(Lockout(
        Bit(permanent.value, PERMANENT_IN_LOCKOUT_BIT),
        if counter.Some? then counter.value else 0,
        if maxAuthFail.Some? then maxAuthFail.value else 0))
    }
  }

  const NOTHING_YET := Properties(None, None, None)

  function TakeProperties(s: seq<u8>, count: nat, seen: Properties): Result<Properties, Fault> {
    if count == 0 then Ok(seen) else
    var (property, s1) :- TakeU32(s);
    var (value, s2) :- TakeU32(s1);
    TakeProperties(s2, count - 1, seen.Note(property, value))
  }

  function DecodeProperties(s: seq<u8>): Result<Lockout, Fault> {
    var (_, s1) :- Take(s, 1);
    var (capability, s2) :- TakeU32(s1);
    if capability != CAP_TPM_PROPERTIES then Err(WrongCapability) else
    var (count, s3) :- TakeU32(s2);
    var seen :- TakeProperties(s3, count, NOTHING_YET);
    seen.Verdict()
  }

  method ParsePairs(reader: Reader, count: u32) returns (r: Result<Properties, Fault>)
    requires reader.Valid()
    modifies reader
    ensures r == TakeProperties(old(reader.Rest()), count, NOTHING_YET)
  {
    var seen := NOTHING_YET;
    ghost var all := TakeProperties(reader.Rest(), count, seen);
    for i := 0 to count
      invariant reader.Valid()
      invariant all == TakeProperties(reader.Rest(), count - i, seen)
    {
      var property :- reader.U32();
      var value :- reader.U32();
      seen := seen.Note(property, value);
    }
    r := Ok(seen);
  }

  method ParseProperties(payload: seq<u8>) returns (r: Result<Lockout, Fault>)
    requires |payload| <= ISIZE_MAX
    ensures r == DecodeProperties(payload)
  {
    var reader := new Reader(payload);
    var _ :- reader.U8();
    var capability :- reader.U32();
    if capability != CAP_TPM_PROPERTIES {
      return Err(WrongCapability);
    }
    var count :- reader.U32();
    var seen :- ParsePairs(reader, count);
    r := seen.Verdict();
  }

  /** A list of properties, each a tag and a value, followed by `rest`. */
  function PropertyPairs(list: seq<(u32, u32)>, rest: seq<u8>): seq<u8> {
    if list == [] then rest else U32(list[0].0) + (U32(list[0].1) + PropertyPairs(list[1..], rest))
  }

  function PropertyBytes(more: u8, list: seq<(u32, u32)>, rest: seq<u8>): seq<u8>
    requires |list| < 0x1_0000_0000
  {
    [more] + (U32(CAP_TPM_PROPERTIES) + (U32(|list|) + PropertyPairs(list, rest)))
  }

  /** The value the last entry for `property` carries. */
  function LastValue(list: seq<(u32, u32)>, property: u32): Option<u32> {
    if list == [] then None
    else if list[|list| - 1].0 == property then Some(list[|list| - 1].1)
    else LastValue(list[..|list| - 1], property)
  }

  function Noted(list: seq<(u32, u32)>): Properties {
    Properties(
      LastValue(list, PT_PERMANENT), LastValue(list, PT_LOCKOUT_COUNTER), LastValue(list, PT_MAX_AUTH_FAIL))
  }

  lemma {:induction false} TakePropertiesPrinted(done: seq<(u32, u32)>, list: seq<(u32, u32)>, rest: seq<u8>)
    ensures TakeProperties(PropertyPairs(list, rest), |list|, Noted(done)) == Ok(Noted(done + list))
    decreases |list|
  {
    if list == [] {
      assert done + list == done;
    } else {
      var more := PropertyPairs(list[1..], rest);
      TakeWritten(list[0].0, [], U32(list[0].1) + more);
      TakeWritten(list[0].1, [], more);
      var next := done + [list[0]];
      assert next[..|next| - 1] == done;
      assert Noted(next) == Noted(done).Note(list[0].0, list[0].1);
      TakePropertiesPrinted(next, list[1..], rest);
      assert next + list[1..] == done + list;
    }
  }

  /** The parser undoes the printer: the lockout bit is bit 9 of the last
      TPM_PT_PERMANENT reported, whatever else is in the list and after it. */
  lemma PropertiesReadBack(more: u8, list: seq<(u32, u32)>, rest: seq<u8>)
    requires |list| < 0x1_0000_0000
    ensures DecodeProperties(PropertyBytes(more, list, rest)) == Noted(list).Verdict()
  {
    TakeAppended([more], U32(CAP_TPM_PROPERTIES) + (U32(|list|) + PropertyPairs(list, rest)));
    TakeWritten(CAP_TPM_PROPERTIES, [], U32(|list|) + PropertyPairs(list, rest));
    TakeWritten(|list|, [], PropertyPairs(list, rest));
    TakePropertiesPrinted([], list, rest);
    assert [] + list == list;
  }

  /** The value of the last entry under a tag. */
  ghost predicate LastIs(list: seq<(u32, u32)>, tag: u32, value: u32) {
    exists k :: 0 <= k < |list| && list[k] == (tag, value) && forall j :: k < j < |list| ==> list[j].0 != tag
  }

  ghost predicate Unreported(list: seq<(u32, u32)>, tag: u32) {
    forall k :: 0 <= k < |list| ==> list[k].0 != tag
  }

  lemma {:induction false} LastValueExact(list: seq<(u32, u32)>, tag: u32)
    ensures LastValue(list, tag).None? <==> Unreported(list, tag)
    ensures forall v: u32 :: LastIs(list, tag, v) ==> LastValue(list, tag) == Some(v)
    ensures LastValue(list, tag).Some? ==> LastIs(list, tag, LastValue(list, tag).value)
  {
    if list != [] {
      var init, last := list[..|list| - 1], list[|list| - 1];
      LastValueExact(init, tag);
      assert forall k :: 0 <= k < |init| ==> init[k] == list[k];
      if last.0 == tag {
        assert list[|list| - 1] == (tag, last.1);
      } else if LastValue(init, tag).Some? {
        LastIsMore(init, list, tag, LastValue(init, tag).value);
      }
      forall v: u32 | LastIs(list, tag, v) ensures LastValue(list, tag) == Some(v) {
        if last.0 != tag {
          LastIsLess(init, list, tag, v);
        }
      }
    }
  }

  lemma LastIsMore(init: seq<(u32, u32)>, list: seq<(u32, u32)>, tag: u32, v: u32)
    requires list != [] && init == list[..|list| - 1] && list[|list| - 1].0 != tag && LastIs(init, tag, v)
    ensures LastIs(list, tag, v)
  {
    var k :| 0 <= k < |init| && init[k] == (tag, v) && forall j :: k < j < |init| ==> init[j].0 != tag;
    assert list[k] == (tag, v);
  }

  lemma LastIsLess(init: seq<(u32, u32)>, list: seq<(u32, u32)>, tag: u32, v: u32)
    requires list != [] && init == list[..|list| - 1] && list[|list| - 1].0 != tag && LastIs(list, tag, v)
    ensures LastIs(init, tag, v)
  {
    var k :| 0 <= k < |list| && list[k] == (tag, v) && forall j :: k < j < |list| ==> list[j].0 != tag;
    assert init[k] == (tag, v);
  }

  /** What is made of any printed list. Without TPM_PT_PERMANENT (0x200) there is
      no verdict. With it, the TPM is in lockout exactly when the last value under
      that tag has the bit worth 512; the failure counter (0x20e) and its maximum
      (0x20f) are the last values under theirs, or zero. */
  lemma LockoutExact(more: u8, list: seq<(u32, u32)>, rest: seq<u8>)
    requires |list| < 0x1_0000_0000
    ensures var r := DecodeProperties(PropertyBytes(more, list, rest));
      && (r == Err(NoPermanent) <==> Unreported(list, 0x200)) && (r.Ok? <==> !Unreported(list, 0x200))
      && (r.Ok? ==>
        && (forall v: u32 :: LastIs(list, 0x200, v) ==> (r.value.inLockout <==> v / 512 % 2 == 1))
        && (forall v: u32 :: LastIs(list, 0x20e, v) ==> r.value.counter == v)
        && (Unreported(list, 0x20e) ==> r.value.counter == 0)
        && (forall v: u32 :: LastIs(list, 0x20f, v) ==> r.value.maxAuthFail == v)
        && (Unreported(list, 0x20f) ==> r.value.maxAuthFail == 0))
  {
    PropertiesReadBack(more, list, rest);
    LastValueExact(list, 0x200);
    LastValueExact(list, 0x20e);
    LastValueExact(list, 0x20f);
    Pow2Nine();
    if LastValue(list, 0x200).Some? {
      BitExact(LastValue(list, 0x200).value, 9);
    }
  }

  lemma {:induction false} TakePropertiesOnlyPrinted(s: seq<u8>, count: nat, seen: Properties)
    returns (list: seq<(u32, u32)>, rest: seq<u8>)
    requires TakeProperties(s, count, seen).Ok?
    ensures |list| == count && s == PropertyPairs(list, rest)
    decreases count
  {
    if count == 0 {
      return [], s;
    }
    TakenU32(s);
    var (property, s1) := TakeU32(s).value;
    TakenU32(s1);
    var (value, s2) := TakeU32(s1).value;
    var tail;
    tail, rest := TakePropertiesOnlyPrinted(s2, count - 1, seen.Note(property, value));
    list := [(property, value)] + tail;
    assert list[1..] == tail;
  }

  /** And nothing but such a printed list, under the capability asked for, gives a
      verdict. */
  lemma PropertiesOnlyPrinted(s: seq<u8>)
    requires DecodeProperties(s).Ok?
    ensures exists more: u8, list: seq<(u32, u32)>, rest: seq<u8> ::
      |list| < 0x1_0000_0000 && s == PropertyBytes(more, list, rest)
  {
    var (more, s1) := Take(s, 1).value;
    TakenU32(s1);
    var (_, s2) := TakeU32(s1).value;
    TakenU32(s2);
    var (count, s3) := TakeU32(s2).value;
    var list, rest := TakePropertiesOnlyPrinted(s3, count, NOTHING_YET);
    assert s == [more[0]] + s1;
    assert s == PropertyBytes(more[0], list, rest);
  }

  function LockoutBody(): seq<u8> {
    U32(CAP_TPM_PROPERTIES) + (U32(PT_PERMANENT) + U32(PT_MAX_AUTH_FAIL - PT_PERMANENT + 1))
  }

  function LockoutAfter(dev: Device, log: Log): (Result<Lockout, Fault>, Log) {
    var log' := Sent(log, CC_GET_CAPABILITY, LockoutBody());
    match Payload(dev, log')
    case Err(e) => (Err(e), log')
    case Ok(payload) => (DecodeProperties(payload), log')
  }

  // ---- PCR_Read ----------------------------------------------------------

  datatype PcrRead = PcrRead(returned: seq<u8>, digests: seq<seq<u8>>)

  function Prepend(
    done: seq<seq<u8>>, r: Result<(seq<seq<u8>>, seq<u8>), Fault>): Result<(seq<seq<u8>>, seq<u8>), Fault>
  {
    match r
    case Ok((ds, rest)) => Ok((done + ds, rest))
    case Err(e) => Err(e)
  }

  function TakeDigests(s: seq<u8>, count: nat): Result<(seq<seq<u8>>, seq<u8>), Fault> {
    if count == 0 then Ok(([], s)) else
    var (d, s1) :- TakeTpm2b(s);
    Prepend([d], TakeDigests(s1, count - 1))
  }

  /** The first register past 23, if any is named. */
  function Excess(pcrs: seq<int>): Option<int> {
    if pcrs == [] then None else if pcrs[0] > 23 then Some(pcrs[0]) else Excess(pcrs[1..])
  }

  lemma {:induction false} NoExcess(pcrs: seq<int>)
    ensures Excess(pcrs).None? <==> forall x :: x in pcrs ==> x <= 23
  {
    if pcrs != [] {
      NoExcess(pcrs[1..]);
      assert pcrs[0] in pcrs;
      assert forall x :: x in pcrs ==> x == pcrs[0] || x in pcrs[1..];
      assert forall x :: x in pcrs[1..] ==> x in pcrs;
    }
  }

  function DecodeSelection(bitmap: seq<u8>): (r: Result<seq<u8>, Fault>)
    ensures r.Ok? ==> Lists.Ascending(r.value) && forall x :: x in r.value ==> x <= 23
  {
    var picked := Picked(bitmap, 8 * |bitmap|);
    PickedAscends(bitmap, 8 * |bitmap|);
    NoExcess(picked);
    if Excess(picked).Some? then Err(PcrOutOfRange(Excess(picked).value))
    else
      assert forall i :: 0 <= i < |picked| ==> picked[i] in picked;
      Ok(picked)
  }

  /** A bitmap is refused exactly when it has a bit past 23, and for the first such;
      otherwise it names the registers whose bits it has. */
  lemma DecodeSelectionExact(bitmap: seq<u8>)
    ensures var r := DecodeSelection(bitmap);
      && (r.Ok? <==> forall n: nat :: 23 < n < 8 * |bitmap| ==> !BitOf(bitmap, n))
      && (r.Ok? ==> forall n: int :: n in r.value <==> 0 <= n < 8 * |bitmap| && BitOf(bitmap, n))
      && (r.Err? ==> exists n: nat ::
        && 23 < n < 8 * |bitmap| && BitOf(bitmap, n) && r == Err(PcrOutOfRange(n))
        && forall k: nat :: 23 < k < n ==> !BitOf(bitmap, k))
  {
    var picked := Picked(bitmap, 8 * |bitmap|);
    PickedExact(bitmap, 8 * |bitmap|);
    PickedAscends(bitmap, 8 * |bitmap|);
    NoExcess(picked);
    if Excess(picked).Some? {
      ExcessFirst(picked);
    }
  }

  lemma {:induction false} ExcessFirst(pcrs: seq<int>)
    requires Lists.Ascending(pcrs) && Excess(pcrs).Some?
    ensures Excess(pcrs).value in pcrs && Excess(pcrs).value > 23
    ensures forall x :: x in pcrs && x > 23 ==> Excess(pcrs).value <= x
  {
    if pcrs[0] > 23 {
      Lists.AscendingTail(pcrs);
    } else {
      ExcessFirst(pcrs[1..]);
      assert forall x :: x in pcrs ==> x == pcrs[0] || x in pcrs[1..];
    }
  }

  function DecodePcrRead(s: seq<u8>): (r: Result<PcrRead, Fault>)
    ensures r.Ok? ==> Lists.Ascending(r.value.returned) && forall x :: x in r.value.returned ==> x <= 23
  {
    var (_, s1) :- TakeU32(s);
    var (selections, s2) :- TakeU32(s1);
    if selections != 1 then Err(WrongSelectionCount) else
    var (_, s3) :- Take(s2, 2);
    var (size, s4) :- Take(s3, 1);
    var (bitmap, s5) :- Take(s4, size[0]);
    var returned :- DecodeSelection(bitmap);
    var (count, s6) :- TakeU32(s5);
    var (digests, _) :- TakeDigests(s6, count);
    Ok(PcrRead(returned, digests))
  }

  /** A PCR_Read response's parameters, followed by `rest`. */
  function PcrReadBytes(counter: u32, alg: u16, bitmap: seq<u8>, digests: seq<seq<u8>>, rest: seq<u8>): seq<u8>
    requires |bitmap| < 0x100 && |digests| < 0x1_0000_0000
  {
    U32(counter) + (U32(1) + (U16(alg) + ([|bitmap|] + (bitmap + (U32(|digests|) + Tpm2bs(digests, rest))))))
  }

  ghost predicate Tpm2bSized(digests: seq<seq<u8>>) {
    forall i :: 0 <= i < |digests| ==> |digests[i]| < 0x1_0000
  }

  lemma {:induction false} TakeDigestsPrinted(digests: seq<seq<u8>>, rest: seq<u8>)
    requires Tpm2bSized(digests)
    ensures TakeDigests(Tpm2bs(digests, rest), |digests|) == Ok((digests, rest))
  {
    if digests != [] {
      TakeWritten(0, digests[0], Tpm2bs(digests[1..], rest));
      TakeDigestsPrinted(digests[1..], rest);
      assert digests == [digests[0]] + digests[1..];
    }
  }

  lemma {:induction false} TakeDigestsOnlyPrinted(s: seq<u8>, count: nat)
    requires TakeDigests(s, count).Ok?
    ensures var (ds, rest) := TakeDigests(s, count).value;
      |ds| == count && Tpm2bSized(ds) && s == Tpm2bs(ds, rest) && 2 * count <= |s|
    decreases count
  {
    if count > 0 {
      var (d, s1) := TakeTpm2b(s).value;
      TakenTpm2b(s);
      TakeDigestsOnlyPrinted(s1, count - 1);
    }
  }

  /** The parser undoes the printer, for every bank, every bitmap that stays
      within 0..=23 and every list of digests. */
  lemma PcrReadReadBack(counter: u32, alg: u16, bitmap: seq<u8>, digests: seq<seq<u8>>, rest: seq<u8>)
    requires |bitmap| < 0x100 && |digests| < 0x1_0000_0000 && Tpm2bSized(digests)
    ensures DecodePcrRead(PcrReadBytes(counter, alg, bitmap, digests, rest)) ==
      match DecodeSelection(bitmap)
      case Ok(returned) => Ok(PcrRead(returned, digests))
      case Err(e) => Err(e)
  {
    var s5 := U32(|digests|) + Tpm2bs(digests, rest);
    var s4 := bitmap + s5;
    var s3 := [|bitmap|] + s4;
    var s2 := U16(alg) + s3;
    TakeWritten(counter, [], U32(1) + s2);
    TakeWritten(1, [], s2);
    TakeAppended(U16(alg), s3);
    TakeAppended([|bitmap|], s4);
    TakeAppended(bitmap, s5);
    TakeWritten(|digests|, [], Tpm2bs(digests, rest));
    TakeDigestsPrinted(digests, rest);
  }

  /** And it accepts nothing else: whatever it accepts is some printed response
      whose bitmap picks exactly the returned registers. The bank in it is not
      looked at. */
  lemma PcrReadOnlyPrinted(s: seq<u8>)
    requires DecodePcrRead(s).Ok?
    ensures exists counter: u32, alg: u16, bitmap: seq<u8>, rest: seq<u8> ::
      && |bitmap| < 0x100 && |DecodePcrRead(s).value.digests| < 0x1_0000_0000
      && s == PcrReadBytes(counter, alg, bitmap, DecodePcrRead(s).value.digests, rest)
      && DecodePcrRead(s).value.returned == Picked(bitmap, 8 * |bitmap|)
  {
    var (counter, s1) := TakeU32(s).value;
    var (_, s2) := TakeU32(s1).value;
    TakenU32(s);
    TakenU32(s1);
    var (alg, s3) := Take(s2, 2).value;
    var (size, s4) := Take(s3, 1).value;
    var (bitmap, s5) := Take(s4, size[0]).value;
    SelectionTaken(s2);
    var (count, s6) := TakeU32(s5).value;
    TakenU32(s5);
    var (digests, rest) := TakeDigests(s6, count).value;
    TakeDigestsOnlyPrinted(s6, count);
    assert s == PcrReadBytes(counter, OfU16(alg), bitmap, digests, rest);
  }

  lemma SelectionTaken(s: seq<u8>)
    requires |s| >= 3 && |s| - 3 >= s[2]
    ensures s == U16(OfU16(s[..2])) + ([s[2]] + (s[2..][1..][..s[2]] + s[2..][1..][s[2]..]))
  {
    BigEndian16(0, s[..2]);
    var t := s[2..];
    assert t == [s[2]] + t[1..];
    assert t[1..] == t[1..][..s[2]] + t[1..][s[2]..];
    assert s == s[..2] + t;
  }

  lemma {:induction false} ExcessOfPrefix(bitmap: seq<u8>, n: nat, m: nat)
    requires n <= m <= 8 * |bitmap|
    requires Excess(Picked(bitmap, n)).Some?
    ensures Excess(Picked(bitmap, m)) == Excess(Picked(bitmap, n))
    decreases m
  {
    if n < m {
      ExcessOfPrefix(bitmap, n, m - 1);
      if BitOf(bitmap, m - 1) {
        ExcessAppend(Picked(bitmap, m - 1), m - 1);
      } else {
        assert Picked(bitmap, m - 1) + [] == Picked(bitmap, m - 1);
      }
    }
  }

  lemma {:induction false} ExcessAppend(pcrs: seq<int>, pcr: int)
    ensures Excess(pcrs + [pcr]) ==
      if Excess(pcrs).Some? then Excess(pcrs) else if pcr > 23 then Some(pcr) else None
  {
    if pcrs != [] {
      assert (pcrs + [pcr])[1..] == pcrs[1..] + [pcr];
      ExcessAppend(pcrs[1..], pcr);
    } else {
      assert ([pcr])[1..] == [];
    }
  }

  /** One step of reading a bitmap: its next bit is appended, or refused. */
  lemma NextBit(bitmap: seq<u8>, byte: nat, bit: nat)
    requires byte < |bitmap| && bit < 8
    ensures var n := 8 * byte + bit;
      Picked(bitmap, n + 1) == Picked(bitmap, n) + (if Bit(bitmap[byte], bit) then [n] else [])
  {
    var n := 8 * byte + bit;
    assert n / 8 == byte && n % 8 == bit;
  }

  lemma RefusedAt(bitmap: seq<u8>, n: nat)
    requires n < 8 * |bitmap| && n > 23
    requires Picked(bitmap, n + 1) == Picked(bitmap, n) + [n] && Excess(Picked(bitmap, n)).None?
    ensures DecodeSelection(bitmap) == Err(PcrOutOfRange(n))
  {
    ExcessAppend(Picked(bitmap, n), n);
    ExcessOfPrefix(bitmap, n + 1, 8 * |bitmap|);
  }

  /** What has been read of a bitmap, up to the bit numbered `n`. */
  ghost predicate ReadTo(bitmap: seq<u8>, n: nat, returned: seq<u8>) {
    n <= 8 * |bitmap| && returned == Picked(bitmap, n) && Excess(returned).None?
  }

  lemma OneBit(bitmap: seq<u8>, byte: nat, bit: nat, n: nat, before: seq<u8>)
    requires byte < |bitmap| && bit < 8 && n == 8 * byte + bit
    requires ReadTo(bitmap, n, before)
    ensures if !Bit(bitmap[byte], bit) then ReadTo(bitmap, n + 1, before)
      else if n > 23 then DecodeSelection(bitmap) == Err(PcrOutOfRange(n))
      else ReadTo(bitmap, n + 1, before + [n])
  {
    NextBit(bitmap, byte, bit);
    if Bit(bitmap[byte], bit) {
      ExcessAppend(before, n);
      if n > 23 {
        RefusedAt(bitmap, n);
      }
    }
  }

  /** The bits of one octet, from the lowest. */
  method ParseOctet(bitmap: seq<u8>, byte: nat, before: seq<u8>, ghost start: nat) returns (r: Result<seq<u8>, Fault>)
    requires byte < |bitmap| && start == 8 * byte
    requires ReadTo(bitmap, start, before)
    ensures if r.Ok? then ReadTo(bitmap, start + 8, r.value) else r == DecodeSelection(bitmap)
  {
    var returned := before;
    ghost var n := start;
    for bit := 0 to 8
      invariant n == start + bit && ReadTo(bitmap, n, returned)
    {
      OneBit(bitmap, byte, bit, n, returned);
      if Bit(bitmap[byte], bit) {
        var pcr := byte * 8 + bit;
        if pcr > 23 {
          return Err(PcrOutOfRange(pcr));
        }
        var index: u8 := pcr;
        returned := returned + [index];
      }
      n := n + 1;
    }
    r := Ok(returned);
  }

  lemma ReadNothing(bitmap: seq<u8>)
    ensures ReadTo(bitmap, 0, [])
  {
  }

  lemma ReadAll(bitmap: seq<u8>, returned: seq<u8>)
    requires ReadTo(bitmap, 8 * |bitmap|, returned)
    ensures DecodeSelection(bitmap) == Ok(returned)
  {
  }

  method ParseSelection(bitmap: seq<u8>) returns (r: Result<seq<u8>, Fault>)
    ensures r == DecodeSelection(bitmap)
  {
    var returned: seq<u8> := [];
    ghost var n := 0;
    ReadNothing(bitmap);
    for byte := 0 to |bitmap|
      invariant n == 8 * byte && ReadTo(bitmap, n, returned)
    {
      var more := ParseOctet(bitmap, byte, returned, n);
      if more.Err? {
        return more;
      }
      returned := more.value;
      n := n + 8;
    }
    ReadAll(bitmap, returned);
    r := Ok(returned);
  }

  lemma PrependMore(done: seq<seq<u8>>, d: seq<u8>, r: Result<(seq<seq<u8>>, seq<u8>), Fault>)
    ensures Prepend([], r) == r
    ensures Prepend(done, Prepend([d], r)) == Prepend(done + [d], r)
  {
    if r.Ok? {
      assert [] + r.value.0 == r.value.0;
      assert done + ([d] + r.value.0) == done + [d] + r.value.0;
    }
  }

  /** `capacity` is what is reserved for the digests before any is read. It is
      bounded by the bytes there are, and on success it is exactly the number
      of digests, so the list never grows past it. */
  method ParseDigests(reader: Reader, count: u32) returns (r: Result<seq<seq<u8>>, Fault>, capacity: nat)
    requires reader.Valid()
    modifies reader
    ensures reader.Valid()
    ensures match TakeDigests(old(reader.Rest()), count)
            case Ok(t) => r == Ok(t.0)
            case Err(e) => r == Err(e)
    ensures 2 * capacity <= |old(reader.Rest())|
    ensures r.Ok? ==> capacity == |r.value|
  {
    var remaining := reader.Remaining();
    capacity := if count < remaining / 2 then count else remaining / 2;
    ghost var s := reader.Rest();
    var digests: seq<seq<u8>> := [];
    PrependMore([], [], TakeDigests(s, count));
    for i := 0 to count
      invariant reader.Valid()
      invariant |digests| == i
      invariant TakeDigests(s, count) == Prepend(digests, TakeDigests(reader.Rest(), count - i))
    {
      var next := reader.Tpm2b();
      if next.Err? {
        return Err(next.error), capacity;
      }
      PrependMore(digests, next.value, TakeDigests(reader.Rest(), count - i - 1));
      digests := digests + [next.value];
    }
    if TakeDigests(s, count).Ok? {
      TakeDigestsOnlyPrinted(s, count);
    }
    r := Ok(digests);
    assert digests + [] == digests;
  }

  method ParsePcrRead(payload: seq<u8>) returns (r: Result<PcrRead, Fault>)
    requires |payload| <= ISIZE_MAX
    ensures r == DecodePcrRead(payload)
  {
    var reader := new Reader(payload);
    var _ :- reader.U32();
    var selections :- reader.U32();
    if selections != 1 {
      return Err(WrongSelectionCount);
    }
    var _ :- reader.U16();
    var size :- reader.U8();
    var bitmap :- reader.Bytes(size);
    var returned :- ParseSelection(bitmap);
    var count :- reader.U32();
    var parsed, _ := ParseDigests(reader, count);
    var digests :- parsed;
    r := Ok(PcrRead(returned, digests));
  }
}
