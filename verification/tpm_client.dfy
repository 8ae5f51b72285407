/** What `read_pcrs` and the trial-session policy computation do with a device,
    and that they are safe whatever the device answers. */
module TpmClient {
  import opened Prelude
  import opened Wire
  import opened Tpm2
  import Bits
  import Lists

  // ---- Reading PCRs over several rounds ----------------------------------

  type Reading = seq<(u8, seq<u8>)>

  function Without(s: seq<u8>, gone: seq<u8>): (r: seq<u8>)
    ensures |r| <= |s|
    ensures forall x :: x in r <==> x in s && x !in gone
    ensures (exists x :: x in s && x in gone) ==> |r| < |s|
  {
    if s == [] then []
    else
      assert forall x :: x in s <==> x == s[0] || x in s[1..];
      var rest := Without(s[1..], gone);
      if s[0] in gone then rest else [s[0]] + rest
  }

  function Zip(read: PcrRead): (r: Reading)
    requires |read.returned| == |read.digests|
    ensures |r| == |read.returned|
    ensures forall i :: 0 <= i < |r| ==> r[i] == (read.returned[i], read.digests[i])
  {
    seq(|read.returned|, i requires 0 <= i < |read.returned| => (read.returned[i], read.digests[i]))
  }

  predicate Repeats(s: seq<u8>) {
    exists i :: 0 <= i < |s| - 1 && s[i] == s[i + 1]
  }

  function FirstUnasked(returned: seq<u8>, remaining: seq<u8>): (r: Option<u8>)
    ensures r.None? <==> forall x :: x in returned ==> x in remaining
  {
    if returned == [] then None
    else
      assert forall x :: x in returned <==> x == returned[0] || x in returned[1..];
      if returned[0] !in remaining then Some(returned[0]) else FirstUnasked(returned[1..], remaining)
  }

  /** Why a round cannot be used, if it cannot. */
  function Refusal(remaining: seq<u8>, read: PcrRead): Option<Fault> {
    if read.returned == [] || |read.digests| != |read.returned| then Some(Unpaired)
    else if Repeats(read.returned) then Some(Repeated)
    else match FirstUnasked(read.returned, remaining)
      case Some(pcr) => Some(Unasked(pcr))
      case None => None
  }

  /** A round is usable exactly when it answers for something, with as many
      digests, without a register twice in a row, and only for registers that are
      outstanding; otherwise the first of these that fails is what is wrong. */
  lemma RefusalExact(remaining: seq<u8>, read: PcrRead)
    ensures var why := Refusal(remaining, read);
      var paired := read.returned != [] && |read.digests| == |read.returned|;
      var repeated := exists i :: 0 < i < |read.returned| && read.returned[i - 1] == read.returned[i];
      && (why == Some(Unpaired) <==> !paired)
      && (why == Some(Repeated) <==> paired && repeated)
      && (why == None <==> paired && !repeated && forall x :: x in read.returned ==> x in remaining)
      && (why.Some? && why.value.Unasked? ==> why.value.pcr in read.returned && why.value.pcr !in remaining)
  {
    if Repeats(read.returned) {
      var i :| 0 <= i < |read.returned| - 1 && read.returned[i] == read.returned[i + 1];
      assert read.returned[i + 1 - 1] == read.returned[i + 1];
    } else {
      forall i | 0 < i < |read.returned| ensures read.returned[i - 1] != read.returned[i] {
        assert read.returned[i - 1] != read.returned[i - 1 + 1];
      }
    }
    FirstUnaskedIs(read.returned, remaining);
  }

  lemma {:induction false} FirstUnaskedIs(returned: seq<u8>, remaining: seq<u8>)
    ensures var pcr := FirstUnasked(returned, remaining);
      pcr.Some? ==> pcr.value in returned && pcr.value !in remaining
  {
    if returned != [] {
      FirstUnaskedIs(returned[1..], remaining);
    }
  }

  /** The two lists `read_pcrs` keeps between rounds. */
  class Progress {
    var remaining: seq<u8>
    var out: Reading

    constructor (remaining: seq<u8>)
      ensures this.remaining == remaining && out == []
    {
      this.remaining := remaining;
      out := [];
    }

    /** Folds one round in. A refused round changes nothing. */
    method Absorb(read: PcrRead) returns (r: Result<(), Fault>)
      modifies this
      ensures match Refusal(old(remaining), read)
              case None =>
                && r == Ok(())
                && remaining == Without(old(remaining), read.returned)
                && out == old(out) + Zip(read)
              case Some(e) => r == Err(e) && remaining == old(remaining) && out == old(out)
    {
      if read.returned == [] || |read.digests| != |read.returned| {
        return Err(Unpaired);
      }
      if Repeats(read.returned) {
        return Err(Repeated);
      }
      var unasked := FirstUnasked(read.returned, remaining);
      if unasked.Some? {
        return Err(Unasked(unasked.value));
      }
      remaining := Without(remaining, read.returned);
      out := out + Zip(read);
      r := Ok(());
    }
  }

  /** One round: the device is asked for everything outstanding. */
  function Round(dev: Device, log: Log, bank: Bank, remaining: seq<u8>): (Result<PcrRead, Fault>, Log) {
    var log' := Sent(log, CC_PCR_READ, Selection(bank.Alg(), Lists.Elements(remaining)));
    match Payload(dev, log')
    case Err(e) => (Err(e), log')
    case Ok(payload) =>
      match DecodePcrRead(payload)
      case Err(e) => (Err(e), log')
      case Ok(read) =>
        match Refusal(remaining, read)
        case Some(e) => (Err(e), log')
        case None => (Ok(read), log')
  }

  lemma RoundUses(dev: Device, log: Log, bank: Bank, remaining: seq<u8>)
    requires remaining != []
    ensures var (r, _) := Round(dev, log, bank, remaining);
      r.Ok? ==> |Without(remaining, r.value.returned)| < |remaining|
  {
    var (r, _) := Round(dev, log, bank, remaining);
    if r.Ok? {
      assert r.value.returned[0] in remaining;
    }
  }

  function ReadRounds(
    dev: Device, log: Log, bank: Bank, remaining: seq<u8>, out: Reading): (Result<Reading, Fault>, Log)
    decreases |remaining|
  {
    if remaining == [] then (Ok(out), log)
    else
      var (r, log') := Round(dev, log, bank, remaining);
      match r
      case Err(e) => (Err(e), log')
      case Ok(read) =>
        RoundUses(dev, log, bank, remaining);
        ReadRounds(dev, log', bank, Without(remaining, read.returned), out + Zip(read))
  }

  function SortDedup(indices: seq<u8>): (r: seq<u8>)
    ensures Lists.Ascending(r)
    ensures forall x :: x in r <==> x in indices
    ensures r == Lists.Listing(Lists.Elements(indices), 0x100)
  {
    Lists.CanonicalIsListing(indices, 0x100);
    var c := Lists.Canonical(indices);
    assert forall i :: 0 <= i < |c| ==> c[i] in c;
    c
  }

  function Index(entry: (u8, seq<u8>)): int { entry.0 }

  function ReadPcrs(dev: Device, log: Log, bank: Bank, indices: seq<u8>): (Result<Reading, Fault>, Log) {
    var (r, log') := ReadRounds(dev, log, bank, SortDedup(indices), []);
    match r
    case Err(e) => (Err(e), log')
    case Ok(out) => (Ok(Lists.SortByKey(out, Index)), log')
  }

  // ---- Safety of read_pcrs against any device ----------------------------

  function Keys(r: Reading): (k: seq<int>)
    ensures |k| == |r|
    ensures forall i :: 0 <= i < |k| ==> k[i] == r[i].0
  {
    seq(|r|, i requires 0 <= i < |r| => r[i].0)
  }

  /** The response to the last command of `log` pairs this digest with this
      register: both are at the same position of the same round. */
  ghost predicate PairedIn(dev: Device, log: Log, entry: (u8, seq<u8>)) {
    && Payload(dev, log).Ok?
    && DecodePcrRead(Payload(dev, log).value).Ok?
    && var read := DecodePcrRead(Payload(dev, log).value).value;
      exists j :: 0 <= j < |read.returned| && 0 <= j < |read.digests|
        && read.returned[j] == entry.0 && read.digests[j] == entry.1
  }

  ghost predicate PairedSince(dev: Device, from: nat, log: Log, entry: (u8, seq<u8>)) {
    exists k :: from < k <= |log| && PairedIn(dev, log[..k], entry)
  }

  lemma {:induction false} WithoutAscends(s: seq<u8>, gone: seq<u8>)
    requires Lists.Ascending(s)
    ensures Lists.Ascending(Without(s, gone))
  {
    if s != [] {
      WithoutAscends(s[1..], gone);
      var w := Without(s[1..], gone);
      forall i | 0 <= i < |w| ensures s[0] < w[i] {
        assert w[i] in s[1..];
      }
    }
  }

  /** What a usable round answers for leaves the outstanding list, and nothing
      else does. */
  lemma RoundPartitions(remaining: seq<u8>, returned: seq<u8>)
    requires Lists.Ascending(remaining) && Lists.Ascending(returned)
    requires forall x :: x in returned ==> x in remaining
    ensures Lists.Bag(remaining) == Lists.Bag(returned) + Lists.Bag(Without(remaining, returned))
  {
    var left := Without(remaining, returned);
    WithoutAscends(remaining, returned);
    forall x: int ensures Lists.Bag(remaining)[x] == Lists.Bag(returned)[x] + Lists.Bag(left)[x] {
      Lists.AscendingCounts(remaining, x);
      Lists.AscendingCounts(returned, x);
      Lists.AscendingCounts(left, x);
    }
  }

  lemma RoundMoves(remaining: seq<u8>, read: PcrRead, out: Reading)
    requires Lists.Ascending(remaining) && Lists.Ascending(read.returned)
    requires forall x :: x in read.returned ==> x in remaining
    requires |read.returned| == |read.digests|
    ensures Lists.Bag(Keys(out + Zip(read))) + Lists.Bag(Without(remaining, read.returned))
         == Lists.Bag(Keys(out)) + Lists.Bag(remaining)
  {
    RoundPartitions(remaining, read.returned);
    assert Keys(out + Zip(read)) == Keys(out) + read.returned;
  }

  lemma RoundUsable(dev: Device, log: Log, bank: Bank, remaining: seq<u8>)
    requires Round(dev, log, bank, remaining).0.Ok?
    ensures var (r, log') := Round(dev, log, bank, remaining);
      && Lists.Ascending(r.value.returned) && r.value.returned != [] && |r.value.returned| == |r.value.digests|
      && (forall x :: x in r.value.returned ==> x in remaining && x <= 23)
      && forall i :: 0 <= i < |Zip(r.value)| ==> PairedIn(dev, log', Zip(r.value)[i])
  {
    var (r, log') := Round(dev, log, bank, remaining);
    var z := Zip(r.value);
    forall i | 0 <= i < |z| ensures PairedIn(dev, log', z[i]) {
      assert r.value.returned[i] == z[i].0 && r.value.digests[i] == z[i].1;
    }
  }

  /** The loop's invariant and bound, for any device: the keys of `out` and
      the outstanding registers together are always the request. */
  lemma {:induction false} ReadRoundsPartition(dev: Device, log: Log, bank: Bank, remaining: seq<u8>, out: Reading)
    requires Lists.Ascending(remaining)
    ensures var (r, log') := ReadRounds(dev, log, bank, remaining, out);
      && log <= log' && |log'| <= |log| + |remaining|
      && (r.Ok? ==>
        && Lists.Bag(Keys(r.value)) == Lists.Bag(Keys(out)) + Lists.Bag(remaining)
        && forall x :: x in remaining ==> x <= 23)
    decreases |remaining|
  {
    if remaining == [] {
      assert Keys(out) == Keys(out) + remaining;
    } else {
      var (round, log1) := Round(dev, log, bank, remaining);
      if round.Ok? {
        RoundUsable(dev, log, bank, remaining);
        var read := round.value;
        assert read.returned[0] in remaining;
        var left, more := Without(remaining, read.returned), out + Zip(read);
        WithoutAscends(remaining, read.returned);
        ReadRoundsPartition(dev, log1, bank, left, more);
        RoundMoves(remaining, read, out);
        assert forall x :: x in remaining ==> x in left || x in read.returned;
      }
    }
  }

  lemma {:induction false} ReadRoundsPaired(dev: Device, log: Log, bank: Bank, remaining: seq<u8>, out: Reading, i: nat)
    requires Lists.Ascending(remaining)
    requires ReadRounds(dev, log, bank, remaining, out).0.Ok?
    ensures var (r, log') := ReadRounds(dev, log, bank, remaining, out);
      && out <= r.value
      && (|out| <= i < |r.value| ==> PairedSince(dev, |log|, log', r.value[i]))
    decreases |remaining|
  {
    if remaining != [] {
      var (round, log1) := Round(dev, log, bank, remaining);
      RoundUsable(dev, log, bank, remaining);
      var read := round.value;
      assert read.returned[0] in remaining;
      var left, more := Without(remaining, read.returned), out + Zip(read);
      WithoutAscends(remaining, read.returned);
      ReadRoundsPartition(dev, log1, bank, left, more);
      ReadRoundsPaired(dev, log1, bank, left, more, i);
      var (r, log') := ReadRounds(dev, log1, bank, left, more);
      if |out| <= i < |r.value| {
        PairedLater(dev, log, log1, log', out, read, r.value, i);
      }
    }
  }

  lemma PairedLater(dev: Device, log: Log, log1: Log, log': Log, out: Reading, read: PcrRead, all: Reading, i: nat)
    requires |log1| == |log| + 1 && log1 <= log' && |read.returned| == |read.digests|
    requires out + Zip(read) <= all && |out| <= i < |all|
    requires forall k :: 0 <= k < |Zip(read)| ==> PairedIn(dev, log1, Zip(read)[k])
    requires |out + Zip(read)| <= i ==> PairedSince(dev, |log1|, log', all[i])
    ensures PairedSince(dev, |log|, log', all[i])
  {
    if i < |out + Zip(read)| {
      assert all[i] == Zip(read)[i - |out|];
      assert log'[..|log1|] == log1;
    }
  }

  lemma {:induction false} KeysOfSorted(out: Reading)
    ensures Keys(Lists.SortByKey(out, Index)) == Lists.SortByKey(Keys(out), Lists.Identity)
  {
    if out != [] {
      KeysOfSorted(out[1..]);
      KeysOfInserted(out[0], Lists.SortByKey(out[1..], Index));
      assert Keys(out)[1..] == Keys(out[1..]);
    }
  }

  lemma {:induction false} KeysOfInserted(x: (u8, seq<u8>), s: Reading)
    ensures Keys(Lists.Insert(x, s, Index)) == Lists.Insert(x.0, Keys(s), Lists.Identity)
  {
    if s == [] || Index(x) <= Index(s[0]) {
      assert Keys([x] + s) == [x.0] + Keys(s);
    } else {
      KeysOfInserted(x, s[1..]);
      assert Keys(s)[1..] == Keys(s[1..]);
      assert Keys([s[0]] + Lists.Insert(x, s[1..], Index)) == [s[0].0] + Keys(Lists.Insert(x, s[1..], Index));
    }
  }

  lemma SortedKeys(out: Reading, wanted: seq<u8>)
    requires Lists.Ascending(wanted) && Lists.Bag(Keys(out)) == Lists.Bag(wanted)
    ensures Keys(Lists.SortByKey(out, Index)) == wanted
  {
    KeysOfSorted(out);
    Lists.SortSorts(Keys(out), Lists.Identity);
    Lists.AscendingSorted(wanted);
    Lists.SortedUnique(Lists.SortByKey(Keys(out), Lists.Identity), wanted);
  }

  lemma SortedMembers(out: Reading, entry: (u8, seq<u8>))
    requires entry in Lists.SortByKey(out, Index)
    ensures entry in out
  {
    Lists.SortSorts(out, Index);
    assert entry in multiset(out);
  }

  /** Whatever bytes the TPM sends in whatever round: there are at most as many
      rounds as distinct registers requested; success means exactly those
      registers, ascending, each with the digest of its own round and
      position; and no register past 23 can succeed. */
  lemma ReadPcrsSafe(dev: Device, log: Log, bank: Bank, indices: seq<u8>)
    ensures var (r, log') := ReadPcrs(dev, log, bank, indices);
      && log <= log' && |log'| <= |log| + |SortDedup(indices)|
      && (r.Ok? ==>
        && Keys(r.value) == SortDedup(indices)
        && (forall x :: x in indices ==> x <= 23)
        && forall entry :: entry in r.value ==> PairedSince(dev, |log|, log', entry))
  {
    var wanted := SortDedup(indices);
    ReadRoundsPartition(dev, log, bank, wanted, []);
    var (r, log') := ReadRounds(dev, log, bank, wanted, []);
    if r.Ok? {
      assert Lists.Bag(Keys(r.value)) == Lists.Bag(wanted);
      SortedKeys(r.value, wanted);
      forall entry | entry in Lists.SortByKey(r.value, Index) ensures PairedSince(dev, |log|, log', entry) {
        SortedMembers(r.value, entry);
        var i :| 0 <= i < |r.value| && r.value[i] == entry;
        ReadRoundsPaired(dev, log, bank, wanted, [], i);
      }
    }
  }

  // ---- The policy the current PCRs would produce -------------------------

  function Zeros(n: nat): (r: seq<u8>)
    ensures |r| == n && forall i :: 0 <= i < n ==> r[i] == 0
  {
    seq(n, i => 0)
  }

  /** No salt key, no bind object, a nonce of the session hash's length, no
      salt, a trial session, no symmetric algorithm, SHA-256. */
  function StartBody(): seq<u8> {
    StartBodyWith(Zeros(32))
  }

  function StartBodyWith(nonce: seq<u8>): seq<u8> {
    U32(RH_NULL) + U32(RH_NULL) + Tpm2b(nonce) + Tpm2b([]) + [SE_TRIAL] + U16(ALG_NULL) + U16(Sha256.Alg())
  }

  /** An empty pcrDigest asks for the registers' present values. */
  function PolicyPcrBody(session: u32, bank: Bank, pcrs: set<int>): seq<u8> {
    U32(session) + (U16(0) + Selection(bank.Alg(), pcrs))
  }

  function StartSession(dev: Device, log: Log): (Result<u32, Fault>, Log) {
    var log' := Sent(log, CC_START_AUTH_SESSION, StartBody());
    (HandleOf(dev, log'), log')
  }

  function HandleOf(dev: Device, log: Log): Result<u32, Fault> {
    var payload :- Payload(dev, log);
    var (handle, _) :- TakeU32(payload);
    Ok(handle)
  }

  function DigestOf(dev: Device, log: Log): Result<seq<u8>, Fault> {
    var payload :- Payload(dev, log);
    var (digest, _) :- TakeTpm2b(payload);
    Ok(digest)
  }

  function BuildPolicy(
    dev: Device, log: Log, session: u32, bank: Bank, indices: seq<u8>): (Result<seq<u8>, Fault>, Log)
  {
    var log1 := Sent(log, CC_POLICY_PCR, PolicyPcrBody(session, bank, Lists.Elements(indices)));
    match Payload(dev, log1)
    case Err(e) => (Err(e), log1)
    case Ok(_) =>
      var log2 := Sent(log1, CC_POLICY_GET_DIGEST, U32(session));
      (DigestOf(dev, log2), log2)
  }

  /** Whether the policy worked out or not, the session is flushed once its
      handle is known. */
  function PolicyDigest(dev: Device, log: Log, bank: Bank, indices: seq<u8>): (Result<seq<u8>, Fault>, Log) {
    var (session, log1) := StartSession(dev, log);
    match session
    case Err(e) => (Err(e), log1)
    case Ok(handle) =>
      var (r, log2) := BuildPolicy(dev, log1, handle, bank, indices);
      (r, Sent(log2, CC_FLUSH_CONTEXT, U32(handle)))
  }

  /** Reading registers sends nothing but PCR_Read, and at least once if there is
      anything to read. */
  lemma {:induction false} OnlyPcrReads(dev: Device, log: Log, bank: Bank, remaining: seq<u8>, out: Reading)
    ensures var (_, log') := ReadRounds(dev, log, bank, remaining, out);
      && log <= log' && (remaining != [] ==> |log'| > |log|)
      && forall i :: |log| <= i < |log'| ==> exists body :: log'[i] == Command(CC_PCR_READ, body)
    decreases |remaining|
  {
    if remaining != [] {
      var (r, log1) := Round(dev, log, bank, remaining);
      assert log1[|log|] == Command(CC_PCR_READ, Selection(bank.Alg(), Lists.Elements(remaining)));
      if r.Ok? {
        RoundUses(dev, log, bank, remaining);
        OnlyPcrReads(dev, log1, bank, Without(remaining, r.value.returned), out + Zip(r.value));
      }
    }
  }

  // ---- In octets ---------------------------------------------------------

  lemma U32Octets(v: u32)
    ensures U32(v) == [v / 0x100_0000, v / 0x1_0000 % 0x100, v / 0x100 % 0x100, v % 0x100]
  {
    HighOctet(v);
    MiddleOctet(v);
    LowOctet(v);
  }

  lemma HighOctet(v: nat)
    ensures v / 0x1_0000 / 0x100 == v / 0x100_0000
  {
  }

  lemma MiddleOctet(v: nat)
    ensures v % 0x1_0000 / 0x100 == v / 0x100 % 0x100
  {
    var high, low := v / 0x1_0000, v % 0x1_0000;
    Bits.Quotient(v, 0x100, high * 0x100 + low / 0x100, low % 0x100);
    Bits.Quotient(v / 0x100, 0x100, high, low / 0x100);
  }

  lemma LowOctet(v: nat)
    ensures v % 0x1_0000 % 0x100 == v % 0x100
  {
    var high, low := v / 0x1_0000, v % 0x1_0000;
    var q: nat := high * 0x100 + low / 0x100;
    Bits.Quotient(v, 0x100, q, low % 0x100);
  }

  function BankOctets(bank: Bank): seq<u8> {
    match bank
    case Sha1 => [0x00, 0x04]
    case Sha256 => [0x00, 0x0b]
    case Sha384 => [0x00, 0x0c]
    case Sha512 => [0x00, 0x0d]
  }

  /** A selection is one bank, three octets long. */
  lemma SelectionOctets(bank: Bank, pcrs: set<int>)
    ensures Selection(bank.Alg(), pcrs) == [0, 0, 0, 1] + BankOctets(bank) + [3] + Bits.Bitmap(pcrs)
  {
    U32Octets(1);
  }

  /** Every command the client sends, octet by octet as the TPM 2.0 Library
      Specification, Part 3, has it: tag 0x8001, the size of the whole, the code,
      and the parameters. */
  lemma CommandOctets(session: u32, bank: Bank, pcrs: set<int>)
    ensures Command(CC_GET_CAPABILITY, LockoutBody())
      == [0x80, 0x01, 0, 0, 0, 22, 0, 0, 0x01, 0x7a] + [0, 0, 0, 6, 0, 0, 0x02, 0x00, 0, 0, 0, 0x10]
    ensures Command(CC_PCR_READ, Selection(bank.Alg(), pcrs))
      == [0x80, 0x01, 0, 0, 0, 20, 0, 0, 0x01, 0x7e] + ([0, 0, 0, 1] + BankOctets(bank) + [3] + Bits.Bitmap(pcrs))
    ensures Command(CC_START_AUTH_SESSION, StartBody())
      == [0x80, 0x01, 0, 0, 0, 59, 0, 0, 0x01, 0x76]
        + ([0x40, 0, 0, 0x07, 0x40, 0, 0, 0x07, 0, 32] + Zeros(32) + [0, 0, 0x03, 0x00, 0x10, 0x00, 0x0b])
    ensures Command(CC_POLICY_PCR, PolicyPcrBody(session, bank, pcrs))
      == [0x80, 0x01, 0, 0, 0, 26, 0, 0, 0x01, 0x7f]
        + (U32(session) + [0, 0] + [0, 0, 0, 1] + BankOctets(bank) + [3] + Bits.Bitmap(pcrs))
    ensures Command(CC_POLICY_GET_DIGEST, U32(session)) == [0x80, 0x01, 0, 0, 0, 14, 0, 0, 0x01, 0x89] + U32(session)
    ensures Command(CC_FLUSH_CONTEXT, U32(session)) == [0x80, 0x01, 0, 0, 0, 14, 0, 0, 0x01, 0x65] + U32(session)
  {
    HeaderOctets(CC_GET_CAPABILITY, LockoutBody());
    CapabilityOctets();
    SelectionOctets(bank, pcrs);
    HeaderOctets(CC_PCR_READ, Selection(bank.Alg(), pcrs));
    StartOctets();
    HeaderOctets(CC_START_AUTH_SESSION, StartBody());
    PolicyPcrOctets(session, bank, pcrs);
    HeaderOctets(CC_POLICY_PCR, PolicyPcrBody(session, bank, pcrs));
    HeaderOctets(CC_POLICY_GET_DIGEST, U32(session));
    HeaderOctets(CC_FLUSH_CONTEXT, U32(session));
  }

  /** And a successful response to them. */
  lemma ResponseOctets(payload: seq<u8>)
    requires |payload| < 0x80
    ensures ResponsePayload([0x80, 0x01, 0, 0, 0, 10 + |payload|, 0, 0, 0, 0] + payload) == Ok(payload)
  {
    U32Octets(10 + |payload|);
    U32Octets(0);
    ResponseReadBack(ST_NO_SESSIONS, 0, payload);
    assert Response(ST_NO_SESSIONS, 0, payload) == [0x80, 0x01, 0, 0, 0, 10 + |payload|, 0, 0, 0, 0] + payload;
  }

  lemma HeaderOctets(cc: u32, body: seq<u8>)
    requires 0x100 <= cc < 0x200 && |body| < 0x80
    ensures Command(cc, body) == [0x80, 0x01, 0, 0, 0, 10 + |body|, 0, 0, 0x01, cc - 0x100] + body
  {
    U32Octets(10 + |body|);
    U32Octets(cc);
    assert cc / 0x100 == 1 && cc % 0x100 == cc - 0x100;
  }

  lemma CapabilityOctets()
    ensures LockoutBody() == [0, 0, 0, 6, 0, 0, 0x02, 0x00, 0, 0, 0, 0x10]
  {
    U32Octets(CAP_TPM_PROPERTIES);
    U32Octets(PT_PERMANENT);
    U32Octets(PT_MAX_AUTH_FAIL - PT_PERMANENT + 1);
  }

  lemma StartOctets()
    ensures StartBody() ==
      [0x40, 0, 0, 0x07, 0x40, 0, 0, 0x07, 0, 32] + Zeros(32) + [0, 0, 0x03, 0x00, 0x10, 0x00, 0x0b]
  {
    U32Octets(RH_NULL);
  }

  lemma PolicyPcrOctets(session: u32, bank: Bank, pcrs: set<int>)
    ensures PolicyPcrBody(session, bank, pcrs)
      == U32(session) + [0, 0] + [0, 0, 0, 1] + BankOctets(bank) + [3] + Bits.Bitmap(pcrs)
  {
    SelectionOctets(bank, pcrs);
  }

  // ---- The client, step by step ------------------------------------------

  class Tpm {
    const device: Device
    var log: Log

    constructor (device: Device, log: Log)
      ensures this.device == device && this.log == log
    {
      this.device := device;
      this.log := log;
    }

    method Transact(cc: u32, body: seq<u8>) returns (r: Result<seq<u8>, Fault>)
      modifies this
      ensures log == Sent(old(log), cc, body)
      ensures r == Payload(device, log)
      ensures r.Ok? ==> |r.value| <= 4086
    {
      var cmd := BuildCommand(cc, body);
      log := log + [cmd];
      var reply := device(log);
      if reply.Lost? {
        return Err(Transport);
      }
      var buf := if |reply.bytes| <= MAX_RESPONSE then reply.bytes else reply.bytes[..MAX_RESPONSE];
      r := ResponsePayload(buf);
    }

    method GetLockout() returns (r: Result<Lockout, Fault>)
      modifies this
      ensures (r, log) == LockoutAfter(device, old(log))
    {
      var body := new Output();
      body.PutU32(CAP_TPM_PROPERTIES);
      body.PutU32(PT_PERMANENT);
      body.PutU32(PT_MAX_AUTH_FAIL - PT_PERMANENT + 1);
      assert body.bytes == LockoutBody();
      var payload :- Transact(CC_GET_CAPABILITY, body.bytes);
      r := ParseProperties(payload);
    }

    method ReadRound(bank: Bank, progress: Progress) returns (r: Result<(), Fault>)
      requires progress.remaining != []
      modifies this, progress
      ensures log == Round(device, old(log), bank, old(progress.remaining)).1
      ensures match Round(device, old(log), bank, old(progress.remaining)).0
              case Err(e) => r == Err(e)
              case Ok(read) =>
                && r == Ok(())
                && progress.remaining == Without(old(progress.remaining), read.returned)
                && |read.returned| == |read.digests| && progress.out == old(progress.out) + Zip(read)
    {
      var body := SelectionBody(bank, progress.remaining);
      var payload :- Transact(CC_PCR_READ, body);
      var read :- ParsePcrRead(payload);
      r := progress.Absorb(read);
    }

    method ReadPcrRegisters(bank: Bank, indices: seq<u8>) returns (r: Result<Reading, Fault>)
      modifies this
      ensures (r, log) == ReadPcrs(device, old(log), bank, indices)
    {
      var progress := new Progress(SortDedup(indices));
      ghost var all := ReadRounds(device, log, bank, progress.remaining, progress.out);
      while progress.remaining != []
        invariant all == ReadRounds(device, log, bank, progress.remaining, progress.out)
        decreases |progress.remaining|
      {
        RoundUses(device, log, bank, progress.remaining);
        var _ :- ReadRound(bank, progress);
      }
      r := Ok(Lists.SortByKey(progress.out, Index));
    }

    method StartTrialSession() returns (r: Result<u32, Fault>)
      modifies this
      ensures (r, log) == StartSession(device, old(log))
    {
      var body := new Output();
      body.PutU32(RH_NULL);
      assert body.bytes == U32(RH_NULL);
      body.PutU32(RH_NULL);
      body.PutTpm2b(Zeros(32));
      body.PutTpm2b([]);
      body.Extend([SE_TRIAL]);
      body.PutU16(ALG_NULL);
      body.PutU16(Sha256.Alg());
      assert body.bytes == StartBody();
      var payload :- Transact(CC_START_AUTH_SESSION, body.bytes);
      var reader := new Reader(payload);
      r := reader.U32();
    }

    method FlushSession(handle: u32) returns (r: Result<(), Fault>)
      modifies this
      ensures log == Sent(old(log), CC_FLUSH_CONTEXT, U32(handle))
      ensures r.Ok? <==> Payload(device, log).Ok?
    {
      var body := new Output();
      body.PutU32(handle);
      assert body.bytes == U32(handle);
      var _ :- Transact(CC_FLUSH_CONTEXT, body.bytes);
      r := Ok(());
    }

    method BuildPcrPolicy(session: u32, bank: Bank, indices: seq<u8>) returns (r: Result<seq<u8>, Fault>)
      modifies this
      ensures (r, log) == BuildPolicy(device, old(log), session, bank, indices)
    {
      var body := new Output();
      body.PutU32(session);
      body.PutU16(0);
      body.PutPcrSelection(bank.Alg(), indices);
      assert body.bytes == PolicyPcrBody(session, bank, Lists.Elements(indices));
      var _ :- Transact(CC_POLICY_PCR, body.bytes);

      body := new Output();
      body.PutU32(session);
      assert body.bytes == U32(session);
      var payload :- Transact(CC_POLICY_GET_DIGEST, body.bytes);
      var reader := new Reader(payload);
      r := reader.Tpm2b();
    }

    method PcrPolicyDigest(bank: Bank, indices: seq<u8>) returns (r: Result<seq<u8>, Fault>)
      modifies this
      ensures (r, log) == PolicyDigest(device, old(log), bank, indices)
    {
      var session :- StartTrialSession();
      r := BuildPcrPolicy(session, bank, indices);
      var _ := FlushSession(session);
    }
  }

  method SelectionBody(bank: Bank, indices: seq<u8>) returns (body: seq<u8>)
    ensures body == Selection(bank.Alg(), Lists.Elements(indices))
  {
    var out := new Output();
    out.PutPcrSelection(bank.Alg(), indices);
    body := out.bytes;
    assert body == Selection(bank.Alg(), Lists.Elements(indices));
  }

  method BuildCommand(cc: u32, body: seq<u8>) returns (cmd: seq<u8>)
    ensures cmd == Command(cc, body)
  {
    var out := new Output();
    out.PutU16(ST_NO_SESSIONS);
    out.PutU32((10 + |body|) % 0x1_0000_0000);
    out.PutU32(cc);
    out.Extend(body);
    cmd := out.bytes;
    assert cmd == Command(cc, body);
  }
}
