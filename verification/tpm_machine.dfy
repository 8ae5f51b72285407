/** A TPM that does what the TPM 2.0 Library Specification, Part 3, says of the
    six commands the client sends: sections 11.1 (StartAuthSession), 22.4
    (PCR_Read), 23.7 (PolicyPCR) and 28.4 (FlushContext) among them. It reads
    the bytes of each command for itself and answers in bytes. */
module TpmMachine {
  import opened Prelude
  import opened Bits
  import opened Wire
  import opened Tpm2
  import opened TpmClient
  import opened Sessions
  import Lists

  type Pcrs = (u16, int) -> seq<u8>
  type Hash = seq<u8> -> seq<u8>

  datatype Machine = Machine(
    /** The present value of each register of each bank. */
    pcr: Pcrs,
    hash: Hash,
    /** Which of the registers asked for it answers this time. */
    pick: (nat, set<int>) -> set<int>,
    /** How many sessions it can hold, and the handle the next one gets. */
    slots: nat,
    free: set<int> -> u32,
    properties: seq<(u32, u32)>,
    counter: nat -> u32)

  /** The policy digest of each live session. */
  type State = map<int, seq<u8>>

  ghost predicate Sound(m: Machine) {
    && (forall n, s :: s != {} ==> m.pick(n, s) != {} && m.pick(n, s) <= s)
    && (forall s :: |s| < m.slots ==> m.free(s) !in s)
    && (forall x :: |m.hash(x)| == 32)
    && (forall alg, i :: |m.pcr(alg, i)| <= 64)
    && |m.properties| <= 500
  }

  /** There are such machines. */
  lemma SoundExists()
    ensures exists m :: Sound(m) && m.slots > 0
  {
    var m := Machine((_, _) => [], _ => Zeros(32), (_, asked) => asked, 1, _ => 0, [], _ => 0);
    assert Sound(m) && m.slots > 0;
  }

  const RC_FAILURE: u32 := 0x0000_0101

  function Success(payload: seq<u8>): seq<u8> {
    if |payload| < MAX_RESPONSE - 10 then Response(ST_NO_SESSIONS, 0, payload) else Refused()
  }

  function Refused(): seq<u8> {
    Response(ST_NO_SESSIONS, RC_FAILURE, [])
  }

  function Values(pcr: Pcrs, alg: u16, pcrs: seq<int>): (r: seq<seq<u8>>)
    ensures |r| == |pcrs|
    ensures forall i :: 0 <= i < |r| ==> r[i] == pcr(alg, pcrs[i])
  {
    seq(|pcrs|, i requires 0 <= i < |pcrs| => pcr(alg, pcrs[i]))
  }

  /** The registers named, ascending. */
  function Registers(s: set<int>): (r: seq<u8>)
    ensures r == Lists.Listing(s, 24)
  {
    var l := Lists.Listing(s, 24);
    assert forall i :: 0 <= i < |l| ==> l[i] in l;
    l
  }

  function Concat(list: seq<seq<u8>>): seq<u8> {
    if list == [] then [] else list[0] + Concat(list[1..])
  }

  /** A TPML_PCR_SELECTION of one bank and three bytes: the bank and the
      registers whose bit is set. */
  function SelectionIn(b: seq<u8>): Option<(u16, set<int>)> {
    if |b| == 10 && OfU32(b[..4]) == 1 && b[6] == 3 then
      Some((OfU16(b[4..6]), set n: int | 0 <= n < 24 && BitOf(b[7..], n)))
    else None
  }

  // ---- The commands ------------------------------------------------------

  function ExecPcrRead(m: Machine, n: nat, body: seq<u8>): seq<u8> {
    match SelectionIn(body)
    case None => Refused()
    case Some((alg, asked)) =>
      var answered := Registers(m.pick(n, asked));
      if asked == {} || |answered| > 24 then Refused()
      else Success(PcrReadBytes(m.counter(n), alg, Bitmap(Lists.Elements(answered)), Values(m.pcr, alg, answered), []))
  }

  predicate IsStart(body: seq<u8>) {
    && |body| >= 8
    && var nonce := TakeTpm2b(body[8..]);
    && nonce.Ok? && |nonce.value.0| >= 16
    && var salt := TakeTpm2b(nonce.value.1);
    && salt.Ok? && salt.value.1 == [SE_TRIAL] + U16(ALG_NULL) + U16(Sha256.Alg())
  }

  function ExecStart(m: Machine, st: State, body: seq<u8>): (State, seq<u8>) {
    if IsStart(body) && |st| < m.slots then
      var h := m.free(st.Keys);
      (st[h := Zeros(32)], Success(U32(h) + Tpm2b(Zeros(32))))
    else (st, Refused())
  }

  function Extended(m: Machine, digest: seq<u8>, selection: seq<u8>, alg: u16, pcrs: set<int>): seq<u8> {
    m.hash(PolicyInput(digest, selection, m.hash(Concat(Values(m.pcr, alg, Registers(pcrs))))))
  }

  function PolicyInput(digest: seq<u8>, selection: seq<u8>, pcrDigest: seq<u8>): seq<u8> {
    digest + (U32(CC_POLICY_PCR) + (selection + pcrDigest))
  }

  function ExecPolicyPcr(m: Machine, st: State, body: seq<u8>): (State, seq<u8>) {
    if |body| >= 6 && OfU32(body[..4]) in st && OfU16(body[4..6]) == 0 && SelectionIn(body[6..]).Some? then
      var h, (alg, pcrs) := OfU32(body[..4]), SelectionIn(body[6..]).value;
      (st[h := Extended(m, st[h], body[6..], alg, pcrs)], Success([]))
    else (st, Refused())
  }

  function ExecGetDigest(st: State, body: seq<u8>): seq<u8> {
    if |body| == 4 && OfU32(body) in st then Success(Tpm2b(st[OfU32(body)])) else Refused()
  }

  function ExecFlush(st: State, body: seq<u8>): (State, seq<u8>) {
    if |body| == 4 && OfU32(body) in st then (st - {OfU32(body)}, Success([])) else (st, Refused())
  }

  function ExecCapability(m: Machine, body: seq<u8>): seq<u8> {
    if |body| == 12 && OfU32(body[..4]) == CAP_TPM_PROPERTIES && |m.properties| <= 500 then
      Success(PropertyBytes(0, m.properties, []))
    else Refused()
  }

  predicate Framed(cmd: seq<u8>) {
    |cmd| >= 10 && OfU16(cmd[..2]) == ST_NO_SESSIONS && OfU32(cmd[2..6]) == |cmd|
  }

  function Dispatch(m: Machine, st: State, n: nat, cc: u32, body: seq<u8>): (State, seq<u8>) {
    if cc == CC_PCR_READ then (st, ExecPcrRead(m, n, body))
    else if cc == CC_START_AUTH_SESSION then ExecStart(m, st, body)
    else if cc == CC_POLICY_PCR then ExecPolicyPcr(m, st, body)
    else if cc == CC_POLICY_GET_DIGEST then (st, ExecGetDigest(st, body))
    else if cc == CC_FLUSH_CONTEXT then ExecFlush(st, body)
    else if cc == CC_GET_CAPABILITY then (st, ExecCapability(m, body))
    else (st, Refused())
  }

  function Exec(m: Machine, st: State, n: nat, cmd: seq<u8>): (State, seq<u8>) {
    if Framed(cmd) then Dispatch(m, st, n, CodeOf(cmd), cmd[10..]) else (st, Refused())
  }

  function StateAt(m: Machine, init: State, log: Log): State {
    if log == [] then init
    else Exec(m, StateAt(m, init, log[..|log| - 1]), |log|, log[|log| - 1]).0
  }

  function AnswerAt(m: Machine, init: State, log: Log): Reply {
    if log == [] then Lost
    else Got(Exec(m, StateAt(m, init, log[..|log| - 1]), |log|, log[|log| - 1]).1)
  }

  /** The machine as the client meets it. */
  function Conforming(m: Machine, init: State): Device {
    (log: Log) => AnswerAt(m, init, log)
  }

  // ---- What one command brings back --------------------------------------

  lemma CommandFramed(cc: u32, body: seq<u8>)
    requires |body| <= 0xffff
    ensures var cmd := Command(cc, body); Framed(cmd) && CodeOf(cmd) == cc && cmd[10..] == body
  {
    var cmd := Command(cc, body);
    CodeOfCommand(cc, body);
    assert cmd[..2] == U16(ST_NO_SESSIONS) && cmd[2..6] == U32(10 + |body|);
    BigEndian16(ST_NO_SESSIONS, cmd[..2]);
    BigEndian(10 + |body|, cmd[2..6]);
  }

  lemma Answered(m: Machine, init: State, log: Log, cc: u32, body: seq<u8>)
    requires |body| <= 0xffff
    ensures var (st, bytes) := Dispatch(m, StateAt(m, init, log), |log| + 1, cc, body);
      && (|bytes| <= MAX_RESPONSE ==> Payload(Conforming(m, init), Sent(log, cc, body)) == ResponsePayload(bytes))
      && StateAt(m, init, Sent(log, cc, body)) == st
  {
    CommandFramed(cc, body);
    var log' := Sent(log, cc, body);
    assert log'[..|log'| - 1] == log;
  }

  lemma PayloadOfSuccess(payload: seq<u8>)
    requires |payload| < MAX_RESPONSE - 10
    ensures |Success(payload)| == 10 + |payload| && ResponsePayload(Success(payload)) == Ok(payload)
  {
    ResponseReadBack(ST_NO_SESSIONS, 0, payload);
    assert |Response(ST_NO_SESSIONS, 0, payload)| == 10 + |payload|;
  }

  lemma PayloadOfRefused()
    ensures |Refused()| == 10 && ResponsePayload(Refused()) == Err(ResponseCode(RC_FAILURE))
  {
    ResponseReadBack(ST_NO_SESSIONS, RC_FAILURE, []);
  }

  lemma SelectionReadBack(alg: u16, s: set<int>)
    ensures |Selection(alg, s)| == 10
    ensures SelectionIn(Selection(alg, s)) == Some((alg, set n: int | n in s && 0 <= n < 24))
  {
    var b := Selection(alg, s);
    assert b[..4] == U32(1) && b[4..6] == U16(alg) && b[7..] == Bitmap(s);
    BigEndian(1, U32(0));
    BigEndian16(alg, U16(0));
    forall n: int | 0 <= n < 24 ensures BitOf(b[7..], n) <==> n in s {
      BitmapNames(s, n);
    }
    assert (set n: int | 0 <= n < 24 && BitOf(b[7..], n)) == (set n: int | n in s && 0 <= n < 24);
  }

  // ---- Reading registers -------------------------------------------------

  lemma {:induction false} DigestsSize(list: seq<seq<u8>>, rest: seq<u8>)
    requires forall i :: 0 <= i < |list| ==> |list[i]| <= 64
    ensures |Tpm2bs(list, rest)| <= 66 * |list| + |rest|
  {
    if list != [] {
      DigestsSize(list[1..], rest);
    }
  }

  /** The answer to a well-formed PCR_Read naming `asked`, byte for byte: it
      fits the client's buffer and is read back as the registers answered and
      their values. */
  lemma PcrReadAnswered(m: Machine, n: nat, alg: u16, asked: set<int>)
    requires Sound(m) && asked != {} && forall x :: x in asked ==> 0 <= x < 24
    ensures var answered := Registers(m.pick(n, asked));
            var reply := ExecPcrRead(m, n, Selection(alg, asked));
      && Lists.Elements(answered) == m.pick(n, asked)
      && |reply| <= MAX_RESPONSE
      && ResponsePayload(reply).Ok?
      && DecodePcrRead(ResponsePayload(reply).value) == Ok(PcrRead(answered, Values(m.pcr, alg, answered)))
  {
    SelectionReadBack(alg, asked);
    assert asked == set x: int | x in asked && 0 <= x < 24;
    var picked := m.pick(n, asked);
    var answered := Registers(picked);
    Lists.ListingLength(picked, 24);
    assert Lists.Elements(answered) == picked;
    var values := Values(m.pcr, alg, answered);
    DigestsSize(values, []);
    var payload := PcrReadBytes(m.counter(n), alg, Bitmap(picked), values, []);
    PayloadOfSuccess(payload);
    PcrReadReadBack(m.counter(n), alg, Bitmap(picked), values, []);
    SelectionDecodes(picked);
  }

  lemma SelectionDecodes(s: set<int>)
    requires forall x :: x in s ==> 0 <= x < 24
    ensures DecodeSelection(Bitmap(s)) == Ok(Registers(s))
  {
    PickedBitmap(s, 24);
    NoExcess(Lists.Listing(s, 24));
  }

  lemma RoundAnswered(m: Machine, init: State, log: Log, bank: Bank, remaining: seq<u8>)
    requires Sound(m) && remaining != [] && forall x :: x in remaining ==> x <= 23
    ensures var (r, log') := Round(Conforming(m, init), log, bank, remaining);
      && StateAt(m, init, log') == StateAt(m, init, log)
      && r.Ok? && r.value.digests == Values(m.pcr, bank.Alg(), r.value.returned)
  {
    var asked := Lists.Elements(remaining);
    assert remaining[0] in asked;
    var body := Selection(bank.Alg(), asked);
    SelectionReadBack(bank.Alg(), asked);
    Answered(m, init, log, CC_PCR_READ, body);
    PcrReadAnswered(m, |log| + 1, bank.Alg(), asked);
    var picked := m.pick(|log| + 1, asked);
    var read := PcrRead(Registers(picked), Values(m.pcr, bank.Alg(), Registers(picked)));
    PickedUsable(remaining, picked, read);
  }

  lemma PickedUsable(remaining: seq<u8>, picked: set<int>, read: PcrRead)
    requires picked != {} && picked <= Lists.Elements(remaining)
    requires read.returned == Registers(picked) && |read.digests| == |read.returned|
    requires Lists.Elements(read.returned) == picked
    ensures Refusal(remaining, read).None?
  {
    var some :| some in picked;
    assert some in Lists.Elements(read.returned);
    forall x | x in read.returned ensures x in remaining {
      assert x in Lists.Elements(read.returned);
    }
  }

  /** An entry that holds the register's present value. */
  predicate IsTrue(m: Machine, bank: Bank, entry: (u8, seq<u8>)) {
    entry.1 == m.pcr(bank.Alg(), entry.0)
  }

  ghost predicate AllTrue(m: Machine, bank: Bank, out: Reading) {
    forall i :: 0 <= i < |out| ==> IsTrue(m, bank, out[i])
  }

  lemma TrueMore(m: Machine, bank: Bank, out: Reading, read: PcrRead)
    requires AllTrue(m, bank, out)
    requires read.digests == Values(m.pcr, bank.Alg(), read.returned)
    ensures AllTrue(m, bank, out + Zip(read))
  {
    var more := Zip(read);
    forall i | 0 <= i < |out + more| ensures IsTrue(m, bank, (out + more)[i]) {
      if i >= |out| {
        assert (out + more)[i] == more[i - |out|];
      }
    }
  }

  lemma {:induction false} ReadRoundsTrue(
    m: Machine, init: State, log: Log, bank: Bank, remaining: seq<u8>, out: Reading)
    requires Sound(m) && forall x :: x in remaining ==> x <= 23
    requires AllTrue(m, bank, out)
    ensures var (r, log') := ReadRounds(Conforming(m, init), log, bank, remaining, out);
      && StateAt(m, init, log') == StateAt(m, init, log)
      && r.Ok? && AllTrue(m, bank, r.value)
    decreases |remaining|
  {
    if remaining != [] {
      RoundAnswered(m, init, log, bank, remaining);
      var (r, log1) := Round(Conforming(m, init), log, bank, remaining);
      RoundUses(Conforming(m, init), log, bank, remaining);
      TrueMore(m, bank, out, r.value);
      ReadRoundsTrue(m, init, log1, bank, Without(remaining, r.value.returned), out + Zip(r.value));
    }
  }

  /** However few registers the TPM answers for each time, and whatever was
      asked before: reading any registers in 0..=23 yields the true value of
      each, in ascending order, once. */
  lemma ReadPcrsTrue(m: Machine, init: State, log: Log, bank: Bank, indices: seq<u8>)
    requires Sound(m) && forall x :: x in indices ==> x <= 23
    ensures var (r, log') := ReadPcrs(Conforming(m, init), log, bank, indices);
      && StateAt(m, init, log') == StateAt(m, init, log)
      && r.Ok? && Keys(r.value) == SortDedup(indices)
      && forall i :: 0 <= i < |r.value| ==> r.value[i].1 == m.pcr(bank.Alg(), SortDedup(indices)[i])
  {
    ReadRoundsTrue(m, init, log, bank, SortDedup(indices), []);
    ReadPcrsSafe(Conforming(m, init), log, bank, indices);
    var (rounds, _) := ReadRounds(Conforming(m, init), log, bank, SortDedup(indices), []);
    var (r, _) := ReadPcrs(Conforming(m, init), log, bank, indices);
    forall i | 0 <= i < |r.value| ensures IsTrue(m, bank, r.value[i]) && r.value[i].0 == SortDedup(indices)[i] {
      SortedMembers(rounds.value, r.value[i]);
      var k :| 0 <= k < |rounds.value| && rounds.value[k] == r.value[i];
      assert Keys(r.value)[i] == r.value[i].0;
    }
  }

  // ---- The policy --------------------------------------------------------

  function PolicyOf(m: Machine, alg: u16, pcrs: set<int>): seq<u8> {
    Extended(m, Zeros(32), Selection(alg, pcrs), alg, set n: int | n in pcrs && 0 <= n < 24)
  }

  /** In octets: the hash of the session's 32 zeroes, the code of TPM2_PolicyPCR, the
      selection, and the hash of the selected registers in ascending order. */
  lemma PolicyIs(m: Machine, alg: u16, pcrs: set<int>)
    requires forall n :: n in pcrs ==> 0 <= n < 24
    ensures PolicyOf(m, alg, pcrs) ==
      m.hash(Zeros(32) + [0, 0, 0x01, 0x7f] + Selection(alg, pcrs)
        + m.hash(Concat(Values(m.pcr, alg, Registers(pcrs)))))
  {
    assert pcrs == set n: int | n in pcrs && 0 <= n < 24;
    U32Octets(CC_POLICY_PCR);
    var inner := m.hash(Concat(Values(m.pcr, alg, Registers(pcrs))));
    assert PolicyInput(Zeros(32), Selection(alg, pcrs), inner)
        == Zeros(32) + [0, 0, 0x01, 0x7f] + Selection(alg, pcrs) + inner;
  }

  lemma StartIsStart(nonce: seq<u8>)
    requires 16 <= |nonce| < 0x1_0000
    ensures IsStart(StartBodyWith(nonce))
  {
    var tail := [SE_TRIAL] + U16(ALG_NULL) + U16(Sha256.Alg());
    var b := StartBodyWith(nonce);
    assert b[8..] == Tpm2b(nonce) + (Tpm2b([]) + tail);
    TakeWritten(0, nonce, Tpm2b([]) + tail);
    TakeWritten(0, [], tail);
  }

  lemma StartAnswered(m: Machine, init: State, log: Log)
    requires Sound(m)
    ensures var (r, log') := StartSession(Conforming(m, init), log);
      var st := StateAt(m, init, log);
      if |st| < m.slots then
        r == Ok(m.free(st.Keys)) && StateAt(m, init, log') == st[m.free(st.Keys) := Zeros(32)]
      else r == Err(ResponseCode(RC_FAILURE)) && StateAt(m, init, log') == st
  {
    StartIsStart(Zeros(32));
    Answered(m, init, log, CC_START_AUTH_SESSION, StartBody());
    PayloadOfRefused();
    var h := m.free(StateAt(m, init, log).Keys);
    PayloadOfSuccess(U32(h) + Tpm2b(Zeros(32)));
    TakeWritten(h, [], Tpm2b(Zeros(32)));
  }

  lemma PolicyPcrAnswered(m: Machine, init: State, log: Log, session: u32, bank: Bank, pcrs: set<int>)
    requires Sound(m) && session in StateAt(m, init, log)
    ensures var log' := Sent(log, CC_POLICY_PCR, PolicyPcrBody(session, bank, pcrs));
      var st := StateAt(m, init, log);
      && Payload(Conforming(m, init), log').Ok?
      && StateAt(m, init, log') == st[session := Extended(
           m, st[session], Selection(bank.Alg(), pcrs), bank.Alg(), set n: int | n in pcrs && 0 <= n < 24)]
  {
    var body := PolicyPcrBody(session, bank, pcrs);
    SelectionReadBack(bank.Alg(), pcrs);
    assert body[..4] == U32(session) && body[4..6] == U16(0) && body[6..] == Selection(bank.Alg(), pcrs);
    BigEndian(session, U32(0));
    BigEndian16(0, U16(0));
    Answered(m, init, log, CC_POLICY_PCR, body);
    PayloadOfSuccess([]);
  }

  lemma GetDigestAnswered(m: Machine, init: State, log: Log, session: u32)
    requires session in StateAt(m, init, log) && |StateAt(m, init, log)[session]| <= 64
    ensures var log' := Sent(log, CC_POLICY_GET_DIGEST, U32(session));
      && DigestOf(Conforming(m, init), log') == Ok(StateAt(m, init, log)[session])
      && StateAt(m, init, log') == StateAt(m, init, log)
  {
    BigEndian(session, U32(0));
    Answered(m, init, log, CC_POLICY_GET_DIGEST, U32(session));
    var digest := StateAt(m, init, log)[session];
    PayloadOfSuccess(Tpm2b(digest));
    assert Tpm2b(digest) + [] == Tpm2b(digest);
    TakeWritten(0, digest, []);
  }

  lemma FlushAnswered(m: Machine, init: State, log: Log, session: u32)
    requires session in StateAt(m, init, log)
    ensures var log' := Sent(log, CC_FLUSH_CONTEXT, U32(session));
      && Payload(Conforming(m, init), log').Ok?
      && StateAt(m, init, log') == StateAt(m, init, log) - {session}
  {
    BigEndian(session, U32(0));
    Answered(m, init, log, CC_FLUSH_CONTEXT, U32(session));
    PayloadOfSuccess([]);
  }

  lemma OpenedAndFlushed(st: State, h: int, a: seq<u8>, b: seq<u8>)
    requires h !in st
    ensures st[h := a][h := b] - {h} == st
  {
  }

  /** With a slot free, the digest read is the policy over the present values of
      exactly the registers asked for, and the TPM is left as it was; with none
      free the answer is an error, and nothing changes either. */
  lemma PolicyDigestTrue(m: Machine, init: State, log: Log, bank: Bank, indices: seq<u8>)
    requires Sound(m)
    ensures var (r, log') := PolicyDigest(Conforming(m, init), log, bank, indices);
      && StateAt(m, init, log') == StateAt(m, init, log)
      && r == if |StateAt(m, init, log)| < m.slots then Ok(PolicyOf(m, bank.Alg(), Lists.Elements(indices)))
              else Err(ResponseCode(RC_FAILURE))
  {
    var dev, st, pcrs := Conforming(m, init), StateAt(m, init, log), Lists.Elements(indices);
    StartAnswered(m, init, log);
    var (session, log1) := StartSession(dev, log);
    if |st| < m.slots {
      var h := session.value;
      PolicyPcrAnswered(m, init, log1, h, bank, pcrs);
      var log2 := Sent(log1, CC_POLICY_PCR, PolicyPcrBody(h, bank, pcrs));
      GetDigestAnswered(m, init, log2, h);
      var log3 := Sent(log2, CC_POLICY_GET_DIGEST, U32(h));
      FlushAnswered(m, init, log3, h);
      OpenedAndFlushed(st, h, Zeros(32), StateAt(m, init, log3)[h]);
    }
  }

  lemma LockoutTrue(m: Machine, init: State, log: Log)
    requires Sound(m)
    ensures var (r, log') := LockoutAfter(Conforming(m, init), log);
      && StateAt(m, init, log') == StateAt(m, init, log)
      && r == Noted(m.properties).Verdict()
  {
    CapabilityAnswered(m, init, log);
    PropertiesReadBack(0, m.properties, []);
  }

  lemma CapabilityAnswered(m: Machine, init: State, log: Log)
    requires Sound(m)
    ensures var log' := Sent(log, CC_GET_CAPABILITY, LockoutBody());
      && Payload(Conforming(m, init), log') == Ok(PropertyBytes(0, m.properties, []))
      && StateAt(m, init, log') == StateAt(m, init, log)
  {
    var payload := PropertyBytes(0, m.properties, []);
    PropertyPairsSize(m.properties);
    PayloadOfSuccess(payload);
    CapabilityDispatched(m, StateAt(m, init, log), |log| + 1, payload);
    Answered(m, init, log, CC_GET_CAPABILITY, LockoutBody());
  }

  lemma CapabilityDispatched(m: Machine, st: State, n: nat, payload: seq<u8>)
    requires |m.properties| <= 500 && payload == PropertyBytes(0, m.properties, [])
    ensures Dispatch(m, st, n, CC_GET_CAPABILITY, LockoutBody()) == (st, Success(payload))
  {
    LockoutBodyAsks(m, payload);
  }

  lemma LockoutBodyAsks(m: Machine, payload: seq<u8>)
    requires |m.properties| <= 500 && payload == PropertyBytes(0, m.properties, [])
    ensures ExecCapability(m, LockoutBody()) == Success(payload)
  {
    assert LockoutBody()[..4] == U32(CAP_TPM_PROPERTIES);
    BigEndian(CAP_TPM_PROPERTIES, U32(0));
  }

  lemma {:induction false} PropertyPairsSize(list: seq<(u32, u32)>)
    ensures |PropertyPairs(list, [])| == 8 * |list|
  {
    if list != [] {
      PropertyPairsSize(list[1..]);
    }
  }

  // ---- Its sessions ------------------------------------------------------

  function LiveSessions(m: Machine, init: State): Live {
    (log: Log) => StateAt(m, init, log).Keys
  }

  /** It is one of the devices the session results are about. */
  lemma MachineTracks(m: Machine, init: State)
    requires Sound(m)
    ensures TracksSessions(Conforming(m, init), LiveSessions(m, init))
  {
    forall log, cmd ensures TracksCommand(Conforming(m, init), LiveSessions(m, init), log, cmd) {
      MachineTracksCommand(m, init, log, cmd);
    }
  }

  /** And it leaves nothing unsettled: a session it opens is flushed with
      success. */
  lemma ConformingSettles(m: Machine, init: State, log: Log, request: Request)
    requires Sound(m)
    ensures Settled(Conforming(m, init), LiveSessions(m, init), log, request)
  {
    if request.AskPolicy? {
      PolicyDigestTrue(m, init, log, request.bank, request.indices);
      if |StateAt(m, init, log)| < m.slots {
        FlushedLast(m, init, log, request.bank, request.indices);
      } else {
        StartAnswered(m, init, log);
      }
    }
  }

  lemma FlushedLast(m: Machine, init: State, log: Log, bank: Bank, indices: seq<u8>)
    requires Sound(m) && |StateAt(m, init, log)| < m.slots
    ensures Payload(Conforming(m, init), PolicyDigest(Conforming(m, init), log, bank, indices).1).Ok?
  {
    var dev, pcrs := Conforming(m, init), Lists.Elements(indices);
    StartAnswered(m, init, log);
    var (session, log1) := StartSession(dev, log);
    var h := session.value;
    PolicyPcrAnswered(m, init, log1, h, bank, pcrs);
    var log2 := Sent(log1, CC_POLICY_PCR, PolicyPcrBody(h, bank, pcrs));
    GetDigestAnswered(m, init, log2, h);
    FlushAnswered(m, init, Sent(log2, CC_POLICY_GET_DIGEST, U32(h)), h);
  }

  /** So with no condition left but that the TPM conforms: any run of requests,
      however many and whatever they come to, leaves its sessions as they were,
      with at most one more at any time. */
  lemma {:induction false} ConformingRunsLeaveNoSession(m: Machine, init: State, log: Log, requests: seq<Request>)
    requires Sound(m)
    ensures var dev, live := Conforming(m, init), LiveSessions(m, init);
      && live(ServeAll(dev, log, requests)) == live(log)
      && AtMostOneMore(live, live(log), log, ServeAll(dev, log, requests))
  {
    MachineTracks(m, init);
    AllConformingSettled(m, init, log, requests);
    RunsLeaveNoSession(Conforming(m, init), LiveSessions(m, init), log, requests);
  }

  lemma {:induction false} AllConformingSettled(m: Machine, init: State, log: Log, requests: seq<Request>)
    requires Sound(m)
    ensures AllSettled(Conforming(m, init), LiveSessions(m, init), log, requests)
    decreases |requests|
  {
    if requests != [] {
      ConformingSettles(m, init, log, requests[0]);
      AllConformingSettled(m, init, Sessions.Serve(Conforming(m, init), log, requests[0]), requests[1..]);
    }
  }

  lemma ExecutedNext(m: Machine, init: State, log: Log, cmd: seq<u8>)
    ensures var (st, bytes) := Exec(m, StateAt(m, init, log), |log| + 1, cmd);
      && StateAt(m, init, log + [cmd]) == st
      && (|bytes| <= MAX_RESPONSE ==> Payload(Conforming(m, init), log + [cmd]) == ResponsePayload(bytes))
  {
    assert (log + [cmd])[..|log + [cmd]| - 1] == log;
  }

  lemma MachineTracksCommand(m: Machine, init: State, log: Log, cmd: seq<u8>)
    requires Sound(m)
    ensures TracksCommand(Conforming(m, init), LiveSessions(m, init), log, cmd)
  {
    if Framed(cmd) && CodeOf(cmd) == CC_START_AUTH_SESSION {
      StartTracked(m, init, log, cmd);
    } else if Framed(cmd) && CodeOf(cmd) == CC_FLUSH_CONTEXT {
      FlushTracked(m, init, log, cmd);
    } else {
      OtherTracked(m, init, log, cmd);
    }
  }

  lemma FlushTracked(m: Machine, init: State, log: Log, cmd: seq<u8>)
    requires Sound(m) && Framed(cmd) && CodeOf(cmd) == CC_FLUSH_CONTEXT
    ensures TracksCommand(Conforming(m, init), LiveSessions(m, init), log, cmd)
  {
    ExecutedNext(m, init, log, cmd);
    PayloadOfRefused();
    PayloadOfSuccess([]);
    assert |cmd| == 14 ==> cmd[10..] == cmd[10..14];
  }

  lemma OtherTracked(m: Machine, init: State, log: Log, cmd: seq<u8>)
    requires Sound(m)
    requires !(Framed(cmd) && (CodeOf(cmd) == CC_START_AUTH_SESSION || CodeOf(cmd) == CC_FLUSH_CONTEXT))
    ensures TracksCommand(Conforming(m, init), LiveSessions(m, init), log, cmd)
  {
    ExecutedNext(m, init, log, cmd);
    PayloadOfRefused();
    assert StateAt(m, init, log + [cmd]).Keys == StateAt(m, init, log).Keys;
    assert LiveSessions(m, init)(log) <= LiveSessions(m, init)(log + [cmd]) <= LiveSessions(m, init)(log) + {0};
  }

  lemma StartTracked(m: Machine, init: State, log: Log, cmd: seq<u8>)
    requires Sound(m) && Framed(cmd) && CodeOf(cmd) == CC_START_AUTH_SESSION
    ensures TracksCommand(Conforming(m, init), LiveSessions(m, init), log, cmd)
  {
    var st := StateAt(m, init, log);
    ExecutedNext(m, init, log, cmd);
    var (st', reply) := ExecStart(m, st, cmd[10..]);
    StartReply(m, st, cmd[10..]);
    assert Payload(Conforming(m, init), log + [cmd]) == ResponsePayload(reply);
    if st' == st {
      assert LiveSessions(m, init)(log) <= LiveSessions(m, init)(log + [cmd]) <= LiveSessions(m, init)(log) + {0};
    }
  }

  lemma StartReply(m: Machine, st: State, body: seq<u8>)
    requires Sound(m)
    ensures var (st', reply) := ExecStart(m, st, body);
      && |reply| <= MAX_RESPONSE
      && match ResponsePayload(reply)
         case Err(_) => st' == st
         case Ok(payload) =>
           && TakeU32(payload).Ok? && TakeU32(payload).value.0 !in st
           && st'.Keys == st.Keys + {TakeU32(payload).value.0}
  {
    PayloadOfRefused();
    if IsStart(body) && |st| < m.slots {
      var h := m.free(st.Keys);
      PayloadOfSuccess(U32(h) + Tpm2b(Zeros(32)));
      TakeWritten(h, [], Tpm2b(Zeros(32)));
    }
  }

  // ---- What a policy says about the registers ----------------------------

  /** `hash` does not send two different inputs among these to one output. */
  ghost predicate NoCollision(hash: Hash, a: seq<u8>, b: seq<u8>) {
    hash(a) == hash(b) ==> a == b
  }

  lemma {:induction false} ConcatInjective(a: seq<seq<u8>>, b: seq<seq<u8>>)
    requires |a| == |b|
    requires forall i :: 0 <= i < |a| ==> |a[i]| == |b[i]|
    requires Concat(a) == Concat(b)
    ensures a == b
  {
    if a != [] {
      var n := |a[0]|;
      assert Concat(a)[..n] == a[0] && Concat(b)[..n] == b[0];
      assert Concat(a)[n..] == Concat(a[1..]) && Concat(b)[n..] == Concat(b[1..]);
      ConcatInjective(a[1..], b[1..]);
    }
  }

  function Measured(m: Machine, alg: u16, pcrs: set<int>): seq<u8> {
    Concat(Values(m.pcr, alg, Registers(pcrs)))
  }

  function Outer(m: Machine, alg: u16, pcrs: set<int>): seq<u8> {
    PolicyInput(Zeros(32), Selection(alg, pcrs), m.hash(Measured(m, alg, pcrs)))
  }

  /** Two machines hashing alike have the same policy over a selection exactly
      when its registers agree, unless the hash collides on what they hash. */
  lemma PolicySame(m: Machine, m': Machine, alg: u16, pcrs: set<int>)
    requires Sound(m) && Sound(m') && m.hash == m'.hash
    requires forall x :: x in pcrs ==> 0 <= x < 24
    requires forall x :: x in pcrs ==> |m.pcr(alg, x)| == |m'.pcr(alg, x)|
    requires NoCollision(m.hash, Outer(m, alg, pcrs), Outer(m', alg, pcrs))
    requires NoCollision(m.hash, Measured(m, alg, pcrs), Measured(m', alg, pcrs))
    ensures PolicyOf(m, alg, pcrs) == PolicyOf(m', alg, pcrs) <==>
      forall x :: x in pcrs ==> m.pcr(alg, x) == m'.pcr(alg, x)
  {
    assert pcrs == set n: int | n in pcrs && 0 <= n < 24;
    var r := Registers(pcrs);
    var a, b := Values(m.pcr, alg, r), Values(m'.pcr, alg, r);
    if PolicyOf(m, alg, pcrs) == PolicyOf(m', alg, pcrs) {
      OuterDetermines(Zeros(32), Selection(alg, pcrs), m.hash(Concat(a)), m.hash(Concat(b)));
      forall i | 0 <= i < |r| ensures |a[i]| == |b[i]| {
        assert r[i] in r;
      }
      ConcatInjective(a, b);
      forall x | x in pcrs ensures m.pcr(alg, x) == m'.pcr(alg, x) {
        assert x in r;
        var i :| 0 <= i < |r| && r[i] == x;
        assert a[i] == b[i];
      }
    }
    if forall x :: x in pcrs ==> m.pcr(alg, x) == m'.pcr(alg, x) {
      forall i | 0 <= i < |r| ensures a[i] == b[i] {
        assert r[i] in r;
      }
      assert a == b;
    }
  }

  lemma OuterDetermines(digest: seq<u8>, selection: seq<u8>, x: seq<u8>, y: seq<u8>)
    requires PolicyInput(digest, selection, x) == PolicyInput(digest, selection, y)
    ensures x == y
  {
    var n := |digest| + 4 + |selection|;
    assert PolicyInput(digest, selection, x)[n..] == x && PolicyInput(digest, selection, y)[n..] == y;
  }
}
