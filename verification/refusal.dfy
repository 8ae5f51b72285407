/** A device that does not conform. */
module HollowTpm {
  import opened Prelude
  import opened Wire
  import opened Tpm2
  import opened TpmClient
  import opened TpmMachine
  import opened Token
  import opened Preflight
  import Lists
  import Sessions

  /** A TPM that accepts everything and has no digest to show for it. */
  function HollowPayload(cc: u32): seq<u8> {
    if cc == CC_GET_CAPABILITY then PropertyBytes(0, Calm(), [])
    else if cc == CC_START_AUTH_SESSION then U32(0)
    else if cc == CC_POLICY_GET_DIGEST then Tpm2b([])
    else []
  }

  function Calm(): seq<(u32, u32)> {
    [(PT_PERMANENT, 0), (PT_LOCKOUT_COUNTER, 0), (PT_MAX_AUTH_FAIL, 32)]
  }

  function Hollow(log: Log): Reply {
    if log == [] then Lost else Got(Success(HollowPayload(Sessions.CodeOf(log[|log| - 1]))))
  }

  lemma HollowAnswers(log: Log, cc: u32, body: seq<u8>)
    ensures Payload(Hollow, Sent(log, cc, body)) == Ok(HollowPayload(cc))
  {
    Sessions.CodeOfCommand(cc, body);
    PropertyPairsSize(Calm());
    PayloadOfSuccess(HollowPayload(cc));
  }

  lemma LastOf(list: seq<(u32, u32)>, entry: (u32, u32), property: u32)
    ensures LastValue(list + [entry], property) ==
      if entry.0 == property then Some(entry.1) else LastValue(list, property)
  {
    var more := list + [entry];
    assert more[|more| - 1] == entry && more[..|more| - 1] == list;
  }

  lemma CalmValue(property: u32)
    ensures LastValue(Calm(), property) ==
      if property == PT_MAX_AUTH_FAIL then Some(32)
      else if property == PT_LOCKOUT_COUNTER || property == PT_PERMANENT then Some(0)
      else None
  {
    var one, two := [(PT_PERMANENT, 0)], [(PT_PERMANENT, 0), (PT_LOCKOUT_COUNTER, 0)];
    assert Calm() == two + [(PT_MAX_AUTH_FAIL, 32)] && two == one + [(PT_LOCKOUT_COUNTER, 0)];
    assert one == [] + [(PT_PERMANENT, 0)];
    LastOf(two, (PT_MAX_AUTH_FAIL, 32), property);
    LastOf(one, (PT_LOCKOUT_COUNTER, 0), property);
    LastOf([], (PT_PERMANENT, 0), property);
  }

  lemma CalmVerdict()
    ensures Noted(Calm()).Verdict().Ok? && !Noted(Calm()).Verdict().value.inLockout
  {
    CalmValue(PT_PERMANENT);
    CalmValue(PT_LOCKOUT_COUNTER);
    CalmValue(PT_MAX_AUTH_FAIL);
    assert Noted(Calm()) == Properties(Some(0), Some(0), Some(32));
  }

  lemma HollowLockout(log: Log)
    ensures LockoutAfter(Hollow, log).0.Ok? && !LockoutAfter(Hollow, log).0.value.inLockout
  {
    HollowAnswers(log, CC_GET_CAPABILITY, LockoutBody());
    PropertiesReadBack(0, Calm(), []);
    CalmVerdict();
  }

  lemma HollowPolicy(log: Log, bank: Bank, indices: seq<u8>)
    ensures PolicyDigest(Hollow, log, bank, indices).0 == Ok([])
  {
    HollowAnswers(log, CC_START_AUTH_SESSION, StartBody());
    TakeWritten(0, [], []);
    assert U32(0) + [] == U32(0) && Tpm2b([]) + [] == Tpm2b([]);
    var (session, log1) := StartSession(Hollow, log);
    var body := PolicyPcrBody(session.value, bank, Lists.Elements(indices));
    HollowAnswers(log1, CC_POLICY_PCR, body);
    HollowAnswers(Sent(log1, CC_POLICY_PCR, body), CC_POLICY_GET_DIGEST, U32(session.value));
  }

  predicate PlainFor(token: Tpm2Token, config: Volume) {
    !token.pin && token.advanced.None? && SameSelection(token, config) && config.pcrs != []
  }

  /** A device that reports an empty digest makes the preflight plan a repair
      whose state is empty, for any plain token that matches. */
  lemma EmptyStateArises(token: Tpm2Token, files: set<string>, config: Volume)
    requires PlainFor(token, config) && token.policyHash != []
    requires forall p :: p in POLICY_FILES ==> p !in files
    ensures Check(Hollow, [], Ok([token]), files, config).0 == Reenroll(Plan(token.index, token.policyHash, []))
  {
    HollowLockout([]);
    HollowPolicy(LockoutAfter(Hollow, []).1, config.bank, config.pcrs);
    ReenrollExactly(Hollow, [], Ok([token]), files, config, Plan(token.index, token.policyHash, []));
  }

  /** A conforming TPM never does. */
  lemma ConformingStateNotEmpty(
    m: Machine, init: State, header: Result<seq<Tpm2Token>, TokenError>, files: set<string>, config: Volume, plan: Plan)
    requires Sound(m) && Check(Conforming(m, init), [], header, files, config).0 == Reenroll(plan)
    ensures |plan.state| == 32
  {
    ReenrollExactly(Conforming(m, init), [], header, files, config, plan);
    PolicyDigestTrue(m, init, LockoutAfter(Conforming(m, init), []).1, config.bank, config.pcrs);
  }
}

/** Exactly when a person is asked about a planned repair, in every run. */
module Asking {
  import opened Prelude
  import opened Preflight
  import opened Consent
  import opened History
  import opened Law
  import opened Runs

  /** Everything up to the connection being handled. */
  function Prior(past: Trace): Trace {
    if past == [] || Last(past).Contact? then past else Prior(Init(past))
  }

  lemma {:induction false} PriorAndCurrent(past: Trace)
    ensures past == Prior(past) + Current(past)
  {
    if past != [] && !Last(past).Contact? {
      PriorAndCurrent(Init(past));
      assert past == Init(past) + [Last(past)];
    }
  }

  lemma {:induction false} PriorSame(tr: Trace, k: nat, i: nat)
    requires SameConnection(tr, k, i)
    ensures Prior(tr[..k]) == Prior(tr[..i])
    decreases i
  {
    assert Init(tr[..i]) == tr[..i - 1];
    if k < i - 1 {
      PriorSame(tr, k, i - 1);
    }
  }

  lemma SaidOr(past: Trace, state: seq<u8>, answer: Answer)
    ensures Said(past, state, answer) <==> Said(Prior(past), state, answer) || Asked(state, answer) in Current(past)
  {
    PriorAndCurrent(past);
  }

  /** What was said before the connection was said before any step of it. */
  lemma SaidStill(tr: Trace, k: nat, i: nat, state: seq<u8>, answer: Answer)
    requires SameConnection(tr, k, i) && Said(Prior(tr[..i]), state, answer)
    ensures Said(tr[..k], state, answer)
  {
    PriorSame(tr, k, i);
    SaidOr(tr[..k], state, answer);
  }

  lemma CurrentGrows(tr: Trace, k: nat, i: nat, e: Event)
    requires SameConnection(tr, k, i) && e in Current(tr[..k])
    ensures e in Current(tr[..i])
  {
    var n := CurrentSince(tr, k, e);
    StillCurrent(tr, n, i);
  }

  /** One preflight a connection. */
  lemma OneJudged(env: Env, tr: Trace, i: nat, a: Event, b: Event)
    requires Lawful(env, tr) && i <= |tr| && a in Current(tr[..i]) && b in Current(tr[..i])
    requires a.Judged? && b.Judged?
    ensures a == b
  {
    var k := CurrentSince(tr, i, a);
    var n := CurrentSince(tr, i, b);
    if k < n {
      JudgedOnce(env, tr, k, n);
    } else if n < k {
      JudgedOnce(env, tr, n, k);
    }
  }

  lemma JudgedOnce(env: Env, tr: Trace, k: nat, n: nat)
    requires Lawful(env, tr) && n < |tr| && SameConnection(tr, k, n)
    requires tr[k].Judged?
    ensures !tr[n].Judged?
  {
    LawfulAt(env, tr, n);
    StillCurrent(tr, k, n);
  }

  /** Whatever a connection's person was asked about, or its header enrolled
      for, is what its preflight planned. */
  lemma PlanIs(env: Env, tr: Trace, k: nat, i: nat, volume: Volume, disk: Disk, state: seq<u8>, judged: Event)
    requires Lawful(env, tr) && i <= |tr| && SameConnection(tr, k, i)
    requires judged in Current(tr[..i]) && judged.Judged?
    requires Planned(tr[..k], volume, disk, state)
    ensures judged.decision.Reenroll? && judged.decision.plan.state == state
  {
    var e :| PlannedBy(tr[..k], volume, disk, e) && e.decision.plan.state == state;
    CurrentGrows(tr, k, i, e);
    OneJudged(env, tr, i, e, judged);
  }

  lemma AskedAbout(env: Env, tr: Trace, k: nat, i: nat, judged: Event)
    requires Lawful(env, tr) && i <= |tr| && SameConnection(tr, k, i) && tr[k].Asked?
    requires judged in Current(tr[..i]) && judged.Judged?
    ensures judged.decision.Reenroll? && judged.decision.plan.state == tr[k].state
    ensures !Said(tr[..k], tr[k].state, Always) && (tr[k].state != [] ==> !Said(tr[..k], tr[k].state, No))
  {
    LawfulAt(env, tr, k);
    var volume, disk :| Planned(tr[..k], volume, disk, tr[k].state);
    PlanIs(env, tr, k, i, volume, disk, tr[k].state, judged);
  }

  /** An enrollment on this connection was agreed to on it, unless it was for
      good before it. */
  lemma EnrolledAsked(env: Env, tr: Trace, k: nat, i: nat, judged: Event)
    requires Lawful(env, tr) && i <= |tr| && SameConnection(tr, k, i) && tr[k].Enrolling?
    requires judged in Current(tr[..i]) && judged.Judged?
    requires judged.decision.Reenroll? && !Said(Prior(tr[..i]), judged.decision.plan.state, Always)
    ensures AskedOn(tr[..i], judged.decision.plan.state)
  {
    LawfulAt(env, tr, k);
    var volume :| Planned(tr[..k], volume, tr[k].disk, tr[k].state);
    var state := tr[k].state;
    PlanIs(env, tr, k, i, volume, tr[k].disk, state, judged);
    PriorSame(tr, k, i);
    SaidOr(tr[..k], state, Always);
    if Asked(state, Yes) in Current(tr[..k]) {
      CurrentGrows(tr, k, i, Asked(state, Yes));
    } else {
      CurrentGrows(tr, k, i, Asked(state, Always));
    }
  }

  ghost predicate AskedOn(past: Trace, state: seq<u8>) {
    exists answer :: Asked(state, answer) in Current(past)
  }

  /** The answers so far settle the question. */
  ghost predicate Closed(past: Trace, state: seq<u8>) {
    (state != [] && Said(past, state, No)) || Said(past, state, Always)
  }

  lemma NotAskedIfClosed(env: Env, tr: Trace, i: nat, judged: Event)
    requires Lawful(env, tr) && i <= |tr| && judged in Current(tr[..i]) && judged.Judged? && judged.decision.Reenroll?
    requires AskedOn(tr[..i], judged.decision.plan.state)
    ensures !Closed(Prior(tr[..i]), judged.decision.plan.state)
  {
    var state := judged.decision.plan.state;
    var answer :| Asked(state, answer) in Current(tr[..i]);
    var k := CurrentSince(tr, i, Asked(state, answer));
    AskedAbout(env, tr, k, i, judged);
    if state != [] && Said(Prior(tr[..i]), state, No) {
      SaidStill(tr, k, i, state, No);
    } else if Said(Prior(tr[..i]), state, Always) {
      SaidStill(tr, k, i, state, Always);
    }
  }

  /** How the question of a repair was concluded on a connection that was
      answered without a request to stop. */
  lemma ConcludedBy(env: Env, tr: Trace, i: nat, judged: Event) returns (e: Event)
    requires Lawful(env, tr) && i < |tr| && tr[i].Sent? && Polled(true) !in Current(tr[..i])
    requires judged in Current(tr[..i]) && judged.Judged? && judged.decision.Reenroll?
    ensures e in Current(tr[..i])
    ensures OnceRefused(tr[..i], e) || (e.Asked? && e.answer == No) || e.Enrolling? || e.Verified?
  {
    LawfulAt(env, tr, i);
    var past := tr[..i];
    var volume :| Considered(env, past, volume);
    if e' :| e' in Current(past) && e'.Judged? && e'.decision.Leave? {
      OneJudged(env, tr, i, e', judged);
    }
    if e' :| e' in Current(past) && OnceRefused(past, e') {
      e := e';
    } else if state :| Asked(state, No) in Current(past) {
      e := Asked(state, No);
    } else if e' :| e' in Current(past) && e'.Enrolling? {
      e := e';
    } else {
      var outcome :| Verified(outcome) in Current(past);
      e := Verified(outcome);
    }
  }

  lemma VerifiedEnrolled(env: Env, tr: Trace, k: nat, i: nat)
    requires Lawful(env, tr) && i <= |tr| && SameConnection(tr, k, i) && tr[k].Verified?
    ensures k > 0 && tr[k - 1].Enrolling? && SameConnection(tr, k - 1, i)
  {
    OrderAt(env, tr, k);
    assert Last(tr[..k]) == tr[k - 1];
  }

  lemma AskedIfOpen(env: Env, tr: Trace, i: nat, judged: Event)
    requires Lawful(env, tr) && i < |tr| && tr[i].Sent? && Polled(true) !in Current(tr[..i])
    requires judged in Current(tr[..i]) && judged.Judged? && judged.decision.Reenroll?
    requires !Closed(Prior(tr[..i]), judged.decision.plan.state)
    ensures AskedOn(tr[..i], judged.decision.plan.state)
  {
    var state := judged.decision.plan.state;
    var e := ConcludedBy(env, tr, i, judged);
    var k := CurrentSince(tr, i, e);
    if e.Judged? {
      OneJudged(env, tr, i, e, judged);
      SaidOr(tr[..i], state, No);
    } else if e.Asked? {
      AskedAbout(env, tr, k, i, judged);
    } else if e.Enrolling? {
      EnrolledAsked(env, tr, k, i, judged);
    } else {
      VerifiedEnrolled(env, tr, k, i);
      EnrolledAsked(env, tr, k - 1, i, judged);
    }
  }

  /** In every run, on every connection that is answered without a request to
      stop and whose preflight plans a repair: the person is asked about it
      exactly when neither an earlier "always" nor, for a state that is not
      empty, an earlier refusal settles the question. */
  lemma AskedExactly(env: Env, tr: Trace, i: nat, judged: Event)
    requires Lawful(env, tr) && i < |tr| && tr[i].Sent? && Polled(true) !in Current(tr[..i])
    requires judged in Current(tr[..i]) && judged.Judged? && judged.decision.Reenroll?
    ensures var state := judged.decision.plan.state;
      AskedOn(tr[..i], state) <==> !Closed(Prior(tr[..i]), state)
  {
    if AskedOn(tr[..i], judged.decision.plan.state) {
      NotAskedIfClosed(env, tr, i, judged);
    } else if !Closed(Prior(tr[..i]), judged.decision.plan.state) {
      AskedIfOpen(env, tr, i, judged);
    }
  }
}

/** Exactly when a refusal holds for the rest of a run: a world in which one for
    the empty state does not, and the equivalence. */
module Refusal {
  import opened Prelude
  import opened Tpm2
  import opened TpmClient
  import opened Token
  import opened Preflight
  import opened AskPw
  import opened Consent
  import opened History
  import opened Law
  import opened Runs
  import opened Daemon
  import opened HollowTpm
  import BindName
  import Hex
  import Json
  import Lists
  import Peer
  import Repair
  import Selections

  // ---- The world ---------------------------------------------------------

  const SECRET: Secret := [0x78]

  function Root(): Volume {
    Volume([0x72], "/dev/sda2", "/dev/tpmrm0", SortDedup([7]), Sha256)
  }

  function Home(): Volume {
    Volume([0x68], "/dev/sda3", "/dev/tpmrm0", SortDedup([7]), Sha256)
  }

  function DiskAt(path: string): Disk {
    if path == Root().device then 0 else 1
  }

  function DiskOf(volume: Volume): Disk {
    DiskAt(volume.device)
  }

  /** A plain-phase connection from the volume's own unit. */
  function Knock(volume: Volume): Event {
    Contact(
      volume, Some([0x61] + (BindName.Table()[0].bytes + volume.name)),
      Some(Process(true, Peer.UNIFIED + "" + "/" + Peer.UnitOf(volume.name), true, true)))
  }

  function Written(): Json.Value {
    Json.Object([
      ("type", Json.String("systemd-tpm2")),
      ("tpm2-pcrs", Json.Array([Json.Number(7)])),
      ("tpm2-pcr-bank", Json.String("sha256")),
      ("tpm2-policy-hash", Json.String("00"))])
  }

  function HeaderWith(key: string, token: Json.Value): Json.Value {
    Json.Object([("tokens", Json.Object([(key, token)]))])
  }

  /** Two volumes whose sockets are always ready and always deliver a
      connection from the volume's own unit; one passphrase that opens both;
      headers with a plain token for the configured selection; a hollow TPM; and
      a person who always refuses. */
  function World(header: Json.Value): Env {
    Env(
      [Root(), Home()],
      None,
      n => 0,
      (n, name) => false,
      n => Ready(i => true),
      (n, i) => var volume := if i == 0 then Root() else Home(); Connection(Knock(volume).name, Knock(volume).process),
      (n, path) => Some(DiskAt(path)),
      (n, disk, secret) => Correct,
      (n, attempt) => Some(SECRET),
      (n, path) => Some(Hollow),
      (n, disk) => Some(header),
      n => {},
      n => None,
      (n, disk) => false,
      (n, disk) => (index => false),
      (n, k, buf) => Failed)
  }

  lemma WrittenKnown(e: (string, Json.Value))
    requires e in Written().entries
    ensures e.0 in KNOWN_KEYS
  {
    assert KNOWN_KEYS[0] == "type" && KNOWN_KEYS[3] == "tpm2-pcrs";
    assert KNOWN_KEYS[4] == "tpm2-pcr-bank" && KNOWN_KEYS[6] == "tpm2-policy-hash";
  }

  lemma WrittenFields()
    ensures Written().Get("type") == Some(Json.String("systemd-tpm2"))
    ensures Written().Get("tpm2-pcrs") == Some(Json.Array([Json.Number(7)]))
    ensures Written().Get("tpm2-pcr-bank") == Some(Json.String("sha256"))
    ensures Written().Get("tpm2-policy-hash") == Some(Json.String("00"))
  {
    Json.LookupAt(Written().entries, "type", 0);
    Json.LookupAt(Written().entries, "tpm2-pcrs", 1);
    Json.LookupAt(Written().entries, "tpm2-pcr-bank", 2);
    Json.LookupAt(Written().entries, "tpm2-policy-hash", 3);
  }

  lemma WrittenAbsent(key: string)
    requires key in {"tpm2-pin", "tpm2_salt", "tpm2_pubkey", "tpm2_pubkey_pcrs", "tpm2_pcrlock", "tpm2_pcrlock_nv"}
    ensures Written().Get(key) == None
  {
    Json.LookupNone(Written().entries, key);
  }

  lemma Seven()
    ensures Selections.Numbers([Json.Number(7)]).Ok?
    ensures Selections.Named([Json.Number(7)]) == Lists.Elements([7])
  {
    assert [Json.Number(7)][1..] == [];
    assert Selections.Numbers([Json.Number(7)][1..]) == Ok([]);
    Selections.NumbersNamed([Json.Number(7)]);
  }

  lemma WrittenIsPlain()
    ensures Repair.WrittenFor(Written(), [7], Sha256, [0])
  {
    WrittenFields();
    forall e | e in Written().entries ensures e.0 in KNOWN_KEYS {
      WrittenKnown(e);
    }
    Seven();
    ZeroSpelled();
    assert Repair.HashWritten(Written(), "00");
    WrittenAbsent("tpm2-pin");
    WrittenAbsent("tpm2_salt");
    WrittenAbsent("tpm2_pubkey");
    WrittenAbsent("tpm2_pubkey_pcrs");
    WrittenAbsent("tpm2_pcrlock");
    WrittenAbsent("tpm2_pcrlock_nv");
  }

  lemma ZeroSpelled()
    ensures Hex.LowerAll("00") == Hex.Hex([0])
  {
    var zero: seq<u8> := [0];
    assert "00"[1..] == "0" && "0"[1..] == "" && zero[1..] == [];
    assert Hex.LowerAll("0") == "0";
  }

  function Sealed(index: u32): Tpm2Token {
    Repair.Plain(index, SortDedup([7]), Sha256, [0])
  }

  ghost predicate Reads(header: Json.Value) {
    exists index :: TokensRead(Some(header)) == Ok([Sealed(index)])
  }

  lemma OneEntry(key: string, token: Json.Value)
    ensures TokenEntries(HeaderWith(key, token)) == [(key, token)]
  {
    var header := HeaderWith(key, token);
    assert Json.Lookup(header.entries, "tokens") == Some(Json.Object([(key, token)]));
  }

  lemma OneEntryEnrolled(key: string, token: Json.Value, pcrs: seq<u8>, bank: Bank, policy: seq<u8>)
    requires ParseU32(key) == Some(1) && Repair.WrittenFor(token, pcrs, bank, policy)
    ensures Repair.Enrolled(HeaderWith(key, token), 0, pcrs, bank, policy)
  {
    OneEntry(key, token);
    var entries := TokenEntries(HeaderWith(key, token));
    assert entries[0].0 == key && entries[0].1 == token;
  }

  lemma EnrolledReads(header: Json.Value)
    requires Repair.Enrolled(header, 0, [7], Sha256, [0])
    ensures Reads(header)
  {
    Repair.EnrolledReadBack(header, 0, [7], Sha256, [0]);
    var index: u32 :| Tokens(header) == Ok([Repair.Plain(index, SortDedup([7]), Sha256, [0])]);
    assert Sealed(index) == Repair.Plain(index, SortDedup([7]), Sha256, [0]);
  }

  /** There is such a header. */
  lemma HeaderExists()
    ensures exists header :: Reads(header)
  {
    assert "1"[..0] == "";
    assert Decimal("1") == Some(1);
    WrittenIsPlain();
    OneEntryEnrolled("1", Written(), [7], Sha256, [0]);
    EnrolledReads(HeaderWith("1", Written()));
  }

  lemma SealedMatches(index: u32, volume: Volume)
    requires volume.pcrs == SortDedup([7]) && volume.bank == Sha256
    ensures PlainFor(Sealed(index), volume)
  {
    var seven: seq<u8> := [7];
    assert 7 in seven && 7 in SortDedup(seven);
  }

  /** The preflight plans a repair for the empty state. */
  lemma WorldJudges(header: Json.Value, volume: Volume) returns (plan: Plan)
    requires Reads(header) && volume.pcrs == SortDedup([7]) && volume.bank == Sha256
    ensures Check(Hollow, [], TokensRead(Some(header)), {}, volume).0 == Reenroll(plan) && plan.state == []
  {
    var index :| TokensRead(Some(header)) == Ok([Sealed(index)]);
    SealedMatches(index, volume);
    EmptyStateArises(Sealed(index), {}, volume);
    plan := Plan(index, [0], []);
  }

  lemma KnockGranted(volume: Volume)
    requires volume.name != []
    ensures Granted(Knock(volume))
  {
    var random: seq<u8> := [0x61];
    assert BindName.IsRandom(random);
    BindName.ParsesExactly(Knock(volume).name.value, BindName.Table()[0], volume.name);
    Peer.OwnUnitAccepted("", volume.name);
  }

  // ---- The run -----------------------------------------------------------

  /** The preflight of the volume plans a repair for the empty state. */
  ghost predicate JudgedHollow(env: Env, n: nat, volume: Volume, plan: Plan) {
    var found := env.tpm(n, volume.tpm2Device);
    && found.Some? && plan.state == []
    && Check(found.value, [], TokensRead(env.header(n, DiskOf(volume))), env.files(n), volume).0 == Reenroll(plan)
  }

  ghost predicate HollowAt(env: Env, n: nat, volume: Volume) {
    exists plan :: JudgedHollow(env, n, volume, plan)
  }

  ghost predicate AlwaysHollow(env: Env) {
    forall n: nat, volume :: volume in env.listeners ==> HollowAt(env, n, volume)
  }

  ghost predicate KnocksAt(env: Env, n: nat, i: nat)
    requires i < |env.listeners|
  {
    var volume := env.listeners[i];
    volume.name != [] && env.accept(n, i) == Connection(Knock(volume).name, Knock(volume).process)
  }

  /** Every socket has connections from its own unit, nobody asks the daemon to
      stop, the passphrase is right, and every question is answered with a
      refusal. */
  ghost predicate Stubborn(env: Env) {
    && (forall n: nat, i: nat :: i < |env.listeners| ==> KnocksAt(env, n, i))
    && env.signal == None
    && (forall n, path :: env.open(n, path) == Some(DiskAt(path)))
    && (forall n, disk, secret :: env.verdict(n, disk, secret) == Correct)
    && (forall n, attempt :: env.prompt(n, attempt) == Some(SECRET))
    && (forall n :: env.answer(n) == None)
    && AlwaysHollow(env)
  }

  /** Between connections, before anything was answered "always". */
  ghost predicate Resting(env: Env, tr: Trace, known: seq<Secret>) {
    && Stubborn(env) && Lawful(env, tr) && !Unverified(tr) && !Owes(tr) && Answered(tr)
    && Learned(tr) == known && !Said(tr, [], Always)
  }

  ghost predicate JustOpened(env: Env, volume: Volume, tr: Trace, known: seq<Secret>) {
    && Stubborn(env) && volume in env.listeners && Seeking(env, tr, DiskOf(volume)) && For(tr, volume)
    && Current(tr) == [Opened(Some(DiskOf(volume)))]
    && Learned(tr) == known && !Said(tr, [], Always)
  }

  lemma Looked(env: Env, tr: Trace)
    requires Stubborn(env) && Lawful(env, tr) && !Unverified(tr)
    ensures var later := tr + [Polled(false)];
      && Onward(env, tr, later) && Current(later) == Current(tr) + [Polled(false)]
      && Learned(later) == Learned(tr) && Cleared(later) && !Unverified(later)
      && forall answer :: Said(later, [], answer) <==> Said(tr, [], answer)
  {
    Recorded(env, tr, Polled(false));
    LearnedMore(tr, Polled(false));
    SaidKept(tr, false, []);
  }

  lemma Deliverable(env: Env, volume: Volume, tr: Trace)
    requires Stubborn(env) && volume in env.listeners
    ensures MayAccept(env, tr, volume, Knock(volume).name, Knock(volume).process) && volume.name != []
  {
    var i: nat :| i < |env.listeners| && env.listeners[i] == volume;
    assert KnocksAt(env, |tr|, i);
  }

  lemma Welcomed(env: Env, volume: Volume, tr: Trace, known: seq<Secret>) returns (later: Trace)
    requires Resting(env, tr, known) && volume in env.listeners
    ensures tr <= later && Lawful(env, later) && Serving(later) == Some(Knock(volume)) && Current(later) == []
    ensures Learned(later) == known && !Said(later, [], Always) && !Unverified(later)
    ensures volume.name != []
  {
    Looked(env, tr);
    LookedAround(tr, false);
    Deliverable(env, volume, tr + [Polled(false)]);
    AcceptedContact(env, Knock(volume), tr + [Polled(false)]);
    later := tr + [Polled(false)] + [Knock(volume)];
  }

  lemma KnockFor(volume: Volume, tr: Trace)
    requires Serving(tr) == Some(Knock(volume)) && volume.name != []
    ensures For(tr, volume)
  {
    KnockGranted(volume);
  }

  lemma MayBegin(env: Env, volume: Volume, tr: Trace)
    requires Stubborn(env) && For(tr, volume) && Current(tr) == [] && !Unverified(tr)
    ensures Permitted(env, tr, Opened(Some(DiskOf(volume))))
  {
    assert env.open(|tr|, volume.device) == Some(DiskOf(volume));
    assert MayOpen(env, tr, Some(DiskOf(volume)));
    OpenPermitted(env, tr, Some(DiskOf(volume)));
  }

  lemma Begun(env: Env, volume: Volume, tr: Trace, known: seq<Secret>) returns (later: Trace)
    requires Resting(env, tr, known) && volume in env.listeners
    ensures tr <= later && JustOpened(env, volume, later, known)
  {
    var accepted := Welcomed(env, volume, tr, known);
    KnockFor(volume, accepted);
    BeginNow(env, volume, accepted);
    later := accepted + [Opened(Some(DiskOf(volume)))];
  }

  lemma OpenedNow(env: Env, volume: Volume, tr: Trace)
    requires Stubborn(env) && Lawful(env, tr) && For(tr, volume) && Current(tr) == [] && !Unverified(tr)
    ensures var later := tr + [Opened(Some(DiskOf(volume)))];
      && Onward(env, tr, later) && Current(later) == [Opened(Some(DiskOf(volume)))] && Learned(later) == Learned(tr)
  {
    MayBegin(env, volume, tr);
    Recorded(env, tr, Opened(Some(DiskOf(volume))));
    LearnedMore(tr, Opened(Some(DiskOf(volume))));
  }

  lemma BeginNow(env: Env, volume: Volume, tr: Trace)
    requires Stubborn(env) && volume in env.listeners
    requires Lawful(env, tr) && For(tr, volume) && Current(tr) == [] && !Unverified(tr)
    requires !Said(tr, [], Always)
    ensures JustOpened(env, volume, tr + [Opened(Some(DiskOf(volume)))], Learned(tr))
  {
    OpenedNow(env, volume, tr);
    NothingTriedYet(Some(DiskOf(volume)));
  }

  /** The passphrase is in hand, and no step towards a repair was taken. */
  ghost predicate Holding(env: Env, volume: Volume, tr: Trace) {
    && Stubborn(env) && volume in env.listeners && InHand(env, tr, volume, DiskOf(volume), SECRET)
    && !SentAlready(tr) && Untouched(tr)
    && Learned(tr) == [SECRET] && !Said(tr, [], Always)
  }

  lemma FoundNow(env: Env, volume: Volume, tr: Trace) returns (later: Trace)
    requires Stubborn(env) && volume in env.listeners
    requires Seeking(env, tr, DiskOf(volume)) && For(tr, volume) && !Said(tr, [], Always)
    requires Learned(tr) == [] || Learned(tr) == [SECRET]
    requires Tried(Current(tr)) + [SECRET] <= Learned(tr) + Offered(Current(tr))
    ensures tr <= later && Holding(env, volume, later)
  {
    Looked(env, tr);
    var asked, e := tr + [Polled(false)], Checked(DiskOf(volume), SECRET, Correct);
    StillSeeking(Current(tr), false);
    assert MayCheck(env, asked, DiskOf(volume), SECRET, Correct);
    CheckPermitted(env, asked, DiskOf(volume), SECRET, Correct);
    Recorded(env, asked, e);
    LearnedMore(asked, e);
    later := asked + [e];
    FoundInHand(env, tr, later, volume, DiskOf(volume), SECRET);
  }

  lemma SecretTyped()
    ensures Typed(Some(SECRET)) == [SECRET]
  {
    assert Joined([SECRET]) == SECRET;
    CandidatesOffered([SECRET]);
  }

  lemma MayTypeNow(env: Env, volume: Volume, tr: Trace)
    requires JustOpened(env, volume, tr, []) && Cleared(tr + [Polled(false)])
    requires Current(tr + [Polled(false)]) == Current(tr) + [Polled(false)] && Learned(tr + [Polled(false)]) == []
    ensures Permitted(env, tr + [Polled(false)], Prompted(First, [SECRET]))
    ensures Tried(Current(tr)) == [] && Offered(Current(tr)) == []
  {
    NothingTriedYet(Some(DiskOf(volume)));
    StillSeeking(Current(tr), false);
    SecretTyped();
    assert MayPrompt(env, tr + [Polled(false)], First, [SECRET]);
    PromptPermitted(env, tr + [Polled(false)], First, [SECRET]);
  }

  lemma PromptedNow(env: Env, volume: Volume, tr: Trace) returns (later: Trace)
    requires JustOpened(env, volume, tr, [])
    ensures tr <= later && Seeking(env, later, DiskOf(volume)) && For(later, volume) && !Said(later, [], Always)
    ensures Learned(later) == [] && Tried(Current(later)) + [SECRET] == Offered(Current(later))
  {
    Looked(env, tr);
    MayTypeNow(env, volume, tr);
    StillSeeking(Current(tr), false);
    var asked, e := tr + [Polled(false)], Prompted(First, [SECRET]);
    Recorded(env, asked, e);
    PromptBrings(env, asked, DiskOf(volume), First, [SECRET]);
    later := asked + [e];
  }

  /** The passphrase, typed or remembered. */
  lemma Acquired(env: Env, volume: Volume, tr: Trace, known: seq<Secret>) returns (later: Trace)
    requires JustOpened(env, volume, tr, known) && (known == [] || known == [SECRET])
    ensures tr <= later && Holding(env, volume, later)
  {
    if known == [] {
      var prompted := PromptedNow(env, volume, tr);
      later := FoundNow(env, volume, prompted);
    } else {
      NothingTriedYet(Some(DiskOf(volume)));
      later := FoundNow(env, volume, tr);
    }
  }

  /** The repair has been planned. */
  ghost predicate Planning(env: Env, volume: Volume, tr: Trace, judged: Event) {
    && Stubborn(env) && volume in env.listeners && InHand(env, tr, volume, DiskOf(volume), SECRET)
    && !SentAlready(tr) && Unasked(tr)
    && Learned(tr) == [SECRET] && !Said(tr, [], Always)
    && PlannedBy(tr, volume, DiskOf(volume), judged) && judged.decision.plan.state == []
  }

  lemma StillHolding(env: Env, volume: Volume, tr: Trace)
    requires Holding(env, volume, tr)
    ensures Holding(env, volume, tr + [Polled(false)])
  {
    Looked(env, tr);
    OneStep(tr, tr + [Polled(false)], Polled(false));
    StillInHand(env, tr, tr + [Polled(false)], volume, DiskOf(volume), SECRET);
    assert forall p :: p in Current(tr + [Polled(false)]) ==> p in Current(tr) || p == Polled(false);
  }

  /** The preflight at this point. */
  function JudgedNow(env: Env, n: nat, volume: Volume, plan: Plan): Event
    requires env.tpm(n, volume.tpm2Device).Some?
  {
    var disk := DiskOf(volume);
    Judged(disk, env.tpm(n, volume.tpm2Device).value, TokensRead(env.header(n, disk)), env.files(n), Reenroll(plan))
  }

  lemma MayJudgeNow(env: Env, volume: Volume, tr: Trace, plan: Plan)
    requires Holding(env, volume, tr) && Cleared(tr) && JudgedHollow(env, |tr|, volume, plan)
    ensures Permitted(env, tr, JudgedNow(env, |tr|, volume, plan))
  {
    var e := JudgedNow(env, |tr|, volume, plan);
    assert MayJudge(env, tr, e) by {
      assert For(tr, volume) && Validated(tr, e.disk, SECRET);
    }
    JudgePermitted(env, tr, e);
  }

  lemma PlannedNow(env: Env, volume: Volume, tr: Trace) returns (judged: Event, later: Trace)
    requires Holding(env, volume, tr) && Cleared(tr)
    ensures tr <= later && Planning(env, volume, later, judged)
  {
    assert HollowAt(env, |tr|, volume);
    var plan :| JudgedHollow(env, |tr|, volume, plan);
    judged := JudgedNow(env, |tr|, volume, plan);
    MayJudgeNow(env, volume, tr, plan);
    CarriedOn(env, tr, judged);
    later := tr + [judged];
    OneStep(tr, later, judged);
    StillInHand(env, tr, later, volume, DiskOf(volume), SECRET);
    ReenrollExactly(judged.dev, [], judged.header, judged.files, volume, plan);
  }

  /** The person has just refused. */
  ghost predicate Refusing(env: Env, volume: Volume, tr: Trace) {
    && Stubborn(env) && volume in env.listeners && InHand(env, tr, volume, DiskOf(volume), SECRET) && !SentAlready(tr)
    && tr != [] && Last(tr) == Asked([], No) && Last(tr) in Current(tr)
    && Learned(tr) == [SECRET] && !Said(tr, [], Always)
  }

  lemma StillPlanning(env: Env, volume: Volume, tr: Trace, judged: Event)
    requires Planning(env, volume, tr, judged)
    ensures Planning(env, volume, tr + [Polled(false)], judged)
  {
    Looked(env, tr);
    OneStep(tr, tr + [Polled(false)], Polled(false));
    StillInHand(env, tr, tr + [Polled(false)], volume, DiskOf(volume), SECRET);
    StillPlanned(env, tr, tr + [Polled(false)], volume, DiskOf(volume), judged);
    assert forall p :: p in Current(tr + [Polled(false)]) ==> p in Current(tr) || p == Polled(false);
  }

  lemma MayAskNow(env: Env, volume: Volume, tr: Trace, judged: Event)
    requires Planning(env, volume, tr, judged) && Cleared(tr)
    ensures Permitted(env, tr, Asked([], No))
  {
    assert MayAsk(env, tr, [], No) by {
      assert Planned(tr, volume, DiskOf(volume), []);
    }
    AskPermitted(env, tr, [], No);
  }

  lemma NotAlways(tr: Trace)
    requires !Said(tr, [], Always)
    ensures !Said(tr + [Asked([], No)], [], Always)
  {
  }

  lemma RefusedNow(env: Env, volume: Volume, tr: Trace, judged: Event)
    requires Planning(env, volume, tr, judged) && Cleared(tr)
    ensures Refusing(env, volume, tr + [Asked([], No)])
  {
    MayAskNow(env, volume, tr, judged);
    CarriedOn(env, tr, Asked([], No));
    NotAlways(tr);
    StillInHand(env, tr, tr + [Asked([], No)], volume, DiskOf(volume), SECRET);
  }

  lemma MayReplyNow(env: Env, volume: Volume, tr: Trace)
    requires Refusing(env, volume, tr)
    ensures Permitted(env, tr, Sent([], false))
  {
    ConsideredBy(env, tr, volume, Asked([], No));
    MayReply(env, volume, DiskOf(volume), SECRET, [], false, tr);
    SendPermitted(env, tr, [], false);
  }

  lemma SentRests(past: Trace)
    requires SentAlready(past) && Serving(past).Some? && Granted(Serving(past).value)
    ensures !Owes(past) && Answered(past)
  {
  }

  lemma Replied(env: Env, volume: Volume, tr: Trace)
    requires Refusing(env, volume, tr)
    ensures Resting(env, tr + [Sent([], false)], [SECRET])
  {
    var e := Sent([], false);
    MayReplyNow(env, volume, tr);
    Recorded(env, tr, e);
    LearnedMore(tr, e);
    assert e in Current(tr + [e]);
    SentRests(tr + [e]);
  }

  /** One connection, on which the question is put and refused. */
  lemma Visit(env: Env, volume: Volume, tr: Trace, known: seq<Secret>) returns (later: Trace)
    requires Resting(env, tr, known) && volume in env.listeners && (known == [] || known == [SECRET])
    ensures tr < later && Refusing(env, volume, later)
  {
    var begun := Begun(env, volume, tr, known);
    var holding := Acquired(env, volume, begun, known);
    StillHolding(env, volume, holding);
    later := Put(env, volume, holding + [Polled(false)]);
  }

  lemma Put(env: Env, volume: Volume, tr: Trace) returns (later: Trace)
    requires Holding(env, volume, tr) && Cleared(tr)
    ensures tr < later && Refusing(env, volume, later)
  {
    var judged, planned := PlannedNow(env, volume, tr);
    StillPlanning(env, volume, planned, judged);
    RefusedNow(env, volume, planned + [Polled(false)], judged);
    later := planned + [Polled(false)] + [Asked([], No)];
  }

  /** The question about the empty state was put here, and refused. */
  ghost predicate RefusesAt(tr: Trace, i: nat, volume: Volume) {
    i < |tr| && For(tr[..i], volume) && tr[i] == Asked([], No)
  }

  lemma RefusingAt(env: Env, volume: Volume, tr: Trace) returns (i: nat)
    requires Refusing(env, volume, tr)
    ensures i + 1 == |tr| && RefusesAt(tr, i, volume) && Lawful(env, tr)
  {
    i := |tr| - 1;
    assert tr[..i] == Init(tr);
  }

  lemma StillRefuses(first: Trace, tr: Trace, i: nat, volume: Volume)
    requires RefusesAt(first, i, volume) && first <= tr
    ensures RefusesAt(tr, i, volume)
  {
    assert tr[..i] == first[..i];
  }

  /** In such a world, refused once on one connection, the daemon asks again
      about the very same state on the next, for whichever of its volumes. */
  lemma AskedAgain(env: Env, v: Volume, w: Volume) returns (tr: Trace, i: nat, j: nat)
    requires Stubborn(env) && v in env.listeners && w in env.listeners
    ensures Lawful(env, tr) && i < j && RefusesAt(tr, i, v) && RefusesAt(tr, j, w)
  {
    Start(env);
    var first := Visit(env, v, [], []);
    i := RefusingAt(env, v, first);
    tr, j := OnceMore(env, v, w, first);
    StillRefuses(first, tr, i, v);
  }

  lemma Start(env: Env)
    requires Stubborn(env)
    ensures Resting(env, [], [])
  {
    AtRestFirst(env);
  }

  lemma OnceMore(env: Env, v: Volume, w: Volume, first: Trace) returns (tr: Trace, j: nat)
    requires Refusing(env, v, first) && w in env.listeners
    ensures first <= tr && |first| <= j && Lawful(env, tr) && RefusesAt(tr, j, w)
  {
    Replied(env, v, first);
    tr := Visit(env, w, first + [Sent([], false)], [SECRET]);
    j := RefusingAt(env, w, tr);
  }

  lemma WorldHollow(header: Json.Value)
    requires Reads(header)
    ensures AlwaysHollow(World(header))
  {
    var env := World(header);
    forall n: nat, volume | volume in env.listeners ensures HollowAt(env, n, volume) {
      var plan := WorldJudges(header, volume);
      assert JudgedHollow(env, n, volume, plan);
    }
  }

  lemma WorldKnocks(header: Json.Value, n: nat, i: nat)
    requires i < |World(header).listeners|
    ensures KnocksAt(World(header), n, i)
  {
    assert i == 0 || i == 1;
  }

  lemma WorldStubborn(header: Json.Value)
    requires Reads(header)
    ensures Stubborn(World(header)) && World(header).listeners == [Root(), Home()]
  {
    var env := World(header);
    forall n: nat, i: nat | i < |env.listeners| ensures KnocksAt(env, n, i) {
      WorldKnocks(header, n, i);
    }
    WorldHollow(header);
  }

  // ---- Exactly when a refusal holds --------------------------------------

  predicate Touches(e: Event, state: seq<u8>) {
    (e.Asked? || e.Enrolling?) && e.state == state
  }

  /** In every run, once this state was refused it is neither asked about nor
      enrolled again. */
  ghost predicate RefusalFinal(state: seq<u8>) {
    forall env: Env, tr: Trace, i: nat, j: nat ::
      Lawful(env, tr) && i < j < |tr| && tr[i] == Asked(state, No) ==> !Touches(tr[j], state)
  }

  /** A refusal holds for the whole of every run if and only if the state it is
      for is not empty. */
  lemma RefusalExact(state: seq<u8>)
    ensures RefusalFinal(state) <==> state != []
  {
    if state == [] {
      HeaderExists();
      var header :| Reads(header);
      WorldStubborn(header);
      var env := World(header);
      var tr, i, j := AskedAgain(env, Root(), Home());
      assert Lawful(env, tr) && tr[i] == Asked(state, No) && Touches(tr[j], state);
    } else {
      forall env: Env, tr: Trace, i: nat, j: nat
        | Lawful(env, tr) && i < j < |tr| && tr[i] == Asked(state, No)
        ensures !Touches(tr[j], state)
      {
        NoIsFinal(env, tr, i, j, state);
      }
    }
  }
}

/** What becomes of every run in such a world, and of the daemon's own. */
module RefusalRun {
  import opened Prelude
  import opened Preflight
  import opened Consent
  import opened History
  import opened Law
  import opened Runs
  import opened Asking
  import opened Daemon
  import opened Memory
  import opened Refusal

  lemma NeverAgreed(env: Env, tr: Trace, k: nat)
    requires Stubborn(env) && Lawful(env, tr) && k < |tr| && tr[k].Asked?
    ensures tr[k].answer == No
  {
    LawfulAt(env, tr, k);
  }

  lemma NeverStopped(env: Env, tr: Trace, k: nat)
    requires Stubborn(env) && Lawful(env, tr) && k < |tr|
    ensures tr[k] != Polled(true)
  {
    LawfulAt(env, tr, k);
  }

  lemma NothingEnrolled(env: Env, tr: Trace, k: nat)
    requires Stubborn(env) && Lawful(env, tr) && k < |tr|
    ensures !tr[k].Enrolling?
  {
    if tr[k].Enrolling? {
      var agreed := EnrollmentAgreed(env, tr, k);
      NeverAgreed(env, tr, agreed);
    }
  }

  lemma AlwaysRight(env: Env, tr: Trace, k: nat)
    requires Stubborn(env) && Lawful(env, tr) && k < |tr| && tr[k].Checked?
    ensures tr[k].verdict == Correct && Opened(Some(tr[k].disk)) in Current(tr[..k])
  {
    LawfulAt(env, tr, k);
  }

  lemma AlwaysTyped(env: Env, tr: Trace, k: nat)
    requires Stubborn(env) && Lawful(env, tr) && k < |tr| && tr[k].Prompted?
    ensures tr[k].candidates == [SECRET]
  {
    LawfulAt(env, tr, k);
    SecretTyped();
  }

  lemma AlwaysOpens(env: Env, tr: Trace, k: nat)
    requires Stubborn(env) && Lawful(env, tr) && k < |tr| && tr[k].Opened?
    ensures tr[k].found.Some?
  {
    LawfulAt(env, tr, k);
  }

  /** Whatever preflight is carried out plans a repair for the empty state. */
  lemma AlwaysPlans(env: Env, tr: Trace, k: nat)
    requires Stubborn(env) && Lawful(env, tr) && k < |tr| && tr[k].Judged?
    ensures tr[k].decision.Reenroll? && tr[k].decision.plan.state == []
  {
    LawfulAt(env, tr, k);
    var volume, secret :| For(tr[..k], volume) && Validated(tr[..k], tr[k].disk, secret)
      && env.tpm(k, volume.tpm2Device) == Some(tr[k].dev)
      && tr[k].header == TokensRead(env.header(k, tr[k].disk)) && tr[k].files == env.files(k)
      && tr[k].decision == Check(tr[k].dev, [], tr[k].header, tr[k].files, volume).0;
    var checked := CurrentSince(tr, k, Checked(tr[k].disk, secret, Correct));
    AlwaysRight(env, tr, checked);
    CurrentGrows(tr, checked, k, Opened(Some(tr[k].disk)));
    var atOpen := DiskIsVolumes(env, tr, k, volume, tr[k].disk);
    var c := Delivered(env, tr, k, volume);
    assert HollowAt(env, k, volume);
  }

  lemma {:induction false} OfferedSome(seg: Trace)
    requires Prompts(seg) > 0 && forall e :: e in seg && e.Prompted? ==> e.candidates != []
    ensures Offered(seg) != []
  {
    if !Last(seg).Prompted? {
      assert forall e :: e in Init(seg) ==> e in seg;
      OfferedSome(Init(seg));
    }
  }

  lemma {:induction false} TriedSome(seg: Trace) returns (e: Event)
    requires Tried(seg) != []
    ensures e in seg && e.Checked?
  {
    if Last(seg).Checked? {
      e := Last(seg);
    } else {
      e := TriedSome(Init(seg));
    }
  }

  lemma NoneWrong(env: Env, tr: Trace, i: nat, e: Event)
    requires Stubborn(env) && Lawful(env, tr) && i <= |tr| && e in Current(tr[..i])
    ensures e.Checked? ==> e.verdict == Correct
    ensures e.Prompted? ==> e.candidates == [SECRET]
    ensures e.Opened? ==> e.found.Some?
    ensures e.Judged? ==> e.decision.Reenroll? && e.decision.plan.state == []
    ensures e.Asked? ==> e.answer == No
    ensures !e.Enrolling? && e != Polled(true)
  {
    var k := CurrentSince(tr, i, e);
    NothingEnrolled(env, tr, k);
    NeverStopped(env, tr, k);
    match e {
      case Checked(_, _, _) => AlwaysRight(env, tr, k);
      case Prompted(_, _) => AlwaysTyped(env, tr, k);
      case Opened(_) => AlwaysOpens(env, tr, k);
      case Judged(_, _, _, _, _) => AlwaysPlans(env, tr, k);
      case Asked(_, _) => NeverAgreed(env, tr, k);
      case _ =>
    }
  }

  /** No search is fruitless. */
  lemma AlwaysFruitful(env: Env, tr: Trace, i: nat)
    requires Stubborn(env) && Lawful(env, tr) && i <= |tr|
    ensures !Fruitless(tr[..i])
  {
    var seg := Current(tr[..i]);
    forall e | e in seg
      ensures (e.Checked? ==> e.verdict == Correct) && (e.Prompted? ==> e.candidates == [SECRET]) && e != Polled(true)
    {
      NoneWrong(env, tr, i, e);
    }
    if Prompts(seg) == 3 && Tried(seg) == Learned(tr[..i]) + Offered(seg) {
      OfferedSome(seg);
      var e := TriedSome(seg);
    }
  }

  /** Where a passphrase is sent, the question was put and refused. */
  lemma SentAsked(env: Env, tr: Trace, i: nat)
    requires Stubborn(env) && Lawful(env, tr) && i < |tr| && tr[i].Sent?
    ensures Asked([], No) in Current(tr[..i])
  {
    var volume, e := ConcludedHow(env, tr, i);
    NoneWrong(env, tr, i, e);
    var k := CurrentSince(tr, i, e);
    if e.Asked? {
      var judged := AskedJudged(env, tr, k, i);
      NoneWrong(env, tr, i, judged);
      AskedAbout(env, tr, k, i, judged);
    } else {
      VerifiedEnrolled(env, tr, k, i);
      NothingEnrolled(env, tr, k - 1);
    }
  }

  lemma AskedJudged(env: Env, tr: Trace, k: nat, i: nat) returns (judged: Event)
    requires Lawful(env, tr) && i <= |tr| && SameConnection(tr, k, i) && tr[k].Asked?
    ensures judged in Current(tr[..i]) && judged.Judged?
  {
    LawfulAt(env, tr, k);
    var volume, disk :| Planned(tr[..k], volume, disk, tr[k].state);
    judged := PlanJudged(tr, k, i, volume, disk, tr[k].state);
  }

  lemma PlanJudged(tr: Trace, k: nat, i: nat, volume: Volume, disk: Disk, state: seq<u8>) returns (judged: Event)
    requires i <= |tr| && SameConnection(tr, k, i) && Planned(tr[..k], volume, disk, state)
    ensures judged in Current(tr[..i]) && judged.Judged?
  {
    judged :| PlannedBy(tr[..k], volume, disk, judged) && judged.decision.plan.state == state;
    CurrentGrows(tr, k, i, judged);
  }

  /** Of all the ways in which the question can be concluded, two are left. */
  lemma ConcludedHow(env: Env, tr: Trace, i: nat) returns (volume: Volume, e: Event)
    requires Stubborn(env) && Lawful(env, tr) && i < |tr| && tr[i].Sent?
    ensures e in Current(tr[..i]) && ((e.Asked? && e.answer == No) || e.Verified?)
  {
    var past := tr[..i];
    volume := SentConsidered(env, tr, i);
    forall e | e in Current(past)
      ensures (e.Judged? ==> e.decision.Reenroll? && e.decision.plan.state == []) && !e.Enrolling? && e != Polled(true)
    {
      NoneWrong(env, tr, i, e);
    }
    if state :| Asked(state, No) in Current(past) {
      e := Asked(state, No);
    } else {
      var outcome :| Verified(outcome) in Current(past);
      e := Verified(outcome);
    }
  }

  lemma SentConsidered(env: Env, tr: Trace, i: nat) returns (volume: Volume)
    requires Stubborn(env) && Lawful(env, tr) && i < |tr| && tr[i].Sent?
    ensures Considered(env, tr[..i], volume) && env.tpm(i, volume.tpm2Device).Some?
  {
    LawfulAt(env, tr, i);
    volume :| For(tr[..i], volume) && Considered(env, tr[..i], volume);
    var c := Delivered(env, tr, i, volume);
    assert HollowAt(env, i, volume);
  }

  /** The connection accepted at `k` was over at `i`, and carried through. */
  ghost predicate Visited(tr: Trace, k: nat, i: nat) {
    && k < i <= |tr| && tr[k].Contact? && Granted(tr[k])
    && (k + 1 == i || SameConnection(tr, k + 1, i)) && Answered(tr[..i])
  }

  /** In every lawful run of such a world -- and so in every run of the daemon
      there -- each connection that is served has the question about the empty
      state put, and refused, however often it was refused before. */
  lemma AskedEveryTime(env: Env, tr: Trace, k: nat, i: nat) returns (asked: nat)
    requires Stubborn(env) && Lawful(env, tr) && Visited(tr, k, i)
    ensures k < asked < i && tr[asked] == Asked([], No)
  {
    var e := VisitSent(env, tr, k, i);
    SentAsked(env, tr, e);
    asked := CurrentSince(tr, e, Asked([], No));
    Within(tr, k, asked, e);
  }

  lemma Within(tr: Trace, k: nat, n: nat, i: nat)
    requires k < i <= |tr| && tr[k].Contact? && SameConnection(tr, n, i)
    ensures k < n
  {
  }

  lemma ServingContact(tr: Trace, k: nat, i: nat)
    requires k < i <= |tr| && tr[k].Contact? && (k + 1 == i || SameConnection(tr, k + 1, i))
    ensures Serving(tr[..i]) == Some(tr[k])
  {
    ServingSince(tr, k + 1, i);
    assert Init(tr[..k + 1]) == tr[..k] && Last(tr[..k + 1]) == tr[k];
  }

  lemma VisitSent(env: Env, tr: Trace, k: nat, i: nat) returns (e: nat)
    requires Stubborn(env) && Lawful(env, tr) && Visited(tr, k, i)
    ensures k < e < i && tr[e].Sent?
  {
    ServingContact(tr, k, i);
    AlwaysFruitful(env, tr, i);
    if Opened(None) in Current(tr[..i]) {
      NoneWrong(env, tr, i, Opened(None));
    }
    var sent :| sent in Current(tr[..i]) && sent.Sent?;
    e := CurrentSince(tr, i, sent);
    Within(tr, k, e, i);
  }

  lemma {:induction false} NextContact(tr: Trace, n: nat) returns (i: nat)
    requires n <= |tr|
    ensures n <= i <= |tr| && (i < |tr| ==> tr[i].Contact?) && forall m :: n <= m < i ==> !tr[m].Contact?
    decreases |tr| - n
  {
    if n == |tr| || tr[n].Contact? {
      i := n;
    } else {
      i := NextContact(tr, n + 1);
    }
  }

  lemma AnsweredBefore(env: Env, tr: Trace, i: nat)
    requires Lawful(env, tr) && Answered(tr) && i <= |tr| && (i < |tr| ==> tr[i].Contact?)
    ensures Answered(tr[..i])
  {
    if i < |tr| {
      LawfulAt(env, tr, i);
    } else {
      assert tr[..i] == tr;
    }
  }

  /** A connection is over where the next is accepted, or at the end. */
  lemma VisitEnds(env: Env, tr: Trace, k: nat) returns (i: nat)
    requires Lawful(env, tr) && Answered(tr) && k < |tr| && tr[k].Contact? && Granted(tr[k])
    ensures Visited(tr, k, i) && forall m :: k < m < i ==> !tr[m].Contact?
  {
    i := NextContact(tr, k + 1);
    AnsweredBefore(env, tr, i);
  }

  /** Two connections that were served: the question was put on both. */
  lemma TwoAsked(env: Env, tr: Trace, a: nat, b: nat) returns (i: nat, j: nat)
    requires Stubborn(env) && Lawful(env, tr) && Answered(tr) && a < b < |tr|
    requires tr[a].Contact? && Granted(tr[a]) && tr[b].Contact? && Granted(tr[b])
    ensures i < j < |tr| && tr[i] == tr[j] == Asked([], No)
  {
    var e := VisitEnds(env, tr, a);
    i := AskedEveryTime(env, tr, a, e);
    var l := VisitEnds(env, tr, b);
    j := AskedEveryTime(env, tr, b, l);
  }

  lemma {:induction false} ServedContact(tr: Trace, name: seq<u8>) returns (k: nat)
    requires name in Served(tr)
    ensures k < |tr| && tr[k].Contact? && Granted(tr[k]) && tr[k].volume.name == name
    decreases |tr|
  {
    if Granted(Last(tr)) && Last(tr).volume.name == name {
      k := |tr| - 1;
    } else {
      k := ServedContact(Init(tr), name);
    }
  }

  // ---- The daemon there --------------------------------------------------

  /** The sockets of two volumes are ready at every poll, no volume is open, and
      time stands still. */
  ghost predicate Awake(env: Env) {
    && |env.listeners| == 2 && env.listeners[0].name != env.listeners[1].name
    && (forall n :: env.clock(n) == 0)
    && (forall n, name :: !env.active(n, name))
    && (forall n :: env.poll(n).Ready? && env.poll(n).incoming(0) && env.poll(n).incoming(1))
  }

  lemma TurnServed(env: Env, tr: Trace, i: nat) returns (k: nat)
    requires Stubborn(env) && i < |env.listeners| && HadTurn(env, env.listeners[i], i, 0, tr)
    ensures k < |tr| && tr[k].Contact? && Granted(tr[k]) && tr[k].volume.name == env.listeners[i].name
  {
    var n: nat :| Took(env, env.listeners[i], i, n, tr);
    assert KnocksAt(env, n, i);
    KnockGranted(env.listeners[i]);
    k := n;
  }

  /** After a pass that ended for a reason of its own or not at all, both
      volumes have been served. */
  lemma BothServed(env: Env, tr: Trace, since: nat, exit: Option<Exit>, i: nat) returns (k: nat)
    requires Stubborn(env) && Awake(env) && Lawful(env, tr) && i < 2
    requires if exit.Some? then Ends(env, tr, since, exit.value) else Turns(env, env.poll(0), 0, tr)
    ensures k < |tr| && tr[k].Contact? && Granted(tr[k]) && tr[k].volume.name == env.listeners[i].name
  {
    if exit == None {
      assert env.poll(0).incoming(i);
      k := TurnServed(env, tr, i);
    } else if exit.value == EveryVolume {
      assert env.listeners[i] in env.listeners;
      k := ServedContact(tr, env.listeners[i].name);
    } else {
      NotStopped(env, tr, since, exit.value);
    }
  }

  lemma NotStopped(env: Env, tr: Trace, since: nat, exit: Exit)
    requires Stubborn(env) && Awake(env) && Lawful(env, tr) && Ends(env, tr, since, exit)
    ensures exit == EveryVolume
  {
    if exit == ToldToStop {
      NeverStopped(env, tr, |tr| - 1);
    }
  }

  ghost predicate RefusedTwice(tr: Trace) {
    exists i: nat, j: nat :: i < j < |tr| && tr[i] == tr[j] == Asked([], No)
  }

  lemma BothAsked(env: Env, tr: Trace, since: nat, exit: Option<Exit>)
    requires Stubborn(env) && Awake(env) && Lawful(env, tr) && Answered(tr)
    requires if exit.Some? then Ends(env, tr, since, exit.value) else Turns(env, env.poll(0), 0, tr)
    ensures RefusedTwice(tr)
  {
    var a := BothServed(env, tr, since, exit, 0);
    var b := BothServed(env, tr, since, exit, 1);
    if a < b {
      var i, j := TwoAsked(env, tr, a, b);
    } else {
      var i, j := TwoAsked(env, tr, b, a);
    }
  }

  lemma StandsStill(env: Env)
    requires Awake(env)
    ensures NeverBack(env)
  {
  }

  /** The daemon's own loop, once round, in such a world: the question about the
      empty state is put to the person, refused, and put again. */
  method RefusedAgain(env: Env) returns (tr: Trace)
    requires Stubborn(env) && Awake(env) && Writable(env)
    ensures Lawful(env, tr) && RefusedTwice(tr)
  {
    var cache := new Cache();
    var decided := new Decisions();
    AtRestFirst(env);
    StandsStill(env);
    var exit, served, since, later := Pass(env, cache, decided, {}, 0, []);
    BothAsked(env, later, since, exit);
    tr := later;
  }

  /** There is such a world. */
  lemma AwakeExists()
    ensures exists env :: Stubborn(env) && Awake(env) && Writable(env)
  {
    HeaderExists();
    var header :| Reads(header);
    WorldStubborn(header);
    var env := World(header);
    forall n: nat ensures WritableAt(env, n) {
      assert Settles(env, n, 0);
    }
    assert Awake(env);
  }
}
