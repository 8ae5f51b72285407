/** Comparing the policy a token was sealed to with the policy the registers
    give at present. */
module Drift {
  import opened Prelude
  import opened Wire
  import opened Tpm2
  import opened TpmClient
  import opened TpmMachine
  import opened Token
  import Lists

  datatype Unclear = NotLiteral(kind: Advanced) | NeedsPin | TpmFailed(fault: Fault)

  datatype Drift =
    | Drifted(enrolled: seq<u8>, current: seq<u8>)
    | Matches
    | Unknown(why: Unclear)

  /** Compares a token's sealed policy with what `pcrs` in `bank` produce now.
      Only the digest is taken from the token. */
  function Check(dev: Device, log: Log, token: Tpm2Token, pcrs: seq<u8>, bank: Bank): (Drift, Log) {
    if token.advanced.Some? then (Unknown(NotLiteral(token.advanced.value)), log)
    else if token.pin then (Unknown(NeedsPin), log)
    else if pcrs == [] then (Matches, log)
    else
      var (digest, log') := PolicyDigest(dev, log, bank, pcrs);
      match digest
      case Err(e) => (Unknown(TpmFailed(e)), log')
      case Ok(current) =>
        if current == token.policyHash then (Matches, log') else (Drifted(token.policyHash, current), log')
  }

  /** Against any device at all, "drifted" takes a digest the device reported,
      for a plain token and a selection that is not empty; a failing device, a
      PIN and an advanced policy are never drift. */
  lemma DriftNeedsEvidence(dev: Device, log: Log, token: Tpm2Token, pcrs: seq<u8>, bank: Bank)
    ensures var (drift, _) := Check(dev, log, token, pcrs, bank);
      var digest := PolicyDigest(dev, log, bank, pcrs).0;
      var plain := token.advanced.None? && !token.pin;
      && (drift.Drifted? <==> plain && pcrs != [] && digest.Ok? && digest.value != token.policyHash)
      && (drift.Drifted? ==> drift.enrolled == token.policyHash && Ok(drift.current) == digest)
      && (drift == Matches <==> plain && (pcrs == [] || digest == Ok(token.policyHash)))
      && (drift.Unknown? <==> !plain || (pcrs != [] && digest.Err?))
      && (drift.Unknown? ==>
        if token.advanced.Some? then drift.why == NotLiteral(token.advanced.value)
        else if token.pin then drift.why == NeedsPin
        else drift.why.TpmFailed? && Err(drift.why.fault) == digest)
  {
  }

  /** On a conforming TPM with a session to spare, a plain token sealed over the
      registers as they were in `sealed` matches exactly when they are all the
      same now, and has drifted exactly when one differs. */
  lemma DriftExact(
    now: Machine, init: State, log: Log, sealed: Machine, token: Tpm2Token, pcrs: seq<u8>, bank: Bank)
    requires Sound(now) && Sound(sealed) && now.hash == sealed.hash
    requires |StateAt(now, init, log)| < now.slots
    requires token.advanced.None? && !token.pin
    requires pcrs != [] && forall x :: x in pcrs ==> x <= 23
    requires token.policyHash == PolicyOf(sealed, bank.Alg(), Lists.Elements(pcrs))
    requires forall x :: x in pcrs ==> |now.pcr(bank.Alg(), x)| == |sealed.pcr(bank.Alg(), x)|
    requires NoCollision(now.hash,
      Outer(now, bank.Alg(), Lists.Elements(pcrs)), Outer(sealed, bank.Alg(), Lists.Elements(pcrs)))
    requires NoCollision(now.hash,
      Measured(now, bank.Alg(), Lists.Elements(pcrs)), Measured(sealed, bank.Alg(), Lists.Elements(pcrs)))
    ensures var (drift, log') := Check(Conforming(now, init), log, token, pcrs, bank);
      && StateAt(now, init, log') == StateAt(now, init, log)
      && (drift == Matches <==> forall x :: x in pcrs ==> now.pcr(bank.Alg(), x) == sealed.pcr(bank.Alg(), x))
      && (drift.Drifted? <==> exists x :: x in pcrs && now.pcr(bank.Alg(), x) != sealed.pcr(bank.Alg(), x))
  {
    var s := Lists.Elements(pcrs);
    PolicyDigestTrue(now, init, log, bank, pcrs);
    assert forall x :: x in s <==> x in pcrs;
    PolicySame(now, sealed, bank.Alg(), s);
  }
}

/** The conditions under which a header may be rewritten, and the verdict on what
    was written. */
module Preflight {
  import opened Prelude
  import opened Wire
  import opened Tpm2
  import opened TpmClient
  import opened Token
  import Drift
  import Json
  import Lists
  import Selections

  datatype Volume = Volume(name: seq<u8>, device: string, tpm2Device: string, pcrs: seq<u8>, bank: Bank)

  datatype Plan = Plan(oldToken: u32, enrolled: seq<u8>, state: seq<u8>)

  datatype Refusal = Pin | AdvancedPolicy(kind: Advanced)

  datatype Reason =
    | Unreadable
    | LockedOut(counter: u32, max: u32)
    | NoLockoutState(fault: Fault)
    | Absent
    | Several(n: nat)
    | Refused(why: Refusal)
    | SelectionDiffers
    | HostPolicy(path: string)
    | StillSatisfied
    | CannotTell(unclear: Drift.Unclear)

  datatype Decision = Reenroll(plan: Plan) | Leave(why: Reason)

  const POLICY_FILES: seq<string> := [
    "/etc/systemd/tpm2-pcr-public-key.pem",
    "/run/systemd/tpm2-pcr-public-key.pem",
    "/usr/local/lib/systemd/tpm2-pcr-public-key.pem",
    "/usr/lib/systemd/tpm2-pcr-public-key.pem",
    "/run/systemd/pcrlock.json",
    "/var/lib/systemd/pcrlock.json"]

  function TokenRefusal(token: Tpm2Token): Option<Refusal> {
    if token.pin then Some(Pin)
    else match token.advanced
      case Some(kind) => Some(AdvancedPolicy(kind))
      case None => None
  }

  predicate SameSelection(token: Tpm2Token, config: Volume) {
    var headerBank := if token.bank.Some? then token.bank.value else "sha256";
    token.pcrs == config.pcrs && headerBank == config.bank.Name()
  }

  /** The registers a token's JSON is for. */
  function NamedBy(token: Json.Value): set<int> {
    match token.Get("tpm2-pcrs")
    case Some(Array(items)) => Selections.Named(items)
    case _ => {}
  }

  /** A token as read agrees with a configuration as read exactly when both name
      the same registers, in whatever order and with whatever repeats, and the
      same bank, which a token that names none takes to be sha256. */
  lemma SameSelectionExact(index: u32, token: Json.Value, configured: Json.Value, config: Volume)
    requires Decode(index, token).Ok? && Selections.ConfigPcrs(configured) == Ok(config.pcrs)
    ensures SameSelection(Decode(index, token).value, config) <==>
      && NamedBy(token) == Selections.Named(configured.items)
      && (BankOf(token) == Some(config.bank.Name()) || (BankOf(token) == None && config.bank.Name() == "sha256"))
  {
    var numbers := Selections.Numbers(configured.items).value;
    Selections.NumbersNamed(configured.items);
    SortedAgree(numbers);
    match token.Get("tpm2-pcrs") {
      case Some(list) => Selections.SelectionsAgree(list, configured);
      case None =>
        assert SortDedup([]) == [];
        assert numbers[0] as int in Lists.Elements(numbers);
        assert config.pcrs != [];
    }
  }

  lemma SortedAgree(numbers: seq<u8>)
    ensures Lists.Elements(SortDedup(numbers)) == Lists.Elements(numbers)
    ensures numbers != [] ==> SortDedup(numbers) != []
  {
    if numbers != [] {
      assert numbers[0] as int in Lists.Elements(SortDedup(numbers));
    }
  }

  function FirstPresent(paths: seq<string>, files: set<string>): (r: Option<string>)
    ensures r.None? <==> forall p :: p in paths ==> p !in files
    ensures r.Some? ==> r.value in paths && r.value in files
  {
    if paths == [] then None
    else
      assert forall p :: p in paths <==> p == paths[0] || p in paths[1..];
      if paths[0] in files then Some(paths[0]) else FirstPresent(paths[1..], files)
  }

  function Drifted(dev: Device, log: Log, token: Tpm2Token, files: set<string>, config: Volume): (Decision, Log) {
    var refusal := TokenRefusal(token);
    if refusal.Some? then (Leave(Refused(refusal.value)), log)
    else if !SameSelection(token, config) then (Leave(SelectionDiffers), log)
    else if FirstPresent(POLICY_FILES, files).Some? then
      (Leave(HostPolicy(FirstPresent(POLICY_FILES, files).value)), log)
    else
      var (drift, log') := Drift.Check(dev, log, token, config.pcrs, config.bank);
      match drift
      case Drifted(enrolled, current) => (Reenroll(Plan(token.index, token.policyHash, current)), log')
      case Matches => (Leave(StillSatisfied), log')
      case Unknown(why) => (Leave(CannotTell(why)), log')
  }

  /** `header` is what reading the volume's tokens gave, `files` which host
      policy files exist. */
  function Check(
    dev: Device, log: Log, header: Result<seq<Tpm2Token>, TokenError>, files: set<string>, config: Volume)
    : (Decision, Log)
  {
    if header.Err? then (Leave(Unreadable), log)
    else
      var (lockout, log1) := LockoutAfter(dev, log);
      match lockout
      case Err(e) => (Leave(NoLockoutState(e)), log1)
      case Ok(l) =>
        if l.inLockout then (Leave(LockedOut(l.counter, l.maxAuthFail)), log1)
        else if header.value == [] then (Leave(Absent), log1)
        else if |header.value| == 1 then Drifted(dev, log1, header.value[0], files, config)
        else (Leave(Several(|header.value|)), log1)
  }

  /** Everything that has to hold before a header may be touched. */
  ghost predicate Repairable(
    dev: Device, log: Log, header: Result<seq<Tpm2Token>, TokenError>, files: set<string>, config: Volume, plan: Plan)
  {
    && header.Ok? && |header.value| == 1
    && var token := header.value[0];
    && !token.pin && token.advanced.None?
    && SameSelection(token, config) && config.pcrs != []
    && LockoutAfter(dev, log).0.Ok? && !LockoutAfter(dev, log).0.value.inLockout
    && (forall p :: p in POLICY_FILES ==> p !in files)
    && PolicyDigest(dev, LockoutAfter(dev, log).1, config.bank, config.pcrs).0 == Ok(plan.state)
    && plan.state != token.policyHash
    && plan == Plan(token.index, token.policyHash, plan.state)
  }

  /** A header is touched exactly when all of it holds. */
  lemma ReenrollExactly(
    dev: Device, log: Log, header: Result<seq<Tpm2Token>, TokenError>, files: set<string>, config: Volume, plan: Plan)
    ensures Check(dev, log, header, files, config).0 == Reenroll(plan)
        <==> Repairable(dev, log, header, files, config, plan)
  {
  }

  /** A repair is planned after a question about lockout and a policy. */
  lemma CheckedLog(
    dev: Device, header: Result<seq<Tpm2Token>, TokenError>, files: set<string>, config: Volume)
    requires Check(dev, [], header, files, config).0.Reenroll?
    ensures var (_, log1) := LockoutAfter(dev, []);
      var digest := PolicyDigest(dev, log1, config.bank, config.pcrs);
      digest.0.Ok? && config.pcrs != [] && Check(dev, [], header, files, config).1 == digest.1
  {
  }

  /** And when it is left alone, for what. The reasons exclude each other in this
      order: the header could not be read, the TPM gave no lockout state, it is in
      lockout, the tokens are not exactly one, the token is more than plain, its
      selection is another, a host policy exists, its policy is satisfied, or the
      TPM would not say. */
  lemma LeaveExactly(
    dev: Device, log: Log, header: Result<seq<Tpm2Token>, TokenError>, files: set<string>, config: Volume)
    ensures var why := Check(dev, log, header, files, config).0;
      var (lockout, log1) := LockoutAfter(dev, log);
      var ready := header.Ok? && lockout.Ok? && !lockout.value.inLockout;
      && (why == Leave(Unreadable) <==> header.Err?)
      && (why.Leave? && why.why.NoLockoutState? <==> header.Ok? && lockout.Err?)
      && (why.Leave? && why.why.LockedOut? <==> header.Ok? && lockout.Ok? && lockout.value.inLockout)
      && (why == Leave(Absent) <==> ready && header.value == [])
      && (why.Leave? && why.why.Several? <==> ready && |header.value| > 1)
      && (ready && |header.value| == 1 ==>
        LeftFor(dev, log1, header.value[0], files, config, why))
  {
  }

  ghost predicate LeftFor(dev: Device, log: Log, token: Tpm2Token, files: set<string>, config: Volume, why: Decision) {
    var digest := PolicyDigest(dev, log, config.bank, config.pcrs).0;
    if token.pin then why == Leave(Refused(Pin))
    else if token.advanced.Some? then why == Leave(Refused(AdvancedPolicy(token.advanced.value)))
    else if !SameSelection(token, config) then why == Leave(SelectionDiffers)
    else if exists p :: p in POLICY_FILES && p in files then
      why.Leave? && why.why.HostPolicy? && why.why.path in POLICY_FILES && why.why.path in files
    else if config.pcrs == [] || digest == Ok(token.policyHash) then why == Leave(StillSatisfied)
    else if digest.Err? then why == Leave(CannotTell(Drift.TpmFailed(digest.error)))
    else why == Reenroll(Plan(token.index, token.policyHash, digest.value))
  }

  /** These are the six files, and no other. */
  lemma PolicyFilesAre(path: string)
    ensures path in POLICY_FILES <==> path in {
      "/etc/systemd/tpm2-pcr-public-key.pem", "/run/systemd/tpm2-pcr-public-key.pem",
      "/usr/local/lib/systemd/tpm2-pcr-public-key.pem", "/usr/lib/systemd/tpm2-pcr-public-key.pem",
      "/run/systemd/pcrlock.json", "/var/lib/systemd/pcrlock.json"}
  {
  }

  /** A header with a token that takes a PIN, or has a field nobody knows, or one of
      a signed or a pcrlock policy, is never planned for repair, on any device. */
  lemma MoreThanPlainStays(dev: Device, log: Log, root: Json.Value, k: nat, files: set<string>, config: Volume)
    requires k < |TokenEntries(root)|
    requires var token := TokenEntries(root)[k].1;
      && Json.Holds(token, "type", Json.String("systemd-tpm2"))
      && (|| !AllKnown(token) || Signed(token) || Pcrlocked(token)
          || Json.Holds(token, "tpm2-pin", Json.Bool(true)) || !Json.Lacks(token, "tpm2_salt"))
    ensures Check(dev, log, Tokens(root), files, config).0.Leave?
  {
    if Tokens(root).Ok? {
      var t := ReadMoreThanPlain(root, k);
      NotPlainLeft(dev, log, Tokens(root).value, t, files, config);
    }
  }

  lemma ReadMoreThanPlain(root: Json.Value, k: nat) returns (t: Tpm2Token)
    requires Tokens(root).Ok? && k < |TokenEntries(root)|
    requires var token := TokenEntries(root)[k].1;
      && Json.Holds(token, "type", Json.String("systemd-tpm2"))
      && (|| !AllKnown(token) || Signed(token) || Pcrlocked(token)
          || Json.Holds(token, "tpm2-pin", Json.Bool(true)) || !Json.Lacks(token, "tpm2_salt"))
    ensures t in Tokens(root).value && (t.pin || t.advanced.Some?)
  {
    var token := TokenEntries(root)[k].1;
    IsTpm2Exact(token);
    AdvancedExact(token);
    PinExact(token);
    ReadIn(root, k);
    t := Entry(TokenEntries(root)[k]).value;
  }

  lemma NotPlainLeft(
    dev: Device, log: Log, tokens: seq<Tpm2Token>, t: Tpm2Token, files: set<string>, config: Volume)
    requires t in tokens && (t.pin || t.advanced.Some?)
    ensures Check(dev, log, Ok(tokens), files, config).0.Leave?
  {
  }

  // ---- After enrolling ---------------------------------------------------

  /** The one token not at the old index; none if there is no such token, or
      more than one. */
  function FindNewToken(tokens: seq<Tpm2Token>, former: u32): Option<Tpm2Token> {
    var candidates := Others(tokens, former);
    if |candidates| == 1 then Some(candidates[0]) else None
  }

  function Others(tokens: seq<Tpm2Token>, former: u32): seq<Tpm2Token> {
    if tokens == [] then []
    else if tokens[0].index != former then [tokens[0]] + Others(tokens[1..], former)
    else Others(tokens[1..], former)
  }

  lemma {:induction false} OthersAre(tokens: seq<Tpm2Token>, former: u32)
    ensures forall t :: t in Others(tokens, former) <==> t in tokens && t.index != former
    ensures |Others(tokens, former)| == |tokens| - Count(tokens, former)
  {
    if tokens != [] {
      OthersAre(tokens[1..], former);
      assert forall t :: t in tokens <==> t == tokens[0] || t in tokens[1..];
    }
  }

  /** How many of the tokens are at an index. */
  function Count(tokens: seq<Tpm2Token>, index: u32): nat {
    if tokens == [] then 0 else (if tokens[0].index == index then 1 else 0) + Count(tokens[1..], index)
  }

  /** A token is taken for the new one exactly when it is the only one not at
      the old index. */
  lemma FindNewTokenExact(tokens: seq<Tpm2Token>, former: u32, token: Tpm2Token)
    ensures FindNewToken(tokens, former) == Some(token) <==>
      token in tokens && token.index != former && Count(tokens, former) == |tokens| - 1
  {
    OthersAre(tokens, former);
    if |Others(tokens, former)| == 1 {
      assert forall t :: t in Others(tokens, former) ==> t == Others(tokens, former)[0];
    }
  }

  datatype Outcome =
    | Unsealed
    | PolicyMatches
    | NotReread
    | NotIdentified
    | WrongToken
    | StillDrifted

  /** What `verify` concludes, given the header as re-read and whether
      unsealing by a token succeeds. */
  function Verify(
    dev: Device, log: Log, header: Result<seq<Tpm2Token>, TokenError>, unseals: u32 -> bool, config: Volume, plan: Plan)
    : (Outcome, Log)
  {
    if header.Err? then (NotReread, log)
    else
      match FindNewToken(header.value, plan.oldToken)
      case None => (NotIdentified, log)
      case Some(token) =>
        if TokenRefusal(token).Some? || !SameSelection(token, config) then (WrongToken, log)
        else if unseals(token.index) then (Unsealed, log)
        else
          var (drift, log') := Drift.Check(dev, log, token, config.pcrs, config.bank);
          (if drift.Matches? then PolicyMatches else StillDrifted, log')
  }

  /** A plain token for the configured selection. */
  predicate Fits(token: Tpm2Token, config: Volume) {
    && !token.pin && token.advanced == None && token.pcrs == config.pcrs
    && (token.bank == Some(config.bank.Name()) || (token.bank == None && config.bank == Sha256))
  }

  /** The only token that is not at the old index. */
  predicate Sole(tokens: seq<Tpm2Token>, former: u32, token: Tpm2Token) {
    token in tokens && token.index != former && Count(tokens, former) == |tokens| - 1
  }

  lemma SoleExists(tokens: seq<Tpm2Token>, former: u32) returns (token: Tpm2Token)
    requires Count(tokens, former) == |tokens| - 1
    ensures Sole(tokens, former, token) && FindNewToken(tokens, former) == Some(token)
  {
    OthersAre(tokens, former);
    token := Others(tokens, former)[0];
    FindNewTokenExact(tokens, former, token);
  }

  lemma NameIsSha256(bank: Bank)
    ensures bank.Name() == "sha256" <==> bank == Sha256
  {
    var name := bank.Name();
    match bank
    case Sha1 => assert |name| == 4;
    case Sha256 =>
    case Sha384 => assert name[3] == '3';
    case Sha512 => assert name[3] == '5';
  }

  lemma FitsExact(token: Tpm2Token, config: Volume)
    ensures Fits(token, config) <==> TokenRefusal(token).None? && SameSelection(token, config)
  {
    NameIsSha256(config.bank);
  }

  /** The policy over the present registers is this one, as far as the device
      says; over no registers at all it is always satisfied. */
  ghost predicate Satisfied(dev: Device, log: Log, config: Volume, policy: seq<u8>) {
    config.pcrs == [] || PolicyDigest(dev, log, config.bank, config.pcrs).0 == Ok(policy)
  }

  /** When each outcome is the one, for any device. */
  lemma VerifyExact(
    dev: Device, log: Log, header: Result<seq<Tpm2Token>, TokenError>, unseals: u32 -> bool, config: Volume, plan: Plan)
    ensures var outcome := Verify(dev, log, header, unseals, config, plan).0;
      && (outcome == NotReread <==> header.Err?)
      && (outcome == NotIdentified <==> header.Ok? && Count(header.value, plan.oldToken) != |header.value| - 1)
      && forall t :: header.Ok? && Sole(header.value, plan.oldToken, t) ==>
        && (outcome == WrongToken <==> !Fits(t, config))
        && (outcome == Unsealed <==> Fits(t, config) && unseals(t.index))
        && (outcome == PolicyMatches <==>
            Fits(t, config) && !unseals(t.index) && Satisfied(dev, log, config, t.policyHash))
        && (outcome == StillDrifted <==>
            Fits(t, config) && !unseals(t.index) && !Satisfied(dev, log, config, t.policyHash))
  {
    if header.Ok? {
      if Count(header.value, plan.oldToken) == |header.value| - 1 {
        var token := SoleExists(header.value, plan.oldToken);
        VerifyOne(dev, log, header.value, token, unseals, config, plan);
        forall t | Sole(header.value, plan.oldToken, t) ensures t == token {
          FindNewTokenExact(header.value, plan.oldToken, t);
        }
      } else {
        NoneFound(header.value, plan.oldToken);
      }
    }
  }

  lemma NoneFound(tokens: seq<Tpm2Token>, former: u32)
    requires Count(tokens, former) != |tokens| - 1
    ensures FindNewToken(tokens, former) == None
  {
    OthersAre(tokens, former);
  }

  lemma VerifyOne(
    dev: Device, log: Log, tokens: seq<Tpm2Token>, t: Tpm2Token, unseals: u32 -> bool, config: Volume, plan: Plan)
    requires FindNewToken(tokens, plan.oldToken) == Some(t)
    ensures var outcome := Verify(dev, log, Ok(tokens), unseals, config, plan).0;
      outcome == if !Fits(t, config) then WrongToken
        else if unseals(t.index) then Unsealed
        else if Satisfied(dev, log, config, t.policyHash) then PolicyMatches
        else StillDrifted
  {
    FitsExact(t, config);
    Drift.DriftNeedsEvidence(dev, log, t, config.pcrs, config.bank);
  }

  /** A repair is found good exactly when the header was read and its one token
      off the old index is a plain one for the configured selection, which
      unseals or whose policy the registers satisfy. */
  lemma GoodExact(
    dev: Device, log: Log, header: Result<seq<Tpm2Token>, TokenError>, unseals: u32 -> bool, config: Volume, plan: Plan)
    ensures Good(Verify(dev, log, header, unseals, config, plan).0) <==>
      && header.Ok?
      && exists t ::
        && Sole(header.value, plan.oldToken, t) && Fits(t, config)
        && (unseals(t.index) || Satisfied(dev, log, config, t.policyHash))
  {
    VerifyExact(dev, log, header, unseals, config, plan);
    if header.Ok? && Count(header.value, plan.oldToken) == |header.value| - 1 {
      var t := SoleExists(header.value, plan.oldToken);
    }
  }

  predicate Good(outcome: Outcome) {
    outcome.Unsealed? || outcome.PolicyMatches?
  }
}

/** A repair settles the matter: what a conforming cryptenroll writes is read
    back, accepted, and left alone until the registers change again. */
module Repair {
  import opened Prelude
  import opened Tpm2
  import opened TpmClient
  import opened TpmMachine
  import opened Json
  import opened Selections
  import opened Token
  import opened Preflight
  import Hex
  import Lists

  /** The policy hash is written as a string, or as a list of one. */
  predicate HashWritten(token: Value, text: string) {
    token.Get("tpm2-policy-hash") in {Some(String(text)), Some(Array([String(text)]))}
  }

  /** A token as `systemd-cryptenroll` writes it for this selection and policy:
      the registers in any order, the digest in hexadecimal, none of the fields
      of a policy with more to it, and nothing from a newer release. */
  ghost predicate WrittenFor(token: Value, pcrs: seq<u8>, bank: Bank, policy: seq<u8>) {
    && token.Object?
    && (forall e :: e in token.entries ==> e.0 in KNOWN_KEYS)
    && token.Get("type") == Some(String("systemd-tpm2"))
    && (exists items ::
      && token.Get("tpm2-pcrs") == Some(Array(items))
      && Numbers(items).Ok? && Named(items) == Lists.Elements(pcrs))
    && token.Get("tpm2-pcr-bank") == Some(String(bank.Name()))
    && (exists text :: HashWritten(token, text) && Hex.LowerAll(text) == Hex.Hex(policy))
    && token.Get("tpm2-pin") in {None, Some(Bool(false))}
    && !token.Has("tpm2_salt") && !token.Has("tpm2_pubkey") && !token.Has("tpm2_pubkey_pcrs")
    && !token.Has("tpm2_pcrlock") && !token.Has("tpm2_pcrlock_nv")
  }

  function Plain(index: u32, pcrs: seq<u8>, bank: Bank, policy: seq<u8>): Tpm2Token {
    Tpm2Token(index, pcrs, Some(bank.Name()), policy, false, None)
  }

  lemma WrittenDecodes(index: u32, token: Value, pcrs: seq<u8>, bank: Bank, policy: seq<u8>)
    requires WrittenFor(token, pcrs, bank, policy)
    ensures Decode(index, token) == Ok(Plain(index, SortDedup(pcrs), bank, policy))
  {
    WrittenPcrs(token, pcrs, bank, policy);
    WrittenHash(token, pcrs, bank, policy);
    WrittenPlain(token, pcrs, bank, policy);
  }

  lemma WrittenPcrs(token: Value, pcrs: seq<u8>, bank: Bank, policy: seq<u8>)
    requires WrittenFor(token, pcrs, bank, policy)
    ensures PcrsOf(token) == Ok(SortDedup(pcrs))
  {
    var items :|
      token.Get("tpm2-pcrs") == Some(Array(items)) && Numbers(items).Ok? && Named(items) == Lists.Elements(pcrs);
    NumbersNamed(items);
  }

  lemma WrittenHash(token: Value, pcrs: seq<u8>, bank: Bank, policy: seq<u8>)
    requires WrittenFor(token, pcrs, bank, policy)
    ensures PolicyHashOf(token) == Ok(policy)
  {
    var text :| HashWritten(token, text) && Hex.LowerAll(text) == Hex.Hex(policy);
    Hex.UnhexExact(text, policy);
  }

  lemma WrittenPlain(token: Value, pcrs: seq<u8>, bank: Bank, policy: seq<u8>)
    requires WrittenFor(token, pcrs, bank, policy)
    ensures AdvancedOf(token) == None
  {
  }

  /** What a successful `--wipe-slot=tpm2` enrollment leaves behind: exactly one
      `systemd-tpm2` token, for what was asked, under an index that was not in
      use before. */
  ghost predicate Enrolled(header: Value, former: u32, pcrs: seq<u8>, bank: Bank, policy: seq<u8>) {
    var entries := TokenEntries(header);
    exists k :: 0 <= k < |entries|
      && (forall i :: 0 <= i < |entries| && i != k ==> !IsTpm2(entries[i].1))
      && ParseU32(entries[k].0).Some? && ParseU32(entries[k].0).value != former
      && WrittenFor(entries[k].1, pcrs, bank, policy)
  }

  lemma {:induction false} OnlyOneCollected(entries: seq<(string, Value)>, k: nat, token: Tpm2Token)
    requires k < |entries| && IsTpm2(entries[k].1) && Entry(entries[k]) == Ok(token)
    requires forall i :: 0 <= i < |entries| && i != k ==> !IsTpm2(entries[i].1)
    ensures Collected(entries) == Ok([token])
  {
    if k == 0 {
      NoneCollected(entries[1..]);
      assert [token] + [] == [token];
    } else {
      OnlyOneCollected(entries[1..], k - 1, token);
    }
  }

  lemma {:induction false} NoneCollected(entries: seq<(string, Value)>)
    requires forall i :: 0 <= i < |entries| ==> !IsTpm2(entries[i].1)
    ensures Collected(entries) == Ok([])
  {
    if entries != [] {
      assert !IsTpm2(entries[0].1);
      NoneCollected(entries[1..]);
    }
  }

  /** The header is read back as one plain token with the selection and policy
      asked for. */
  lemma EnrolledReadBack(header: Value, former: u32, pcrs: seq<u8>, bank: Bank, policy: seq<u8>)
    requires Enrolled(header, former, pcrs, bank, policy)
    ensures exists index: u32 :: index != former && Tokens(header) == Ok([Plain(index, SortDedup(pcrs), bank, policy)])
  {
    var entries := TokenEntries(header);
    var k :| 0 <= k < |entries|
      && (forall i :: 0 <= i < |entries| && i != k ==> !IsTpm2(entries[i].1))
      && ParseU32(entries[k].0).Some? && ParseU32(entries[k].0).value != former
      && WrittenFor(entries[k].1, pcrs, bank, policy);
    var index := ParseU32(entries[k].0).value;
    WrittenDecodes(index, entries[k].1, pcrs, bank, policy);
    OnlyOneCollected(entries, k, Plain(index, SortDedup(pcrs), bank, policy));
    SortOne(Plain(index, SortDedup(pcrs), bank, policy));
  }

  lemma SortOne(token: Tpm2Token)
    ensures Lists.SortByKey([token], TokenIndex) == [token]
  {
    assert [token][1..] == [];
    assert Lists.SortByKey([token][1..], TokenIndex) == [];
  }

  /** The volume's selection as configuration loading leaves it. */
  ghost predicate Canonical(config: Volume) {
    config.pcrs != [] && config.pcrs == SortDedup(config.pcrs)
  }

  ghost predicate SealedTo(header: Value, config: Volume, m: Machine) {
    Tokens(header).Ok? && |Tokens(header).value| == 1
    && Tokens(header).value[0].policyHash == PolicyOf(m, config.bank.Alg(), Lists.Elements(config.pcrs))
  }

  /** Right after a conforming enrollment on a conforming TPM, verification
      succeeds whether or not a token unseal is available, and the next
      preflight leaves the header alone. */
  lemma RepairHolds(
    m: Machine, init: State, log: Log, config: Volume, plan: Plan, header: Value, files: set<string>,
    unseals: u32 -> bool)
    requires Sound(m) && Canonical(config) && |StateAt(m, init, log)| < m.slots
    requires Enrolled(header, plan.oldToken, config.pcrs, config.bank,
      PolicyOf(m, config.bank.Alg(), Lists.Elements(config.pcrs)))
    ensures SealedTo(header, config, m)
    ensures Good(Verify(Conforming(m, init), log, Tokens(header), unseals, config, plan).0)
    ensures Check(Conforming(m, init), log, Tokens(header), files, config).0.Leave?
  {
    var policy := PolicyOf(m, config.bank.Alg(), Lists.Elements(config.pcrs));
    EnrolledReadBack(header, plan.oldToken, config.pcrs, config.bank, policy);
    var index: u32 :| index != plan.oldToken && Tokens(header) == Ok([Plain(index, config.pcrs, config.bank, policy)]);
    PolicyDigestTrue(m, init, log, config.bank, config.pcrs);
    PlainVerified(Conforming(m, init), log, index, policy, unseals, config, plan);
    SealedStays(m, init, log, config, header, files);
  }

  lemma PlainVerified(
    dev: Device, log: Log, index: u32, policy: seq<u8>, unseals: u32 -> bool, config: Volume, plan: Plan)
    requires index != plan.oldToken && config.pcrs != []
    requires PolicyDigest(dev, log, config.bank, config.pcrs).0 == Ok(policy)
    ensures Good(Verify(dev, log, Ok([Plain(index, config.pcrs, config.bank, policy)]), unseals, config, plan).0)
  {
    var token := Plain(index, config.pcrs, config.bank, policy);
    assert [token][1..] == [];
    assert Others([token][1..], plan.oldToken) == [];
    assert FindNewToken([token], plan.oldToken) == Some(token);
  }

  /** While the registers still have the values a header is sealed to, no
      preflight asks for a repair. */
  lemma SealedStays(m: Machine, init: State, log: Log, config: Volume, header: Value, files: set<string>)
    requires Sound(m) && SealedTo(header, config, m)
    ensures Check(Conforming(m, init), log, Tokens(header), files, config).0.Leave?
  {
    var (_, log1) := LockoutAfter(Conforming(m, init), log);
    PolicyDigestTrue(m, init, log1, config.bank, config.pcrs);
    NoDriftNoRepair(Conforming(m, init), log, Tokens(header), files, config);
  }

  lemma NoDriftNoRepair(
    dev: Device, log: Log, header: Result<seq<Tpm2Token>, TokenError>, files: set<string>, config: Volume)
    requires header.Ok? && |header.value| == 1
    requires PolicyDigest(dev, LockoutAfter(dev, log).1, config.bank, config.pcrs).0.Ok? ==>
      PolicyDigest(dev, LockoutAfter(dev, log).1, config.bank, config.pcrs).0.value == header.value[0].policyHash
    ensures Check(dev, log, header, files, config).0.Leave?
  {
  }

  /** No preflight changes anything on the TPM. */
  lemma CheckLeaves(
    m: Machine, init: State, log: Log, header: Result<seq<Tpm2Token>, TokenError>, files: set<string>, config: Volume)
    requires Sound(m)
    ensures StateAt(m, init, Check(Conforming(m, init), log, header, files, config).1) == StateAt(m, init, log)
  {
    if header.Ok? {
      LockoutTrue(m, init, log);
      var (_, log1) := LockoutAfter(Conforming(m, init), log);
      PolicyDigestTrue(m, init, log1, config.bank, config.pcrs);
      LogAfterCheck(Conforming(m, init), log, header, files, config);
    }
  }

  /** It asks for the lockout state, and then perhaps for the policy digest. */
  lemma LogAfterCheck(
    dev: Device, log: Log, header: Result<seq<Tpm2Token>, TokenError>, files: set<string>, config: Volume)
    requires header.Ok?
    ensures Check(dev, log, header, files, config).1
      in {LockoutAfter(dev, log).1, PolicyDigest(dev, LockoutAfter(dev, log).1, config.bank, config.pcrs).1}
  {
  }

  /** A conforming TPM whose last TPM_PT_PERMANENT has the lockout bit stops every
      repair, and for that reason; one whose last has it clear stops none for
      it. */
  lemma LockoutStops(
    m: Machine, init: State, log: Log, header: Result<seq<Tpm2Token>, TokenError>, files: set<string>, config: Volume,
    permanent: u32)
    requires Sound(m) && LastIs(m.properties, 0x200, permanent)
    ensures var why := Check(Conforming(m, init), log, header, files, config).0;
      && (permanent / 512 % 2 == 1 ==> why.Leave?)
      && (header.Ok? ==> (why.Leave? && why.why.LockedOut? <==> permanent / 512 % 2 == 1))
  {
    LockoutTrue(m, init, log);
    PropertiesReadBack(0, m.properties, []);
    LockoutExact(0, m.properties, []);
    LeaveExactly(Conforming(m, init), log, header, files, config);
    assert Noted(m.properties).Verdict().Ok?;
  }

  /** On a conforming TPM with a session to spare, and no unseal to go by, the
      verdict on a repair says whether any selected register has moved since the
      token was sealed. */
  lemma VerdictFollowsRegisters(
    now: Machine, init: State, log: Log, sealed: Machine, tokens: seq<Tpm2Token>, t: Tpm2Token, unseals: u32 -> bool,
    config: Volume, plan: Plan)
    requires Sound(now) && Sound(sealed) && now.hash == sealed.hash && |StateAt(now, init, log)| < now.slots
    requires Sole(tokens, plan.oldToken, t) && Fits(t, config) && !unseals(t.index)
    requires config.pcrs != [] && forall x :: x in config.pcrs ==> x <= 23
    requires t.policyHash == PolicyOf(sealed, config.bank.Alg(), Lists.Elements(config.pcrs))
    requires forall x :: x in config.pcrs ==>
      |now.pcr(config.bank.Alg(), x)| == |sealed.pcr(config.bank.Alg(), x)|
    requires NoCollision(now.hash, Outer(now, config.bank.Alg(), Lists.Elements(config.pcrs)),
      Outer(sealed, config.bank.Alg(), Lists.Elements(config.pcrs)))
    requires NoCollision(now.hash, Measured(now, config.bank.Alg(), Lists.Elements(config.pcrs)),
      Measured(sealed, config.bank.Alg(), Lists.Elements(config.pcrs)))
    ensures var outcome := Verify(Conforming(now, init), log, Ok(tokens), unseals, config, plan).0;
      var same := forall x :: x in config.pcrs ==>
        now.pcr(config.bank.Alg(), x) == sealed.pcr(config.bank.Alg(), x);
      outcome == if same then PolicyMatches else StillDrifted
  {
    var s := Lists.Elements(config.pcrs);
    assert forall x :: x in s <==> x in config.pcrs;
    VerifyExact(Conforming(now, init), log, Ok(tokens), unseals, config, plan);
    PolicyDigestTrue(now, init, log, config.bank, config.pcrs);
    PolicySame(now, sealed, config.bank.Alg(), s);
  }

  // ---- Over any number of boots ------------------------------------------

  /** One consultation about the volume: the machine as it is then, whether the
      daemon is asked at all, whether the user agrees, whether cryptenroll
      succeeds, and what it leaves behind either way. */
  datatype Boot = Boot(
    m: Machine, init: State, files: set<string>, consulted: bool, agreed: bool, succeeds: bool, after: Value)

  predicate Attempts(header: Value, config: Volume, boot: Boot) {
    && boot.consulted && boot.agreed
    && Check(Conforming(boot.m, boot.init), [], Tokens(header), boot.files, config).0.Reenroll?
  }

  predicate Rewrites(header: Value, config: Volume, boot: Boot) {
    Attempts(header, config, boot) && boot.succeeds
  }

  /** An attempt that fails may leave the old token, a new one, both, or
      anything else. */
  function HeaderAfter(header: Value, config: Volume, boot: Boot): Value {
    if Attempts(header, config, boot) then boot.after else header
  }

  /** Every enrollment that succeeds in these boots does what it is asked. */
  ghost predicate Conform(header: Value, config: Volume, boots: seq<Boot>)
    decreases |boots|
  {
    boots != [] ==>
      && Sound(boots[0].m)
      && (Rewrites(header, config, boots[0]) ==> exists former: u32 ::
        Enrolled(boots[0].after, former, config.pcrs, config.bank,
          PolicyOf(boots[0].m, config.bank.Alg(), Lists.Elements(config.pcrs))))
      && Conform(HeaderAfter(header, config, boots[0]), config, boots[1..])
  }

  function RewriteCount(header: Value, config: Volume, boots: seq<Boot>): nat
    decreases |boots|
  {
    if boots == [] then 0
    else
      var rest := RewriteCount(HeaderAfter(header, config, boots[0]), config, boots[1..]);
      if Rewrites(header, config, boots[0]) then 1 + rest else rest
  }

  /** Whether two machines differ in a selected register, or in what they would
      make of the registers. */
  ghost predicate Moved(a: Machine, b: Machine, pcrs: seq<u8>, bank: Bank) {
    a.hash != b.hash || exists x :: x in pcrs && a.pcr(bank.Alg(), x) != b.pcr(bank.Alg(), x)
  }

  ghost function ChangeCount(config: Volume, boots: seq<Boot>): nat
    decreases |boots|
  {
    if |boots| < 2 then 0
    else (if Moved(boots[0].m, boots[1].m, config.pcrs, config.bank) then 1 else 0) + ChangeCount(config, boots[1..])
  }

  lemma UnmovedPolicy(a: Machine, b: Machine, pcrs: seq<u8>, bank: Bank)
    requires !Moved(a, b, pcrs, bank)
    ensures PolicyOf(a, bank.Alg(), Lists.Elements(pcrs)) == PolicyOf(b, bank.Alg(), Lists.Elements(pcrs))
  {
    var s := set n: int | n in Lists.Elements(pcrs) && 0 <= n < 24;
    var r := Registers(s);
    forall i | 0 <= i < |r| ensures a.pcr(bank.Alg(), r[i]) == b.pcr(bank.Alg(), r[i]) {
      assert r[i] in r;
    }
    assert Values(a.pcr, bank.Alg(), r) == Values(b.pcr, bank.Alg(), r);
  }

  /** A volume is re-sealed at most once, and then at most once more for each
      time the registers it is bound to change; not at all before the first
      change if it starts out sealed to the present values; and whatever failed
      attempts in between leave behind. */
  lemma {:induction false} RewritesFollowChanges(header: Value, config: Volume, boots: seq<Boot>)
    requires Canonical(config) && Conform(header, config, boots)
    ensures RewriteCount(header, config, boots) <= 1 + ChangeCount(config, boots)
    ensures boots != [] && SealedTo(header, config, boots[0].m) ==>
      RewriteCount(header, config, boots) <= ChangeCount(config, boots)
    decreases |boots|
  {
    if boots != [] {
      var boot, rest := boots[0], boots[1..];
      var header' := HeaderAfter(header, config, boot);
      RewritesFollowChanges(header', config, rest);
      if SealedTo(header, config, boot.m) {
        SealedStays(boot.m, boot.init, [], config, header, boot.files);
      }
      if Rewrites(header, config, boot) {
        var policy := PolicyOf(boot.m, config.bank.Alg(), Lists.Elements(config.pcrs));
        var former: u32 :| Enrolled(boot.after, former, config.pcrs, config.bank, policy);
        EnrolledReadBack(boot.after, former, config.pcrs, config.bank, policy);
        assert SealedTo(header', config, boot.m);
      }
      if rest != [] && !Moved(boot.m, rest[0].m, config.pcrs, config.bank) {
        UnmovedPolicy(boot.m, rest[0].m, config.pcrs, config.bank);
      }
    }
  }
}
