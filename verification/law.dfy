/** Everything outside the daemon, and the record of a run. */
module History {
  import opened Prelude
  import opened Tpm2
  import opened Token
  import opened Preflight
  import opened AskPw
  import opened Consent
  import BindName
  import Json
  import Peer

  type Disk = nat
  datatype Verdict = Correct | Wrong | Unusable
  datatype Attempt = First | Retry

  /** What the kernel says about the process at the other end. */
  datatype Process = Process(root: bool, cgroup: string, expectedBinary: bool, alive: bool)

  predicate Trusted(process: Option<Process>, volume: seq<u8>) {
    && process.Some? && process.value.root
    && Peer.InUnit(process.value.cgroup, Peer.UnitOf(volume))
    && process.value.expectedBinary && process.value.alive
  }

  datatype Write = Wrote(n: nat) | Interrupted | Failed
  datatype Woken = Ready(incoming: nat -> bool) | WokenEarly | PollFailed
  datatype Accepted = Connection(name: Option<seq<u8>>, process: Option<Process>) | NoneYet | AcceptFailed

  /** An answer may depend on when it is asked for, which is the length of the
      record by then. */
  datatype Env = Env(
    /** The configured volumes, each with a socket of its own. */
    listeners: seq<Volume>,
    /** When the signal to stop arrives, if it does. */
    signal: Option<nat>,
    /** Seconds. */
    clock: nat -> nat,
    /** Whether a volume of this name is open by now. */
    active: (nat, seq<u8>) -> bool,
    poll: nat -> Woken,
    /** By the position of the listener. */
    accept: (nat, nat) -> Accepted,
    open: (nat, string) -> Option<Disk>,
    verdict: (nat, Disk, Secret) -> Verdict,
    /** What the passphrase prompt printed, if it succeeded. */
    prompt: (nat, Attempt) -> Option<seq<u8>>,
    tpm: (nat, string) -> Option<Device>,
    header: (nat, Disk) -> Option<Json.Value>,
    files: nat -> set<string>,
    /** The reply to a consent prompt, if one came back. */
    answer: nat -> Option<string>,
    enroll: (nat, Disk) -> bool,
    unseal: (nat, Disk) -> u32 -> bool,
    /** By how many writes went before, and what is to be written. */
    write: (nat, nat, seq<u8>) -> Write)

  datatype Event =
    | Contact(volume: Volume, name: Option<seq<u8>>, process: Option<Process>)
    | Polled(stop: bool)
    | Opened(found: Option<Disk>)
    | Checked(disk: Disk, secret: Secret, verdict: Verdict)
    | Prompted(attempt: Attempt, candidates: seq<Secret>)
    | Judged(
        disk: Disk, dev: Device, header: Result<seq<Tpm2Token>, TokenError>, files: set<string>, decision: Decision)
    | Asked(state: seq<u8>, answer: Answer)
    | Enrolling(disk: Disk, pcrs: seq<u8>, bank: Bank, secret: Secret, state: seq<u8>, ok: bool)
    | Verified(outcome: Outcome)
    | Sent(bytes: seq<u8>, whole: bool)

  type Trace = seq<Event>

  predicate Stopped(env: Env, n: nat) {
    env.signal.Some? && env.signal.value <= n
  }

  /** The steps that take seconds or minutes. */
  predicate Expensive(e: Event) {
    e.Checked? || e.Prompted? || e.Asked? || e.Enrolling?
  }

  /** A failed prompt offers nothing, and so does one that prints nothing. */
  function Typed(stdout: Option<seq<u8>>): seq<Secret> {
    if stdout.Some? then Candidates(stdout.value) else []
  }

  /** No reply at all is a refusal. */
  function Understood(reply: Option<string>): Answer {
    if reply.Some? then Classify(reply.value) else No
  }

  function TokensRead(header: Option<Json.Value>): Result<seq<Tpm2Token>, TokenError> {
    if header.Some? then Tokens(header.value) else Err(NotRead)
  }

  // ---- Looking back ------------------------------------------------------

  function Last(past: Trace): Event
    requires past != []
  {
    past[|past| - 1]
  }

  function Init(past: Trace): Trace
    requires past != []
  {
    past[..|past| - 1]
  }

  /** The connection being handled: the latest accepted. */
  function Serving(past: Trace): Option<Event> {
    if past == [] then None
    else if Last(past).Contact? then Some(Last(past))
    else Serving(Init(past))
  }

  /** What has happened since that connection was accepted. */
  function Current(past: Trace): Trace {
    if past == [] || Last(past).Contact? then [] else Current(Init(past)) + [Last(past)]
  }

  /** The secrets checked, in order. */
  function Tried(seg: Trace): seq<Secret> {
    if seg == [] then []
    else if Last(seg).Checked? then Tried(Init(seg)) + [Last(seg).secret]
    else Tried(Init(seg))
  }

  /** Everything the passphrase prompts brought in, in order. */
  function Offered(seg: Trace): seq<Secret> {
    if seg == [] then []
    else if Last(seg).Prompted? then Offered(Init(seg)) + Last(seg).candidates
    else Offered(Init(seg))
  }

  function Prompts(seg: Trace): nat {
    if seg == [] then 0
    else Prompts(Init(seg)) + if Last(seg).Prompted? then 1 else 0
  }

  /** The secrets that have opened something, in the order they first did. */
  function Learned(past: Trace): seq<Secret> {
    if past == [] then []
    else
      var before := Learned(Init(past));
      if Last(past).Checked? && Last(past).verdict.Correct? && Last(past).secret !in before
      then before + [Last(past).secret]
      else before
  }

  /** The states answered one way. */
  function States(past: Trace, answer: Answer): set<seq<u8>> {
    if past == [] then {}
    else if Last(past).Asked? && Last(past).answer == answer then States(Init(past), answer) + {Last(past).state}
    else States(Init(past), answer)
  }

  /** The volumes whose plain-phase connection was accepted and trusted. */
  function Served(past: Trace): set<seq<u8>> {
    if past == [] then {}
    else if Granted(Last(past)) then Served(Init(past)) + {Last(past).volume.name}
    else Served(Init(past))
  }

  /** A plain-phase connection for the socket's own volume, from a process that
      passed the check. */
  predicate Granted(contact: Event) {
    && contact.Contact? && contact.name.Some?
    && BindName.Parse(contact.name.value) == Some(BindName.PeerName(BindName.Plain, contact.volume.name))
    && Trusted(contact.process, contact.volume.name)
  }

  // ---- One more event ----------------------------------------------------

  lemma Snoc(past: Trace, e: Event)
    ensures past + [e] != [] && Init(past + [e]) == past && Last(past + [e]) == e
  {
  }

  lemma After(past: Trace, e: Event)
    ensures Serving(past + [e]) == if e.Contact? then Some(e) else Serving(past)
    ensures Current(past + [e]) == if e.Contact? then [] else Current(past) + [e]
  {
    Snoc(past, e);
  }

  lemma TriedMore(seg: Trace, e: Event)
    ensures Tried(seg + [e]) == if e.Checked? then Tried(seg) + [e.secret] else Tried(seg)
    ensures Offered(seg + [e]) == if e.Prompted? then Offered(seg) + e.candidates else Offered(seg)
    ensures Prompts(seg + [e]) == Prompts(seg) + if e.Prompted? then 1 else 0
  {
    Snoc(seg, e);
  }

  lemma LearnedMore(past: Trace, e: Event)
    ensures Learned(past + [e]) ==
      if e.Checked? && e.verdict.Correct? && e.secret !in Learned(past) then Learned(past) + [e.secret]
      else Learned(past)
    ensures Served(past + [e]) == if Granted(e) then Served(past) + {e.volume.name} else Served(past)
  {
    Snoc(past, e);
  }

  lemma StatesMore(past: Trace, e: Event, answer: Answer)
    ensures States(past + [e], answer) ==
      if e.Asked? && e.answer == answer then States(past, answer) + {e.state} else States(past, answer)
  {
    Snoc(past, e);
  }
}

/** What the daemon may do when, given everything it has done and seen so
    far. */
module Law {
  import opened Prelude
  import opened Tpm2
  import opened Token
  import opened Preflight
  import opened AskPw
  import opened Consent
  import opened History
  import Lists
  import Sessions
  import TpmClient
  import Wire

  const TRIES: nat := 3

  ghost predicate For(past: Trace, volume: Volume) {
    Serving(past).Some? && Granted(Serving(past).value) && Serving(past).value.volume == volume
  }

  /** The stop flag was looked at just now and was clear. */
  predicate Cleared(past: Trace) {
    past != [] && Last(past) == Polled(false)
  }

  ghost predicate Validated(past: Trace, disk: Disk, secret: Secret) {
    Checked(disk, secret, Correct) in Current(past)
  }

  ghost predicate SentAlready(past: Trace) {
    exists e :: e in Current(past) && e.Sent?
  }

  /** A passphrase was acquired on this connection and not yet sent. */
  ghost predicate Owes(past: Trace) {
    (exists e :: e in Current(past) && e.Checked? && e.verdict.Correct?) && !SentAlready(past)
  }

  /** Nothing so far decided the search: every check said "wrong", every prompt
      brought something, and nothing that needs a passphrase was done. */
  ghost predicate Searching(seg: Trace) {
    forall e :: e in seg ==>
      (e.Checked? ==> e.verdict.Wrong?) && (e.Prompted? ==> e.candidates != []) && !e.Sent? && !Decides(e)
  }

  /** The steps towards a repair. */
  predicate Decides(e: Event) {
    e.Judged? || e.Asked? || e.Enrolling?
  }

  ghost predicate Unjudged(past: Trace) {
    forall e :: e in Current(past) ==> !e.Judged?
  }

  ghost predicate Unasked(past: Trace) {
    forall e :: e in Current(past) ==> !e.Asked?
  }

  ghost predicate Unenrolled(past: Trace) {
    forall e :: e in Current(past) ==> !e.Enrolling?
  }

  /** An enrollment succeeded and was not yet verified. */
  predicate Unverified(past: Trace) {
    past != [] && Last(past).Enrolling? && Last(past).ok
  }

  /** This preflight, carried out on this disk on this connection, planned a
      repair, and everything it demands held. */
  ghost predicate PlannedBy(past: Trace, volume: Volume, disk: Disk, judged: Event) {
    && judged in Current(past) && judged.Judged? && judged.disk == disk && judged.decision.Reenroll?
    && Repairable(judged.dev, [], judged.header, judged.files, volume, judged.decision.plan)
  }

  ghost predicate Planned(past: Trace, volume: Volume, disk: Disk, state: seq<u8>) {
    exists judged :: PlannedBy(past, volume, disk, judged) && judged.decision.plan.state == state
  }

  ghost predicate Said(past: Trace, state: seq<u8>, answer: Answer) {
    Asked(state, answer) in past
  }

  /** The search is over without a passphrase: checking proved impossible, a
      prompt brought nothing, everything known or typed was tried, or the daemon
      was asked to stop. */
  ghost predicate Fruitless(past: Trace) {
    var seg := Current(past);
    && (forall e :: e in seg && e.Checked? ==> !e.verdict.Correct?)
    && (|| (exists e :: e in seg && e.Checked? && e.verdict.Unusable?)
        || (exists attempt :: Prompted(attempt, []) in seg)
        || (Prompts(seg) == 3 && Tried(seg) == Learned(past) + Offered(seg))
        || Polled(true) in seg)
  }

  /** The connection was carried through: a trusted one for the plain phase gets
      the passphrase, unless the device could not be opened or the search was
      fruitless; any other gets nothing at all. */
  ghost predicate Answered(past: Trace) {
    Serving(past).Some? ==>
      if Granted(Serving(past).value) then Opened(None) in Current(past) || SentAlready(past) || Fruitless(past)
      else forall e :: e in Current(past) ==> e.Polled?
  }

  /** The question of a repair was carried through: the daemon was asked to
      stop, there was no TPM, the preflight was against it, a person was, or the
      enrollment was carried out and, if it succeeded, verified. */
  ghost predicate Considered(env: Env, past: Trace, volume: Volume) {
    var seg := Current(past);
    || Polled(true) in seg
    || (Unjudged(past) && env.tpm(|past|, volume.tpm2Device) == None)
    || (exists e :: e in seg && e.Judged? && e.decision.Leave?)
    || (exists e :: e in seg && OnceRefused(past, e))
    || (exists state :: Asked(state, No) in seg)
    || (exists e :: e in seg && e.Enrolling? && !e.ok)
    || (exists outcome :: Verified(outcome) in seg)
  }

  /** A repair was planned for a state that has been refused. */
  ghost predicate OnceRefused(past: Trace, e: Event) {
    e.Judged? && e.decision.Reenroll? && e.decision.plan.state != [] && Said(past, e.decision.plan.state, No)
  }

  // ---- What may come next ------------------------------------------------

  /** One of the configured volumes' sockets has this connection waiting. */
  ghost predicate MayAccept(env: Env, past: Trace, volume: Volume, name: Option<seq<u8>>, process: Option<Process>) {
    exists i: nat ::
      i < |env.listeners| && env.listeners[i] == volume && env.accept(|past|, i) == Connection(name, process)
  }

  ghost predicate MayOpen(env: Env, past: Trace, found: Option<Disk>) {
    && (forall p :: p in Current(past) ==> !p.Opened?)
    && exists volume :: For(past, volume) && found == env.open(|past|, volume.device)
  }

  /** The next secret is the first not tried yet: of those that opened
      something before, and then of those the prompts brought in. */
  ghost predicate MayCheck(env: Env, past: Trace, disk: Disk, secret: Secret, verdict: Verdict) {
    && Opened(Some(disk)) in Current(past)
    && Searching(Current(past))
    && Tried(Current(past)) + [secret] <= Learned(past) + Offered(Current(past))
    && verdict == env.verdict(|past|, disk, secret)
  }

  /** A prompt is for when all of those have been tried. */
  ghost predicate MayPrompt(env: Env, past: Trace, attempt: Attempt, candidates: seq<Secret>) {
    && (exists disk :: Opened(Some(disk)) in Current(past))
    && Searching(Current(past))
    && Tried(Current(past)) == Learned(past) + Offered(Current(past))
    && Prompts(Current(past)) < TRIES
    && (attempt == First <==> Prompts(Current(past)) == 0)
    && candidates == Typed(env.prompt(|past|, attempt))
  }

  ghost predicate MayJudge(env: Env, past: Trace, e: Event)
    requires e.Judged?
  {
    && Unjudged(past)
    && exists volume, secret ::
      && For(past, volume) && Validated(past, e.disk, secret)
      && env.tpm(|past|, volume.tpm2Device) == Some(e.dev)
      && e.header == TokensRead(env.header(|past|, e.disk))
      && e.files == env.files(|past|)
      && e.decision == Check(e.dev, [], e.header, e.files, volume).0
  }

  ghost predicate MayAsk(env: Env, past: Trace, state: seq<u8>, answer: Answer) {
    && Unasked(past)
    && (exists volume, disk :: For(past, volume) && Planned(past, volume, disk, state))
    && !Said(past, state, Always)
    && (state != [] ==> !Said(past, state, No))
    && answer == Understood(env.answer(|past|))
  }

  ghost predicate MayEnroll(env: Env, past: Trace, e: Event)
    requires e.Enrolling?
  {
    && Unenrolled(past)
    && (exists volume ::
      && For(past, volume)
      && Opened(Some(e.disk)) in Current(past)
      && Validated(past, e.disk, e.secret)
      && Planned(past, volume, e.disk, e.state)
      && e.pcrs == volume.pcrs && e.bank == volume.bank)
    && e.pcrs != []
    && (Asked(e.state, Yes) in Current(past) || Said(past, e.state, Always))
    && (e.state != [] ==> !Said(past, e.state, No))
    && e.ok == env.enroll(|past|, e.disk)
  }

  /** Where the conversation with the TPM stands after the preflight and the
      logging of the registers. */
  function LogBefore(
    dev: Device, header: Result<seq<Tpm2Token>, TokenError>, files: set<string>, volume: Volume): Log
  {
    TpmClient.ReadPcrs(dev, Check(dev, [], header, files, volume).1, volume.bank, volume.pcrs).1
  }

  /** What the TPM was sent by then, where a repair was planned: a question about
      lockout, the four commands of a policy, and then readings of the registers. */
  lemma Conversation(
    dev: Device, header: Result<seq<Tpm2Token>, TokenError>, files: set<string>, volume: Volume)
    requires Check(dev, [], header, files, volume).0.Reenroll?
    ensures var log := LogBefore(dev, header, files, volume);
      && |log| > 5 && Sessions.CodeOf(log[0]) == 0x17a
      && Sessions.CodeOf(log[1]) == 0x176 && Sessions.CodeOf(log[2]) == 0x17f
      && Sessions.CodeOf(log[3]) == 0x189 && Sessions.CodeOf(log[4]) == 0x165
      && forall i :: 5 <= i < |log| ==> Sessions.CodeOf(log[i]) == 0x17e
  {
    var log := Check(dev, [], header, files, volume).1;
    PolicyConversation(dev, header, files, volume);
    var wanted := TpmClient.SortDedup(volume.pcrs);
    assert volume.pcrs[0] in wanted;
    TpmClient.OnlyPcrReads(dev, log, volume.bank, wanted, []);
    forall i | 5 <= i < |LogBefore(dev, header, files, volume)|
      ensures Sessions.CodeOf(LogBefore(dev, header, files, volume)[i]) == 0x17e
    {
      var body :| LogBefore(dev, header, files, volume)[i] == Command(CC_PCR_READ, body);
      Sessions.CodeOfCommand(CC_PCR_READ, body);
    }
  }

  lemma PolicyConversation(
    dev: Device, header: Result<seq<Tpm2Token>, TokenError>, files: set<string>, volume: Volume)
    requires Check(dev, [], header, files, volume).0.Reenroll?
    ensures var log := Check(dev, [], header, files, volume).1;
      && |log| == 5 && volume.pcrs != [] && Sessions.CodeOf(log[0]) == 0x17a
      && Sessions.CodeOf(log[1]) == 0x176 && Sessions.CodeOf(log[2]) == 0x17f
      && Sessions.CodeOf(log[3]) == 0x189 && Sessions.CodeOf(log[4]) == 0x165
  {
    var (_, log1) := LockoutAfter(dev, []);
    Sessions.CodeOfCommand(CC_GET_CAPABILITY, LockoutBody());
    PolicyCodes(dev, log1, volume);
    CheckedLog(dev, header, files, volume);
  }

  lemma PolicyCodes(dev: Device, log: Log, volume: Volume)
    requires TpmClient.PolicyDigest(dev, log, volume.bank, volume.pcrs).0.Ok?
    ensures var log' := TpmClient.PolicyDigest(dev, log, volume.bank, volume.pcrs).1;
      && |log'| == |log| + 4 && log <= log'
      && Sessions.CodeOf(log'[|log|]) == 0x176 && Sessions.CodeOf(log'[|log| + 1]) == 0x17f
      && Sessions.CodeOf(log'[|log| + 2]) == 0x189 && Sessions.CodeOf(log'[|log| + 3]) == 0x165
  {
    var (session, _) := TpmClient.StartSession(dev, log);
    var h := session.value;
    Sessions.CodeOfCommand(CC_START_AUTH_SESSION, TpmClient.StartBody());
    Sessions.CodeOfCommand(CC_POLICY_PCR, TpmClient.PolicyPcrBody(h, volume.bank, Lists.Elements(volume.pcrs)));
    Sessions.CodeOfCommand(CC_POLICY_GET_DIGEST, Wire.U32(h));
    Sessions.CodeOfCommand(CC_FLUSH_CONTEXT, Wire.U32(h));
  }

  /** What looking at the header again comes to. */
  function Conclusion(env: Env, n: nat, volume: Volume, judged: Event): Outcome
    requires judged.Judged? && judged.decision.Reenroll?
  {
    Verify(judged.dev, LogBefore(judged.dev, judged.header, judged.files, volume),
      TokensRead(env.header(n, judged.disk)), env.unseal(n, judged.disk), volume, judged.decision.plan).0
  }

  ghost predicate Checkup(env: Env, past: Trace, outcome: Outcome)
    requires Unverified(past)
  {
    exists volume, judged ::
      && For(past, volume) && PlannedBy(past, volume, Last(past).disk, judged)
      && outcome == Conclusion(env, |past|, volume, judged)
  }

  ghost predicate MaySend(env: Env, past: Trace, bytes: seq<u8>, whole: bool) {
    && !SentAlready(past)
    && exists volume, disk, secret ::
      && For(past, volume) && Opened(Some(disk)) in Current(past) && Validated(past, disk, secret)
      && bytes <= secret && (whole <==> bytes == secret)
      && Considered(env, past, volume)
  }

  /** The stop flag is looked at before each expensive step, before the header
      is judged and before a connection is accepted. */
  predicate Guarded(e: Event) {
    Expensive(e) || e.Judged? || e.Contact?
  }

  /** An enrollment that succeeded is verified at once, and nothing else ever
      is. */
  predicate Timely(past: Trace, e: Event) {
    && (Unverified(past) <==> e.Verified?)
    && (Guarded(e) ==> Cleared(past))
  }

  ghost predicate Permitted(env: Env, past: Trace, e: Event) {
    && Timely(past, e)
    && match e
       case Contact(volume, name, process) =>
         !Owes(past) && Answered(past) && MayAccept(env, past, volume, name, process)
       case Polled(stop) => stop == Stopped(env, |past|)
       case Opened(found) => MayOpen(env, past, found)
       case Checked(disk, secret, verdict) => MayCheck(env, past, disk, secret, verdict)
       case Prompted(attempt, candidates) => MayPrompt(env, past, attempt, candidates)
       case Judged(_, _, _, _, _) => MayJudge(env, past, e)
       case Asked(state, answer) => MayAsk(env, past, state, answer)
       case Enrolling(_, _, _, _, _, _) => MayEnroll(env, past, e)
       case Verified(outcome) => Checkup(env, past, outcome)
       case Sent(bytes, whole) => MaySend(env, past, bytes, whole)
  }

  // One kind of event at a time, so that nothing else has to be thought about.

  lemma ContactPermitted(env: Env, past: Trace, e: Event)
    requires Cleared(past) && !Owes(past) && Answered(past)
    requires e.Contact? && MayAccept(env, past, e.volume, e.name, e.process)
    ensures Permitted(env, past, e)
  {
    assert Timely(past, e);
  }

  lemma OpenPermitted(env: Env, past: Trace, found: Option<Disk>)
    requires !Unverified(past) && MayOpen(env, past, found)
    ensures Permitted(env, past, Opened(found))
  {
    assert Timely(past, Opened(found)) by {
      assert !Guarded(Opened(found));
    }
  }

  lemma CheckPermitted(env: Env, past: Trace, disk: Disk, secret: Secret, verdict: Verdict)
    requires Cleared(past) && MayCheck(env, past, disk, secret, verdict)
    ensures Permitted(env, past, Checked(disk, secret, verdict))
  {
    assert Timely(past, Checked(disk, secret, verdict));
  }

  lemma PromptPermitted(env: Env, past: Trace, attempt: Attempt, candidates: seq<Secret>)
    requires Cleared(past) && MayPrompt(env, past, attempt, candidates)
    ensures Permitted(env, past, Prompted(attempt, candidates))
  {
    assert Timely(past, Prompted(attempt, candidates));
  }

  lemma JudgePermitted(env: Env, past: Trace, e: Event)
    requires Cleared(past) && e.Judged? && MayJudge(env, past, e)
    ensures Permitted(env, past, e)
  {
    assert Timely(past, e);
  }

  lemma AskPermitted(env: Env, past: Trace, state: seq<u8>, answer: Answer)
    requires Cleared(past) && MayAsk(env, past, state, answer)
    ensures Permitted(env, past, Asked(state, answer))
  {
    assert Timely(past, Asked(state, answer));
  }

  lemma EnrollPermitted(env: Env, past: Trace, e: Event)
    requires Cleared(past) && e.Enrolling? && MayEnroll(env, past, e)
    ensures Permitted(env, past, e)
  {
    assert Timely(past, e);
  }

  lemma VerifyPermitted(env: Env, past: Trace, outcome: Outcome)
    requires Unverified(past) && Checkup(env, past, outcome)
    ensures Permitted(env, past, Verified(outcome))
  {
    assert Timely(past, Verified(outcome)) by {
      assert !Guarded(Verified(outcome));
    }
  }

  lemma SendPermitted(env: Env, past: Trace, bytes: seq<u8>, whole: bool)
    requires !Unverified(past) && MaySend(env, past, bytes, whole)
    ensures Permitted(env, past, Sent(bytes, whole))
  {
    assert Timely(past, Sent(bytes, whole)) by {
      assert !Guarded(Sent(bytes, whole));
    }
  }

  ghost predicate PermittedAt(env: Env, tr: Trace, i: nat)
    requires i < |tr|
  {
    Permitted(env, tr[..i], tr[i])
  }

  ghost predicate Lawful(env: Env, tr: Trace) {
    forall i: nat :: i < |tr| ==> PermittedAt(env, tr, i)
  }

  lemma Extend(env: Env, tr: Trace, e: Event)
    requires Lawful(env, tr) && Permitted(env, tr, e)
    ensures Lawful(env, tr + [e])
  {
    var more := tr + [e];
    forall i: nat | i < |more| ensures PermittedAt(env, more, i) {
      if i < |tr| {
        assert more[..i] == tr[..i];
        assert PermittedAt(env, tr, i);
      } else {
        assert more[..i] == tr;
      }
    }
  }

  lemma LawfulPrefix(env: Env, tr: Trace, i: nat)
    requires Lawful(env, tr) && i <= |tr|
    ensures Lawful(env, tr[..i])
  {
    forall j: nat | j < i ensures PermittedAt(env, tr[..i], j) {
      assert tr[..i][..j] == tr[..j];
      assert PermittedAt(env, tr, j);
    }
  }

  lemma LawfulAt(env: Env, tr: Trace, i: nat)
    requires Lawful(env, tr) && i < |tr|
    ensures Lawful(env, tr[..i]) && Permitted(env, tr[..i], tr[i])
  {
    LawfulPrefix(env, tr, i);
    assert PermittedAt(env, tr, i);
  }

  /** What holds whatever the event is. */
  lemma OrderAt(env: Env, tr: Trace, i: nat)
    requires Lawful(env, tr) && i < |tr|
    ensures Timely(tr[..i], tr[i])
  {
    assert PermittedAt(env, tr, i);
  }

  /** What an enrollment was found to be. */
  lemma VerifiedAt(env: Env, tr: Trace, i: nat) returns (volume: Volume, judged: Event)
    requires Lawful(env, tr) && i < |tr| && tr[i].Verified?
    ensures i > 0 && tr[i - 1].Enrolling? && tr[i - 1].ok
    ensures For(tr[..i], volume) && PlannedBy(tr[..i], volume, tr[i - 1].disk, judged)
    ensures tr[i].outcome == Conclusion(env, i, volume, judged)
  {
    assert PermittedAt(env, tr, i);
    var past := tr[..i];
    assert Last(past) == tr[i - 1];
    volume, judged :| For(past, volume) && PlannedBy(past, volume, Last(past).disk, judged)
      && tr[i].outcome == Conclusion(env, |past|, volume, judged);
  }
}

/** What follows for whole runs. */
module Runs {
  import opened Prelude
  import opened Tpm2
  import opened Token
  import opened Preflight
  import opened AskPw
  import opened Consent
  import opened History
  import opened Law
  import opened TpmMachine
  import BindName
  import Escape
  import Lists
  import Peer
  import Repair

  /** Once the signal has arrived, at most one more expensive step, preflight or
      connection starts in the whole rest of the run, and only in the very moment
      of its arrival. */
  lemma AtMostOneAfterSignal(env: Env, tr: Trace, i: nat)
    requires Lawful(env, tr) && i < |tr| && env.signal.Some? && env.signal.value <= i
    requires tr[i].Checked? || tr[i].Prompted? || tr[i].Asked? || tr[i].Enrolling? || tr[i].Judged? || tr[i].Contact?
    ensures env.signal == Some(i)
  {
    OrderAt(env, tr, i);
    assert tr[..i][i - 1] == tr[i - 1] == Polled(false);
    LawfulAt(env, tr, i - 1);
  }

  /** An enrollment that succeeded is verified at once, signal or not. */
  lemma EnrolledIsVerified(env: Env, tr: Trace, i: nat)
    requires Lawful(env, tr) && i + 1 < |tr| && tr[i].Enrolling? && tr[i].ok
    ensures tr[i + 1].Verified?
  {
    OrderAt(env, tr, i + 1);
    assert Last(tr[..i + 1]) == tr[i];
  }

  /** A connection is served exactly when the peer's name is a plain-phase one for
      the socket's own volume, and the kernel says of the process that it is
      root's, alive, running the expected binary, and in the volume's unit. */
  lemma GrantedExact(volume: Volume, name: Option<seq<u8>>, process: Option<Process>)
    ensures Granted(Contact(volume, name, process)) <==>
      && name.Some? && BindName.Parse(name.value) == Some(BindName.PeerName(BindName.Plain, volume.name))
      && process.Some? && process.value.root && process.value.alive && process.value.expectedBinary
      && Peer.InUnit(process.value.cgroup, "systemd-cryptsetup@" + Escape.UnitEscaped(volume.name) + ".service")
  {
  }

  /** The answer to a question is what the person's reply says: a yes if it is y
      or yes, an always if it is a or always, and otherwise, or without a reply, a
      no. */
  lemma AnswerIsReply(env: Env, tr: Trace, i: nat)
    requires Lawful(env, tr) && i < |tr| && tr[i].Asked?
    ensures tr[i].answer == Yes <==> ReplySays(env.answer(i), "y", "yes")
    ensures tr[i].answer == Always <==> ReplySays(env.answer(i), "a", "always")
  {
    LawfulAt(env, tr, i);
    if env.answer(i).Some? {
      ClassifyExact(env.answer(i).value);
    }
  }

  ghost predicate ReplySays(reply: Option<string>, word: string, longer: string) {
    reply.Some? && (Says(reply.value, word) || Says(reply.value, longer))
  }

  /** A prompt brings in nothing if it failed, and otherwise the first four lines
      of what it printed that are not empty. */
  lemma PromptedExact(env: Env, tr: Trace, i: nat)
    requires Lawful(env, tr) && i < |tr| && tr[i].Prompted?
    ensures var printed := env.prompt(i, tr[i].attempt);
      && (printed == None ==> tr[i].candidates == [])
      && (forall lines :: lines != [] && Lineless(lines) && printed == Some(Joined(lines)) ==>
        tr[i].candidates == FirstFour(NonEmpty(lines)))
  {
    LawfulAt(env, tr, i);
    forall lines | lines != [] && Lineless(lines) && env.prompt(i, tr[i].attempt) == Some(Joined(lines))
      ensures tr[i].candidates == FirstFour(NonEmpty(lines))
    {
      CandidatesExact(lines);
    }
  }

  /** What the keyring holds is accepted on a connection's first prompt and on no
      other. */
  lemma FirstPromptOnly(env: Env, tr: Trace, i: nat)
    requires Lawful(env, tr) && i < |tr| && tr[i].Prompted?
    ensures tr[i].attempt == First <==> forall e :: e in Current(tr[..i]) ==> !e.Prompted?
  {
    LawfulAt(env, tr, i);
    NoPrompts(Current(tr[..i]));
  }

  lemma {:induction false} NoPrompts(seg: Trace)
    ensures Prompts(seg) == 0 <==> forall e :: e in seg ==> !e.Prompted?
  {
    if seg != [] {
      NoPrompts(Init(seg));
      assert seg == Init(seg) + [Last(seg)];
    }
  }

  lemma SaidAt(tr: Trace, i: nat, j: nat)
    requires i < j <= |tr| && tr[i].Asked?
    ensures Said(tr[..j], tr[i].state, tr[i].answer)
  {
    assert tr[..j][i] == tr[i];
  }

  /** A refusal stands for the whole run, on every volume: that state is not
      enrolled, and not asked about again. */
  lemma NoIsFinal(env: Env, tr: Trace, i: nat, j: nat, state: seq<u8>)
    requires Lawful(env, tr) && i < j < |tr|
    requires state != [] && tr[i] == Asked(state, No)
    ensures !(tr[j].Enrolling? && tr[j].state == state)
    ensures !(tr[j].Asked? && tr[j].state == state)
  {
    SaidAt(tr, i, j);
    LawfulAt(env, tr, j);
  }

  /** An "always" is not asked about again either; so no state is ever both
      accepted for good and refused for good. */
  lemma AlwaysIsFinal(env: Env, tr: Trace, i: nat, j: nat, state: seq<u8>)
    requires Lawful(env, tr) && i < j < |tr|
    requires tr[i] == Asked(state, Always)
    ensures !(tr[j].Asked? && tr[j].state == state)
  {
    SaidAt(tr, i, j);
    LawfulAt(env, tr, j);
  }

  lemma SaidWhen(tr: Trace, state: seq<u8>, answer: Answer) returns (i: nat)
    requires Said(tr, state, answer)
    ensures i < |tr| && tr[i] == Asked(state, answer)
  {
    i :| 0 <= i < |tr| && tr[i] == Asked(state, answer);
  }

  lemma NeverBoth(env: Env, tr: Trace, state: seq<u8>)
    requires Lawful(env, tr) && state != []
    requires Said(tr, state, No)
    ensures !Said(tr, state, Always)
  {
    var i := SaidWhen(tr, state, No);
    if Said(tr, state, Always) {
      var j := SaidWhen(tr, state, Always);
      if i < j {
        NoIsFinal(env, tr, i, j, state);
      } else if j < i {
        AlwaysIsFinal(env, tr, j, i, state);
      }
    }
  }

  /** No connection was accepted from `k` on, up to `i`. */
  ghost predicate SameConnection(tr: Trace, k: nat, i: nat) {
    k < i <= |tr| && forall n :: k <= n < i ==> !tr[n].Contact?
  }

  /** Where an event of the connection current at `i` stands in the trace. */
  lemma {:induction false} CurrentSince(tr: Trace, i: nat, e: Event) returns (k: nat)
    requires i <= |tr| && e in Current(tr[..i])
    ensures SameConnection(tr, k, i) && tr[k] == e
    decreases i
  {
    var past := tr[..i];
    assert Init(past) == tr[..i - 1];
    if Last(past) == e {
      k := i - 1;
    } else {
      k := CurrentSince(tr, i - 1, e);
    }
  }

  lemma {:induction false} ServingSince(tr: Trace, k: nat, i: nat)
    requires k == i <= |tr| || SameConnection(tr, k, i)
    ensures Serving(tr[..i]) == Serving(tr[..k])
    decreases i
  {
    if k < i {
      assert Init(tr[..i]) == tr[..i - 1];
      assert !tr[i - 1].Contact?;
      ServingSince(tr, k, i - 1);
    }
  }

  // ---- The search for a passphrase ---------------------------------------

  lemma {:induction false} OneDisk(env: Env, tr: Trace, a: Option<Disk>, b: Option<Disk>)
    requires Lawful(env, tr) && Opened(a) in Current(tr) && Opened(b) in Current(tr)
    ensures a == b
    decreases |tr|
  {
    LawfulAt(env, tr, |tr| - 1);
    if !Last(tr).Opened? {
      OneDisk(env, Init(tr), a, b);
    }
  }

  /** Looking back one event, in a connection on which something was tried. */
  ghost predicate StepsBack(env: Env, past: Trace, e: Event, disk: Disk) {
    Opened(Some(disk)) in Current(past + [e]) && Searching(Current(past + [e])) && Tried(Current(past + [e])) != [] ==>
      && Opened(Some(disk)) in Current(past) && Searching(Current(past))
      && Tried(Current(past + [e])) == Tried(Current(past)) + (if e.Checked? then [e.secret] else [])
      && (e.Checked? ==> e == Checked(disk, e.secret, Wrong) && env.verdict(|past|, disk, e.secret) == Wrong)
      && !e.Contact?
  }

  ghost predicate StepsBackAt(env: Env, tr: Trace, i: nat, disk: Disk)
    requires i < |tr|
  {
    StepsBack(env, tr[..i], tr[i], disk)
  }

  lemma StepBack(env: Env, tr: Trace, i: nat, disk: Disk)
    requires Lawful(env, tr) && i < |tr|
    ensures StepsBackAt(env, tr, i, disk)
  {
    var past, e := tr[..i], tr[i];
    LawfulAt(env, tr, i);
    After(past, e);
    TriedMore(Current(past), e);
    if Searching(Current(past + [e])) && !e.Contact? {
      StillSearching(Current(past), e);
      if e.Opened? {
        NothingTried(env, past);
      } else if e.Checked? && Opened(Some(disk)) in Current(past) {
        OneDisk(env, past, Some(disk), Some(e.disk));
      }
    }
  }

  lemma OneBack(env: Env, tr: Trace, i: nat, disk: Disk)
    requires i <= |tr| && (i > 0 ==> StepsBackAt(env, tr, i - 1, disk)) && Tried(Current(tr[..i])) != []
    requires Opened(Some(disk)) in Current(tr[..i]) && Searching(Current(tr[..i]))
    ensures i > 0 && !tr[i - 1].Contact?
    ensures Opened(Some(disk)) in Current(tr[..i - 1]) && Searching(Current(tr[..i - 1]))
    ensures tr[i - 1].Checked? ==>
      && Tried(Current(tr[..i])) == Tried(Current(tr[..i - 1])) + [tr[i - 1].secret]
      && tr[i - 1] == Checked(disk, tr[i - 1].secret, Wrong) && env.verdict(i - 1, disk, tr[i - 1].secret) == Wrong
    ensures !tr[i - 1].Checked? ==> Tried(Current(tr[..i])) == Tried(Current(tr[..i - 1]))
  {
    assert tr[..i] == tr[..i - 1] + [tr[i - 1]];
  }

  ghost predicate FoundWrong(env: Env, tr: Trace, i: nat, disk: Disk, secret: Secret) {
    exists n: nat ::
      && SameConnection(tr, n, i) && tr[n] == Checked(disk, secret, Wrong)
      && env.verdict(n, disk, secret) == Wrong
  }

  lemma FoundStill(env: Env, tr: Trace, i: nat, disk: Disk, secret: Secret)
    requires i < |tr| && !tr[i].Contact? && FoundWrong(env, tr, i, disk, secret)
    ensures FoundWrong(env, tr, i + 1, disk, secret)
  {
    var n: nat :|
      SameConnection(tr, n, i) && tr[n] == Checked(disk, secret, Wrong) && env.verdict(n, disk, secret) == Wrong;
    assert SameConnection(tr, n, i + 1);
  }

  /** While the search goes on, everything tried was checked on this connection
      against the device in use, and found wrong. */
  lemma {:induction false} TriedFoundWrong(env: Env, tr: Trace, i: nat, disk: Disk, secret: Secret)
    requires Lawful(env, tr) && i <= |tr| && secret in Tried(Current(tr[..i]))
    requires Opened(Some(disk)) in Current(tr[..i]) && Searching(Current(tr[..i]))
    ensures FoundWrong(env, tr, i, disk, secret)
    decreases i
  {
    if i > 0 {
      StepBack(env, tr, i - 1, disk);
    }
    OneBack(env, tr, i, disk);
    if tr[i - 1].Checked? && tr[i - 1].secret == secret {
      assert SameConnection(tr, i - 1, i);
    } else {
      TriedFoundWrong(env, tr, i - 1, disk, secret);
      FoundStill(env, tr, i - 1, disk, secret);
    }
  }

  lemma StillSearching(seg: Trace, e: Event)
    requires Searching(seg + [e])
    ensures Searching(seg) && (e.Checked? ==> e.verdict.Wrong?)
  {
    assert e in seg + [e];
    assert forall p :: p in seg ==> p in seg + [e];
  }

  /** Before the device is opened nothing is tried. */
  lemma {:induction false} NothingTried(env: Env, past: Trace)
    requires Lawful(env, past) && forall p :: p in Current(past) ==> !p.Opened?
    ensures Tried(Current(past)) == []
    decreases |past|
  {
    if Current(past) != [] {
      var init, e := Init(past), Last(past);
      LawfulAt(env, past, |init|);
      assert past == init + [e];
      After(init, e);
      assert forall p :: p in Current(init) ==> p in Current(past);
      NothingTried(env, init);
      TriedMore(Current(init), e);
    }
  }

  /** The prompts of a connection: at most three, of at most four secrets. */
  lemma {:induction false} OfferedBound(env: Env, tr: Trace)
    requires Lawful(env, tr)
    ensures Prompts(Current(tr)) <= TRIES
    ensures |Offered(Current(tr))| <= MAX_CANDIDATES * Prompts(Current(tr))
    decreases |tr|
  {
    if tr != [] {
      var past, e := Init(tr), Last(tr);
      LawfulAt(env, tr, |past|);
      OfferedBound(env, past);
      assert tr == past + [e];
      After(past, e);
      TriedMore(Current(past), e);
    }
  }

  /** A connection costs no more checks than there were secrets known and three
      prompts can bring in. */
  lemma SearchBounded(env: Env, tr: Trace, i: nat)
    requires Lawful(env, tr) && i < |tr| && (tr[i].Checked? || tr[i].Prompted?)
    ensures tr[i].Checked? ==> |Tried(Current(tr[..i]))| + 1 <= |Learned(tr[..i])| + 3 * 4
    ensures tr[i].Prompted? ==> Prompts(Current(tr[..i])) + 1 <= 3
  {
    LawfulAt(env, tr, i);
    OfferedBound(env, tr[..i]);
  }

  /** The secret that opens the device is the first that does, of those that
      opened something earlier in the run, in order, followed by those typed on
      this connection, in order: everything before it was checked on this
      connection against the same device and found wrong. */
  lemma FirstThatOpens(env: Env, tr: Trace, i: nat) returns (all: seq<Secret>, k: nat)
    requires Lawful(env, tr) && i < |tr| && tr[i].Checked? && tr[i].verdict == Correct
    ensures all == Learned(tr[..i]) + Offered(Current(tr[..i]))
    ensures k < |all| && all[k] == tr[i].secret
    ensures forall j :: 0 <= j < k ==> FoundWrong(env, tr, i, tr[i].disk, all[j])
  {
    LawfulAt(env, tr, i);
    var tried := Tried(Current(tr[..i]));
    all, k := Learned(tr[..i]) + Offered(Current(tr[..i])), |tried|;
    assert all[k] == (tried + [tr[i].secret])[k];
    forall j | 0 <= j < k ensures FoundWrong(env, tr, i, tr[i].disk, all[j]) {
      assert all[j] == (tried + [tr[i].secret])[j] == tried[j];
      TriedFoundWrong(env, tr, i, tr[i].disk, tried[j]);
    }
  }

  /** A person is asked for a passphrase only when every secret that opened
      something earlier in the run has been found not to open this device. */
  lemma PromptOnlyWhenNeeded(env: Env, tr: Trace, i: nat, secret: Secret) returns (disk: Disk)
    requires Lawful(env, tr) && i < |tr| && tr[i].Prompted?
    requires secret in Learned(tr[..i]) || secret in Offered(Current(tr[..i]))
    ensures Opened(Some(disk)) in Current(tr[..i]) && FoundWrong(env, tr, i, disk, secret)
  {
    LawfulAt(env, tr, i);
    disk :| Opened(Some(disk)) in Current(tr[..i]);
    assert secret in Tried(Current(tr[..i]));
    TriedFoundWrong(env, tr, i, disk, secret);
  }

  /** Only secrets that opened something are remembered, each once. */
  lemma {:induction false} LearnedOpened(tr: Trace, k: nat) returns (i: nat)
    requires k < |Learned(tr)|
    ensures i < |tr| && tr[i].Checked? && tr[i].verdict.Correct? && tr[i].secret == Learned(tr)[k]
    ensures forall j :: 0 <= j < k ==> Learned(tr)[j] != Learned(tr)[k]
    ensures k < |Learned(tr[..i + 1])| && forall n :: 0 <= n < i ==> !OpenedWith(tr[n], tr[i].secret)
    decreases |tr|
  {
    assert tr != [];
    var init, e := Init(tr), Last(tr);
    assert tr == init + [e];
    LearnedMore(init, e);
    if k < |Learned(init)| {
      i := LearnedOpened(init, k);
      assert tr[..i + 1] == init[..i + 1];
    } else {
      i := |init|;
      assert tr[..i + 1] == tr;
      NeverOpened(init, e.secret);
    }
  }

  lemma NeverOpened(tr: Trace, secret: Secret)
    requires secret !in Learned(tr)
    ensures forall n :: 0 <= n < |tr| ==> !OpenedWith(tr[n], secret)
  {
    forall n | 0 <= n < |tr| ensures !OpenedWith(tr[n], secret) {
      if OpenedWith(tr[n], secret) {
        OpenedLearned(tr, n);
      }
    }
  }

  predicate OpenedWith(e: Event, secret: Secret) {
    e.Checked? && e.verdict.Correct? && e.secret == secret
  }

  lemma {:induction false} OpenedLearned(tr: Trace, i: nat)
    requires i < |tr| && tr[i].Checked? && tr[i].verdict.Correct?
    ensures tr[i].secret in Learned(tr)
    decreases |tr|
  {
    assert tr == Init(tr) + [Last(tr)];
    LearnedMore(Init(tr), Last(tr));
    if i < |tr| - 1 {
      OpenedLearned(Init(tr), i);
    }
  }

  /** So one passphrase shared by several volumes is typed once: with a verdict
      that depends on nothing but the device and the secret, after a secret has
      opened anything, no connection whose device it opens prompts. */
  lemma SharedTypedOnce(env: Env, tr: Trace, i: nat, j: nat, disk: Disk, truth: (Disk, Secret) -> Verdict)
    requires Lawful(env, tr) && i < j < |tr| && Steady(env, truth)
    requires tr[i].Checked? && tr[i].verdict.Correct?
    requires Opened(Some(disk)) in Current(tr[..j]) && truth(disk, tr[i].secret) == Correct
    ensures !tr[j].Prompted?
  {
    if tr[j].Prompted? {
      LearnedBefore(tr, i, j);
      var d := PromptOnlyWhenNeeded(env, tr, j, tr[i].secret);
      SteadyWrong(env, tr, j, d, tr[i].secret, truth);
      LawfulPrefix(env, tr, j);
      OneDisk(env, tr[..j], Some(disk), Some(d));
    }
  }

  lemma LearnedBefore(tr: Trace, i: nat, j: nat)
    requires i < j < |tr| && tr[i].Checked? && tr[i].verdict.Correct?
    ensures tr[i].secret in Learned(tr[..j])
  {
    assert tr[..j][i] == tr[i];
    OpenedLearned(tr[..j], i);
  }

  lemma SteadyWrong(env: Env, tr: Trace, j: nat, disk: Disk, secret: Secret, truth: (Disk, Secret) -> Verdict)
    requires Steady(env, truth) && FoundWrong(env, tr, j, disk, secret)
    ensures truth(disk, secret) == Wrong
  {
  }

  ghost predicate Steady(env: Env, truth: (Disk, Secret) -> Verdict) {
    forall n, d, s :: env.verdict(n, d, s) == truth(d, s)
  }

  // ---- Enrollment --------------------------------------------------------

  /** The connection being handled was delivered by the socket of a configured
      volume, and this is the process the kernel reported for it. */
  ghost predicate DeliveredAt(env: Env, tr: Trace, c: nat, volume: Volume) {
    && c < |tr| && tr[c].Contact? && tr[c].volume == volume && Granted(tr[c])
    && MayAccept(env, tr[..c], volume, tr[c].name, tr[c].process)
  }

  lemma {:induction false} ServingAt(tr: Trace, i: nat) returns (c: nat)
    requires i <= |tr| && Serving(tr[..i]).Some?
    ensures c < i && tr[c] == Serving(tr[..i]).value && tr[c].Contact?
    ensures c + 1 == i || SameConnection(tr, c + 1, i)
    decreases i
  {
    assert Init(tr[..i]) == tr[..i - 1];
    if tr[i - 1].Contact? {
      c := i - 1;
    } else {
      c := ServingAt(tr, i - 1);
    }
  }

  lemma Delivered(env: Env, tr: Trace, i: nat, volume: Volume) returns (c: nat)
    requires Lawful(env, tr) && i <= |tr| && For(tr[..i], volume)
    ensures c < i && (c + 1 == i || SameConnection(tr, c + 1, i))
    ensures DeliveredAt(env, tr, c, volume)
  {
    c := ServingAt(tr, i);
    LawfulAt(env, tr, c);
  }

  /** The disk in use on a connection is what opening its volume's device gave. */
  lemma DiskIsVolumes(env: Env, tr: Trace, i: nat, volume: Volume, disk: Disk) returns (k: nat)
    requires Lawful(env, tr) && i <= |tr| && For(tr[..i], volume) && Opened(Some(disk)) in Current(tr[..i])
    ensures SameConnection(tr, k, i) && tr[k] == Opened(Some(disk)) && Some(disk) == env.open(k, volume.device)
  {
    k := CurrentSince(tr, i, Opened(Some(disk)));
    LawfulAt(env, tr, k);
    ServingSince(tr, k, i);
  }

  /** No header is rewritten without cause. An enrollment at position `i` of a
      run belongs to a plain-phase connection that the socket of a configured
      volume delivered from a process trusted for it; the passphrase opened that very device on that connection; the
      preflight planned it; and what is sealed is the configured selection. */
  lemma EnrollmentJustified(env: Env, tr: Trace, i: nat)
    returns (volume: Volume, accepted: nat, atOpen: nat, checked: nat, judged: nat)
    requires Lawful(env, tr) && i < |tr| && tr[i].Enrolling?
    ensures For(tr[..i], volume)
    ensures accepted < atOpen && SameConnection(tr, accepted + 1, i) && DeliveredAt(env, tr, accepted, volume)
    ensures SameConnection(tr, atOpen, i) && Some(tr[i].disk) == env.open(atOpen, volume.device)
    ensures tr[i].pcrs == volume.pcrs && tr[i].bank == volume.bank
    ensures SameConnection(tr, checked, i) && tr[checked] == Checked(tr[i].disk, tr[i].secret, Correct)
    ensures env.verdict(checked, tr[i].disk, tr[i].secret) == Correct && tr[i].ok == env.enroll(i, tr[i].disk)
    ensures SameConnection(tr, judged, i) && PlannedBy(tr[..i], volume, tr[i].disk, tr[judged])
    ensures tr[judged].decision.plan.state == tr[i].state
  {
    LawfulAt(env, tr, i);
    var past, e := tr[..i], tr[i];
    volume :| For(past, volume) && Opened(Some(e.disk)) in Current(past) && Validated(past, e.disk, e.secret)
      && Planned(past, volume, e.disk, e.state) && e.pcrs == volume.pcrs && e.bank == volume.bank;
    accepted := Delivered(env, tr, i, volume);
    atOpen := DiskIsVolumes(env, tr, i, volume, e.disk);
    checked := CurrentSince(tr, i, Checked(e.disk, e.secret, Correct));
    VerdictAt(env, tr, checked);
    var event :| PlannedBy(past, volume, e.disk, event) && event.decision.plan.state == e.state;
    judged := CurrentSince(tr, i, event);
  }

  /** What a check is recorded to have found is what it found. */
  lemma VerdictAt(env: Env, tr: Trace, i: nat)
    requires Lawful(env, tr) && i < |tr| && tr[i].Checked?
    ensures tr[i].verdict == env.verdict(i, tr[i].disk, tr[i].secret)
  {
    LawfulAt(env, tr, i);
  }

  /** And the preflight that planned it saw the volume's header and the TPM as
      they were then: the header held one plain token, without a PIN, for the
      configured selection, the TPM was not in lockout, no host policy existed,
      and the policy over the registers was no longer the token's. */
  lemma PlannedOnEvidence(env: Env, tr: Trace, i: nat, j: nat, volume: Volume, disk: Disk)
    requires Lawful(env, tr) && i <= |tr| && SameConnection(tr, j, i)
    requires For(tr[..i], volume) && PlannedBy(tr[..i], volume, disk, tr[j])
    ensures env.header(j, disk).Some? && tr[j].header == Tokens(env.header(j, disk).value)
    ensures tr[j].files == env.files(j) && env.tpm(j, volume.tpm2Device) == Some(tr[j].dev)
    ensures Repairable(tr[j].dev, [], TokensRead(env.header(j, disk)), env.files(j), volume, tr[j].decision.plan)
  {
    ServingSince(tr, j, i);
    LawfulAt(env, tr, j);
  }

  /** And a human agreed to it: on this connection, or earlier in the run and
      for good, and in either case for the identical state. */
  lemma EnrollmentAgreed(env: Env, tr: Trace, i: nat) returns (agreed: nat)
    requires Lawful(env, tr) && i < |tr| && tr[i].Enrolling?
    ensures agreed < i && tr[agreed].Asked? && tr[agreed].state == tr[i].state
    ensures tr[agreed].answer == Always || (tr[agreed].answer == Yes && SameConnection(tr, agreed, i))
    ensures if tr[agreed].answer == Yes then ReplySays(env.answer(agreed), "y", "yes")
            else ReplySays(env.answer(agreed), "a", "always")
  {
    LawfulAt(env, tr, i);
    agreed := AgreementAt(tr, i, tr[i].state);
    AnswerIsReply(env, tr, agreed);
  }

  lemma AgreementAt(tr: Trace, i: nat, state: seq<u8>) returns (agreed: nat)
    requires i <= |tr| && (Asked(state, Yes) in Current(tr[..i]) || Said(tr[..i], state, Always))
    ensures agreed < i && tr[agreed].Asked? && tr[agreed].state == state
    ensures tr[agreed].answer == Always || (tr[agreed].answer == Yes && SameConnection(tr, agreed, i))
  {
    if Asked(state, Yes) in Current(tr[..i]) {
      agreed := CurrentSince(tr, i, Asked(state, Yes));
    } else {
      agreed := SaidWhen(tr[..i], state, Always);
    }
  }

  /** What is looked at after an enrollment is the volume's own header, on the
      TPM that planned it; and where that TPM conforms, with a session to spare,
      and the enrollment wrote what it was asked to, verification succeeds. */
  lemma RepairVerified(env: Env, tr: Trace, i: nat, m: Machine, init: State) returns (volume: Volume, judged: nat)
    requires Lawful(env, tr) && 0 < i < |tr| && tr[i].Verified?
    ensures tr[i - 1].Enrolling? && tr[i - 1].ok
    ensures For(tr[..i], volume)
    ensures SameConnection(tr, judged, i) && PlannedBy(tr[..i], volume, tr[i - 1].disk, tr[judged])
    ensures tr[i].outcome == Conclusion(env, i, volume, tr[judged])
    ensures Good(tr[i].outcome) <==> GoodAt(env, i, volume, tr[judged])
    ensures tr[i].outcome == NotReread <==>
      env.header(i, tr[i - 1].disk) == None || Tokens(env.header(i, tr[i - 1].disk).value).Err?
    ensures Faithful(env, i, m, init, volume, tr[judged]) ==> Good(tr[i].outcome)
  {
    var event;
    volume, event := VerifiedAt(env, tr, i);
    judged := CurrentSince(tr, i, event);
    ConclusionGood(env, i, volume, event);
    ConclusionRead(env, i, volume, event);
    if Faithful(env, i, m, init, volume, event) {
      FaithfulGood(env, i, m, init, volume, event);
    }
  }

  /** The header, read again, has one token off the old index, a plain one for the
      configured selection, and it unseals, or the TPM that planned the repair has
      just that policy over the registers. */
  ghost predicate GoodAt(env: Env, n: nat, volume: Volume, judged: Event)
    requires judged.Judged? && judged.decision.Reenroll?
  {
    var header := env.header(n, judged.disk);
    && header.Some? && Tokens(header.value).Ok?
    && exists t ::
      && Sole(Tokens(header.value).value, judged.decision.plan.oldToken, t) && Fits(t, volume)
      && (|| env.unseal(n, judged.disk)(t.index)
          || Satisfied(judged.dev, LogBefore(judged.dev, judged.header, judged.files, volume), volume, t.policyHash))
  }

  lemma ConclusionGood(env: Env, n: nat, volume: Volume, judged: Event)
    requires judged.Judged? && judged.decision.Reenroll?
    ensures Good(Conclusion(env, n, volume, judged)) <==> GoodAt(env, n, volume, judged)
  {
    GoodExact(judged.dev, LogBefore(judged.dev, judged.header, judged.files, volume),
      TokensRead(env.header(n, judged.disk)), env.unseal(n, judged.disk), volume, judged.decision.plan);
  }

  lemma ConclusionRead(env: Env, n: nat, volume: Volume, judged: Event)
    requires judged.Judged? && judged.decision.Reenroll?
    ensures Conclusion(env, n, volume, judged) == NotReread <==>
      env.header(n, judged.disk) == None || Tokens(env.header(n, judged.disk).value).Err?
  {
    VerifyExact(judged.dev, LogBefore(judged.dev, judged.header, judged.files, volume),
      TokensRead(env.header(n, judged.disk)), env.unseal(n, judged.disk), volume, judged.decision.plan);
  }

  /** Every preflight judges what there is: the header as it is read then, or that
      it cannot be, and the host's files. */
  lemma JudgedOn(env: Env, tr: Trace, j: nat)
    requires Lawful(env, tr) && j < |tr| && tr[j].Judged?
    ensures env.header(j, tr[j].disk) == None ==> tr[j].header == Err(NotRead) && tr[j].decision == Leave(Unreadable)
    ensures env.header(j, tr[j].disk).Some? ==> tr[j].header == Tokens(env.header(j, tr[j].disk).value)
    ensures tr[j].files == env.files(j)
  {
    LawfulAt(env, tr, j);
  }

  /** The TPM conforms, the volume is configured, and the enrollment wrote what
      it was asked to. */
  ghost predicate Faithful(env: Env, n: nat, m: Machine, init: State, volume: Volume, judged: Event)
    requires judged.Judged? && judged.decision.Reenroll?
  {
    && judged.dev == Conforming(m, init) && Sound(m) && |init| < m.slots
    && Repair.Canonical(volume) && (forall x :: x in volume.pcrs ==> x <= 23)
    && env.header(n, judged.disk).Some?
    && Repair.Enrolled(env.header(n, judged.disk).value, judged.decision.plan.oldToken, volume.pcrs, volume.bank,
      PolicyOf(m, volume.bank.Alg(), Lists.Elements(volume.pcrs)))
  }

  lemma FaithfulGood(env: Env, n: nat, m: Machine, init: State, volume: Volume, judged: Event)
    requires judged.Judged? && judged.decision.Reenroll? && Faithful(env, n, m, init, volume, judged)
    ensures Good(Conclusion(env, n, volume, judged))
  {
    var log := LogBefore(judged.dev, judged.header, judged.files, volume);
    Repair.CheckLeaves(m, init, [], judged.header, judged.files, volume);
    ReadPcrsTrue(m, init, Check(judged.dev, [], judged.header, judged.files, volume).1, volume.bank, volume.pcrs);
    Repair.RepairHolds(m, init, log, volume, judged.decision.plan, env.header(n, judged.disk).value, judged.files,
      env.unseal(n, judged.disk));
  }

  /** No byte is sent without cause: only on a plain-phase connection from a
      trusted process for the volume, only the beginning of a passphrase that
      opened the volume's device on this connection, and all of it exactly
      when the write succeeded. */
  lemma BytesJustified(env: Env, tr: Trace, i: nat)
    returns (volume: Volume, accepted: nat, atOpen: nat, checked: nat)
    requires Lawful(env, tr) && i < |tr| && tr[i].Sent?
    ensures For(tr[..i], volume)
    ensures accepted < atOpen && SameConnection(tr, accepted + 1, i) && DeliveredAt(env, tr, accepted, volume)
    ensures SameConnection(tr, atOpen, i) && tr[atOpen] == Opened(env.open(atOpen, volume.device))
    ensures SameConnection(tr, checked, i) && tr[checked].Checked? && tr[checked].verdict == Correct
    ensures env.verdict(checked, tr[checked].disk, tr[checked].secret) == Correct
    ensures tr[atOpen].found == Some(tr[checked].disk)
    ensures tr[i].bytes <= tr[checked].secret && (tr[i].whole <==> tr[i].bytes == tr[checked].secret)
  {
    var disk;
    volume, disk, checked := BytesOf(env, tr, i);
    VerdictAt(env, tr, checked);
    accepted := Delivered(env, tr, i, volume);
    atOpen := DiskIsVolumes(env, tr, i, volume, disk);
  }

  /** The check that stands behind what is sent. */
  lemma BytesOf(env: Env, tr: Trace, i: nat) returns (volume: Volume, disk: Disk, checked: nat)
    requires Lawful(env, tr) && i < |tr| && tr[i].Sent?
    ensures For(tr[..i], volume) && Opened(Some(disk)) in Current(tr[..i])
    ensures SameConnection(tr, checked, i) && tr[checked].Checked? && tr[checked].verdict == Correct
    ensures tr[checked].disk == disk
    ensures tr[i].bytes <= tr[checked].secret && (tr[i].whole <==> tr[i].bytes == tr[checked].secret)
  {
    LawfulAt(env, tr, i);
    var past, e := tr[..i], tr[i];
    var v, d, secret :| For(past, v) && Opened(Some(d)) in Current(past) && Validated(past, d, secret)
      && e.bytes <= secret && (e.whole <==> e.bytes == secret);
    volume, disk := v, d;
    checked := CurrentSince(tr, i, Checked(d, secret, Correct));
  }

  lemma {:induction false} StillCurrent(tr: Trace, k: nat, i: nat)
    requires SameConnection(tr, k, i)
    ensures tr[k] in Current(tr[..i])
    decreases i
  {
    assert Init(tr[..i]) == tr[..i - 1];
    if k < i - 1 {
      StillCurrent(tr, k, i - 1);
    }
  }

  /** On one connection, nothing is checked or sent before the check that
      succeeds, and nothing is checked after it. */
  lemma NothingBefore(env: Env, tr: Trace, i: nat, k: nat)
    requires Lawful(env, tr) && i < |tr| && tr[i].Checked? && SameConnection(tr, k, i)
    ensures !tr[k].Sent? && !(tr[k].Checked? && tr[k].verdict.Correct?)
  {
    LawfulAt(env, tr, i);
    StillCurrent(tr, k, i);
  }

  /** The connection current at `i` is over at `j`: another is accepted there, or
      the run is. */
  ghost predicate OverAt(tr: Trace, i: nat, j: nat) {
    && SameConnection(tr, i, j)
    && if j < |tr| then tr[j].Contact? else !Owes(tr)
  }

  /** A passphrase that was acquired is sent, whatever comes of the repair and
      whether or not the daemon is asked to stop meanwhile: that very passphrase
      or the beginning of it, and all of it exactly when the write succeeds. */
  lemma AcquiredIsSent(env: Env, tr: Trace, i: nat, j: nat) returns (n: nat)
    requires Lawful(env, tr) && i < |tr| && tr[i].Checked? && tr[i].verdict.Correct? && OverAt(tr, i, j)
    ensures i < n < j && tr[n].Sent?
    ensures tr[n].bytes <= tr[i].secret && (tr[n].whole <==> tr[n].bytes == tr[i].secret)
  {
    NotOwed(env, tr, i, j);
    n := SentBefore(tr, i, j);
    SentAfter(env, tr, i, n, j);
    BytesAre(env, tr, i, n);
  }

  lemma SentAfter(env: Env, tr: Trace, i: nat, n: nat, j: nat)
    requires Lawful(env, tr) && SameConnection(tr, i, j) && SameConnection(tr, n, j) && i < |tr|
    requires tr[i].Checked? && tr[n].Sent?
    ensures SameConnection(tr, i, n)
  {
    if n < i {
      NothingBefore(env, tr, i, n);
    }
  }

  /** What is sent is of the passphrase that was acquired. */
  lemma BytesAre(env: Env, tr: Trace, i: nat, n: nat)
    requires Lawful(env, tr) && n < |tr| && SameConnection(tr, i, n) && tr[n].Sent?
    requires tr[i].Checked? && tr[i].verdict.Correct?
    ensures tr[n].bytes <= tr[i].secret && (tr[n].whole <==> tr[n].bytes == tr[i].secret)
  {
    var _, _, checked := BytesOf(env, tr, n);
    OneCorrect(env, tr, i, checked, n);
  }

  lemma SentBefore(tr: Trace, i: nat, j: nat) returns (n: nat)
    requires SameConnection(tr, i, j) && tr[i].Checked? && tr[i].verdict.Correct? && !Owes(tr[..j])
    ensures SameConnection(tr, n, j) && tr[n].Sent?
  {
    StillCurrent(tr, i, j);
    assert SentAlready(tr[..j]);
    var e :| e in Current(tr[..j]) && e.Sent?;
    n := CurrentSince(tr, j, e);
  }

  lemma OneCorrect(env: Env, tr: Trace, i: nat, k: nat, n: nat)
    requires Lawful(env, tr) && SameConnection(tr, i, n) && SameConnection(tr, k, n)
    requires tr[i].Checked? && tr[i].verdict.Correct? && tr[k].Checked? && tr[k].verdict.Correct?
    ensures i == k
  {
    if k < i {
      NothingBefore(env, tr, i, k);
    } else if i < k {
      NothingBefore(env, tr, k, i);
    }
  }

  lemma NotOwed(env: Env, tr: Trace, i: nat, j: nat)
    requires Lawful(env, tr) && OverAt(tr, i, j)
    ensures !Owes(tr[..j])
  {
    if j < |tr| {
      LawfulAt(env, tr, j);
    } else {
      assert tr[..j] == tr;
    }
  }

  /** One process cannot be trusted for two volumes. */
  lemma TrustedForOne(process: Option<Process>, v: seq<u8>, w: seq<u8>)
    requires Trusted(process, v) && Trusted(process, w)
    ensures v == w
  {
    Peer.OneVolumePerCgroup(process.value.cgroup, v, w);
  }
}
