/** Trial sessions occupy one of a small number of TPM slots. This module
    follows the set of live sessions through everything the client sends. */
module Sessions {
  import opened Prelude
  import opened Wire
  import opened Tpm2
  import opened TpmClient
  import Lists

  function CodeOf(cmd: seq<u8>): u32 {
    if |cmd| < 10 then 0 else OfU32(cmd[6..10])
  }

  function HandleIn(cmd: seq<u8>): u32 {
    if |cmd| < 14 then 0 else OfU32(cmd[10..14])
  }

  lemma CodeOfCommand(cc: u32, body: seq<u8>)
    ensures CodeOf(Command(cc, body)) == cc
    ensures |body| == 4 ==> HandleIn(Command(cc, body)) == OfU32(body)
  {
    var cmd := Command(cc, body);
    assert cmd[6..10] == U32(cc);
    BigEndian(cc, U32(0));
    if |body| == 4 {
      assert cmd[10..14] == body;
    }
  }

  /** The sessions a device holds after each log. */
  type Live = Log -> set<int>

  /** How one command may change the live sessions. Only StartAuthSession adds
      one, under a handle that was free; only FlushContext removes one. When
      the answer is lost or refused the client cannot know whether it did. */
  ghost predicate TracksCommand(dev: Device, live: Live, log: Log, cmd: seq<u8>) {
    var log' := log + [cmd];
    if CodeOf(cmd) == CC_START_AUTH_SESSION then
      match HandleOf(dev, log')
      case Ok(h) => h !in live(log) && live(log') == live(log) + {h}
      case Err(_) => exists h :: live(log) <= live(log') <= live(log) + {h}
    else if CodeOf(cmd) == CC_FLUSH_CONTEXT then
      if Payload(dev, log').Ok? then live(log') == live(log) - {HandleIn(cmd)}
      else live(log) - {HandleIn(cmd)} <= live(log') <= live(log)
    else live(log') == live(log)
  }

  ghost predicate TracksSessions(dev: Device, live: Live) {
    forall log, cmd :: TracksCommand(dev, live, log, cmd)
  }

  lemma Step(dev: Device, live: Live, log: Log, cc: u32, body: seq<u8>)
    requires TracksSessions(dev, live)
    ensures TracksCommand(dev, live, log, Command(cc, body)) && CodeOf(Command(cc, body)) == cc
    ensures cc != CC_START_AUTH_SESSION && cc != CC_FLUSH_CONTEXT ==> live(Sent(log, cc, body)) == live(log)
  {
    CodeOfCommand(cc, body);
    assert TracksCommand(dev, live, log, Command(cc, body));
  }

  ghost predicate OneMoreAt(live: Live, base: set<int>, log: Log) {
    exists h :: live(log) <= base + {h}
  }

  /** Every log between `from` and `to` holds at most one session more than
      `base`. */
  ghost predicate AtMostOneMore(live: Live, base: set<int>, from: Log, to: Log) {
    && from <= to
    && forall k :: |from| <= k <= |to| ==> OneMoreAt(live, base, to[..k])
  }

  lemma OneStepMore(live: Live, base: set<int>, from: Log, log: Log, cmd: seq<u8>, h: int)
    requires AtMostOneMore(live, base, from, log)
    requires live(log + [cmd]) <= base + {h}
    ensures AtMostOneMore(live, base, from, log + [cmd])
  {
    var to := log + [cmd];
    forall k | |from| <= k <= |to| ensures OneMoreAt(live, base, to[..k]) {
      if k == |to| {
        assert to[..k] == to;
      } else {
        assert to[..k] == log[..k];
      }
    }
  }

  lemma NoStepMore(live: Live, base: set<int>, log: Log, h: int)
    requires live(log) <= base + {h}
    ensures AtMostOneMore(live, base, log, log)
  {
    assert log[..|log|] == log;
  }

  lemma Joined(live: Live, base: set<int>, from: Log, mid: Log, to: Log)
    requires AtMostOneMore(live, base, from, mid) && AtMostOneMore(live, base, mid, to)
    ensures AtMostOneMore(live, base, from, to)
  {
    forall k | |from| <= k <= |to| ensures OneMoreAt(live, base, to[..k]) {
      if k < |mid| {
        assert to[..k] == mid[..k];
      }
    }
  }

  // ---- One policy computation --------------------------------------------

  lemma BuildPolicyKeeps(dev: Device, live: Live, base: set<int>, log: Log, session: u32, bank: Bank, indices: seq<u8>)
    requires TracksSessions(dev, live)
    requires live(log) <= base + {session}
    ensures var (_, log') := BuildPolicy(dev, log, session, bank, indices);
      live(log') == live(log) && AtMostOneMore(live, base, log, log')
  {
    var body := PolicyPcrBody(session, bank, Lists.Elements(indices));
    NoStepMore(live, base, log, session);
    Step(dev, live, log, CC_POLICY_PCR, body);
    OneStepMore(live, base, log, log, Command(CC_POLICY_PCR, body), session);
    var log1 := Sent(log, CC_POLICY_PCR, body);
    Step(dev, live, log1, CC_POLICY_GET_DIGEST, U32(session));
    OneStepMore(live, base, log, log1, Command(CC_POLICY_GET_DIGEST, U32(session)), session);
    var (_, log') := BuildPolicy(dev, log, session, bank, indices);
    assert log' == log1 || log' == Sent(log1, CC_POLICY_GET_DIGEST, U32(session));
  }

  /** The session opened is the only one opened, and it is released again
      whatever became of the policy -- provided its handle was decoded and the
      flush succeeded. Without a handle there is nothing to flush. */
  lemma PolicyDigestReleases(dev: Device, live: Live, log: Log, bank: Bank, indices: seq<u8>)
    requires TracksSessions(dev, live)
    ensures var (_, log') := PolicyDigest(dev, log, bank, indices);
      && AtMostOneMore(live, live(log), log, log')
      && (StartSession(dev, log).0.Ok? && Payload(dev, log').Ok? ==> live(log') == live(log))
  {
    var (session, log1) := StartSession(dev, log);
    NoStepMore(live, live(log), log, 0);
    Step(dev, live, log, CC_START_AUTH_SESSION, StartBody());
    match session
    case Err(_) =>
      var h :| live(log) <= live(log1) <= live(log) + {h};
      OneStepMore(live, live(log), log, log, Command(CC_START_AUTH_SESSION, StartBody()), h);
    case Ok(handle) =>
      OneStepMore(live, live(log), log, log, Command(CC_START_AUTH_SESSION, StartBody()), handle);
      BuildPolicyKeeps(dev, live, live(log), log1, handle, bank, indices);
      var (_, log2) := BuildPolicy(dev, log1, handle, bank, indices);
      Joined(live, live(log), log, log1, log2);
      Step(dev, live, log2, CC_FLUSH_CONTEXT, U32(handle));
      CodeOfCommand(CC_FLUSH_CONTEXT, U32(handle));
      BigEndian(handle, U32(0));
      OneStepMore(live, live(log), log, log2, Command(CC_FLUSH_CONTEXT, U32(handle)), handle);
  }

  // ---- Any run of the client ---------------------------------------------

  datatype Request = AskLockout | AskPcrs(bank: Bank, indices: seq<u8>) | AskPolicy(bank: Bank, indices: seq<u8>)

  function Serve(dev: Device, log: Log, request: Request): Log {
    match request
    case AskLockout => LockoutAfter(dev, log).1
    case AskPcrs(bank, indices) => ReadPcrs(dev, log, bank, indices).1
    case AskPolicy(bank, indices) => PolicyDigest(dev, log, bank, indices).1
  }

  function ServeAll(dev: Device, log: Log, requests: seq<Request>): Log
    decreases |requests|
  {
    if requests == [] then log else ServeAll(dev, Serve(dev, log, requests[0]), requests[1..])
  }

  /** No reply that would have settled a session's fate went missing: a session
      was opened with a readable handle and flushed with success, or none was
      opened. */
  ghost predicate Settled(dev: Device, live: Live, log: Log, request: Request) {
    request.AskPolicy? ==>
      if StartSession(dev, log).0.Ok? then Payload(dev, Serve(dev, log, request)).Ok?
      else live(Serve(dev, log, request)) == live(log)
  }

  ghost predicate AllSettled(dev: Device, live: Live, log: Log, requests: seq<Request>)
    decreases |requests|
  {
    requests == [] ||
    (Settled(dev, live, log, requests[0]) && AllSettled(dev, live, Serve(dev, log, requests[0]), requests[1..]))
  }

  lemma {:induction false} ReadRoundsKeeps(
    dev: Device, live: Live, log: Log, bank: Bank, remaining: seq<u8>, out: Reading)
    requires TracksSessions(dev, live)
    ensures var (_, log') := ReadRounds(dev, log, bank, remaining, out);
      live(log') == live(log) && AtMostOneMore(live, live(log), log, log')
    decreases |remaining|
  {
    NoStepMore(live, live(log), log, 0);
    if remaining != [] {
      var body := Selection(bank.Alg(), Lists.Elements(remaining));
      Step(dev, live, log, CC_PCR_READ, body);
      OneStepMore(live, live(log), log, log, Command(CC_PCR_READ, body), 0);
      var (r, log1) := Round(dev, log, bank, remaining);
      if r.Ok? {
        RoundUses(dev, log, bank, remaining);
        var left, more := Without(remaining, r.value.returned), out + Zip(r.value);
        ReadRoundsKeeps(dev, live, log1, bank, left, more);
        Joined(live, live(log), log, log1, ReadRounds(dev, log1, bank, left, more).1);
      }
    }
  }

  lemma ServeKeeps(dev: Device, live: Live, log: Log, request: Request)
    requires TracksSessions(dev, live) && Settled(dev, live, log, request)
    ensures live(Serve(dev, log, request)) == live(log)
    ensures AtMostOneMore(live, live(log), log, Serve(dev, log, request))
  {
    match request
    case AskLockout =>
      NoStepMore(live, live(log), log, 0);
      Step(dev, live, log, CC_GET_CAPABILITY, LockoutBody());
      OneStepMore(live, live(log), log, log, Command(CC_GET_CAPABILITY, LockoutBody()), 0);
    case AskPcrs(bank, indices) => ReadRoundsKeeps(dev, live, log, bank, SortDedup(indices), []);
    case AskPolicy(bank, indices) => PolicyDigestReleases(dev, live, log, bank, indices);
  }

  /** Over any run of requests, however many: there is never more than one
      session of ours, and at the end there is none, so drift checks cannot use
      up the TPM's slots. */
  lemma {:induction false} RunsLeaveNoSession(dev: Device, live: Live, log: Log, requests: seq<Request>)
    requires TracksSessions(dev, live) && AllSettled(dev, live, log, requests)
    ensures live(ServeAll(dev, log, requests)) == live(log)
    ensures AtMostOneMore(live, live(log), log, ServeAll(dev, log, requests))
    decreases |requests|
  {
    NoStepMore(live, live(log), log, 0);
    if requests != [] {
      ServeKeeps(dev, live, log, requests[0]);
      var log1 := Serve(dev, log, requests[0]);
      RunsLeaveNoSession(dev, live, log1, requests[1..]);
      Joined(live, live(log), log, log1, ServeAll(dev, log1, requests[1..]));
    }
  }
}
