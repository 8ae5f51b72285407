/** How often a run of the daemon enrolls the same device. */
module Resealing {
  import opened Prelude
  import opened Tpm2
  import opened TpmClient
  import opened TpmMachine
  import opened Token
  import opened Preflight
  import opened History
  import opened Law
  import opened Runs
  import Json
  import Lists
  import Repair

  /** The header was written for this selection and the present registers. */
  ghost predicate WrittenNow(header: Json.Value, former: u32, pcrs: seq<u8>, bank: Bank, m: Machine) {
    Repair.Enrolled(header, former, pcrs, bank, PolicyOf(m, bank.Alg(), Lists.Elements(pcrs)))
  }

  /** Such a header gives no cause for a repair, whatever the volume is
      configured to. */
  lemma NoCause(
    m: Machine, init: State, header: Json.Value, former: u32, pcrs: seq<u8>, bank: Bank,
    files: set<string>, config: Volume, plan: Plan)
    requires Sound(m) && WrittenNow(header, former, pcrs, bank, m)
    ensures !Repairable(Conforming(m, init), [], Tokens(header), files, config, plan)
  {
    var policy := PolicyOf(m, bank.Alg(), Lists.Elements(pcrs));
    Repair.EnrolledReadBack(header, former, pcrs, bank, policy);
    var index: u32 :| Tokens(header) == Ok([Repair.Plain(index, SortDedup(pcrs), bank, policy)]);
    var (_, log) := LockoutAfter(Conforming(m, init), []);
    PolicyDigestTrue(m, init, log, config.bank, config.pcrs);
    SortedAgree(pcrs);
    SameBank(bank, config.bank);
    SealedAlready(
      Conforming(m, init), Repair.Plain(index, SortDedup(pcrs), bank, policy), files, config, plan, policy);
  }

  lemma SameBank(a: Bank, b: Bank)
    ensures a.Name() == b.Name() <==> a == b
  {
  }

  lemma SealedAlready(dev: Device, token: Tpm2Token, files: set<string>, config: Volume, plan: Plan, policy: seq<u8>)
    requires token.policyHash == policy
    requires SameSelection(token, config) ==>
      var digest := PolicyDigest(dev, LockoutAfter(dev, []).1, config.bank, config.pcrs).0;
      digest.Ok? ==> digest.value == policy
    ensures !Repairable(dev, [], Ok([token]), files, config, plan)
  {
  }

  // ---- A TPM whose registers move ----------------------------------------

  /** What the machine is like at each moment. */
  type Machines = nat -> Machine

  ghost predicate Same(dev: Device, m: Machine) {
    exists init :: dev == Conforming(m, init)
  }

  ghost predicate SameAt(env: Env, n: nat, m: Machine) {
    Sound(m) && forall path :: env.tpm(n, path).Some? ==> Same(env.tpm(n, path).value, m)
  }

  /** Every TPM the daemon opens is this machine, as it is at that moment. */
  ghost predicate Conforms(env: Env, machines: Machines) {
    forall n: nat :: SameAt(env, n, machines(n))
  }

  predicate EnrollsOn(e: Event, disk: Disk) {
    e.Enrolling? && e.disk == disk
  }

  /** What an enrollment wrote on machine `m` is what is read at `n`. */
  ghost predicate ReadsWritten(env: Env, e: Event, n: nat, m: Machine)
    requires e.Enrolling?
  {
    && env.header(n, e.disk).Some?
    && exists former: u32 :: WrittenNow(env.header(n, e.disk).value, former, e.pcrs, e.bank, m)
  }

  ghost predicate NoneBetween(tr: Trace, i: nat, j: nat, disk: Disk) {
    j <= |tr| && forall k :: i < k < j ==> !EnrollsOn(tr[k], disk)
  }

  /** A successful enrollment wrote what it was asked to, for the registers as
      they were, and that stays on the device until the next on it. */
  ghost predicate HeadersFollow(env: Env, tr: Trace, machines: Machines) {
    forall i: nat, n: nat ::
      i < n < |tr| && tr[i].Enrolling? && tr[i].ok && NoneBetween(tr, i, n, tr[i].disk) ==>
        ReadsWritten(env, tr[i], n, machines(i))
  }

  ghost predicate MovesAt(machines: Machines, t: nat, pcrs: seq<u8>, bank: Bank) {
    Repair.Moved(machines(t), machines(t + 1), pcrs, bank)
  }

  /** With no move in between the policy is the same. */
  lemma {:induction false} SamePolicy(machines: Machines, i: nat, n: nat, pcrs: seq<u8>, bank: Bank)
    requires i <= n && forall t: nat :: i <= t < n ==> !MovesAt(machines, t, pcrs, bank)
    ensures PolicyOf(machines(i), bank.Alg(), Lists.Elements(pcrs))
         == PolicyOf(machines(n), bank.Alg(), Lists.Elements(pcrs))
    decreases n
  {
    if i < n {
      SamePolicy(machines, i, n - 1, pcrs, bank);
      assert !MovesAt(machines, n - 1, pcrs, bank);
      Repair.UnmovedPolicy(machines(n - 1), machines(n), pcrs, bank);
    }
  }

  // ---- From one enrollment to the next -----------------------------------

  /** The preflight of an enrollment came after every earlier enrollment. */
  lemma JudgedAfter(env: Env, tr: Trace, i: nat, q: nat, j: nat)
    requires Lawful(env, tr) && i < j < |tr| && tr[i].Enrolling? && tr[j].Enrolling? && SameConnection(tr, q, j)
    requires tr[q].Judged?
    ensures i < q
  {
    if q < i {
      StillCurrent(tr, i, j);
      LawfulAt(env, tr, j);
    }
  }

  /** A preflight on this device found cause for a repair. */
  ghost predicate Cause(env: Env, e: Event, q: nat, disk: Disk, volume: Volume) {
    && e.Judged? && e.decision.Reenroll? && env.tpm(q, volume.tpm2Device) == Some(e.dev)
    && Repairable(e.dev, [], TokensRead(env.header(q, disk)), env.files(q), volume, e.decision.plan)
  }

  lemma Caused(env: Env, tr: Trace, j: nat, disk: Disk) returns (volume: Volume, q: nat)
    requires Lawful(env, tr) && j < |tr| && EnrollsOn(tr[j], disk)
    ensures SameConnection(tr, q, j) && tr[q].Judged? && Cause(env, tr[q], q, disk, volume)
  {
    var accepted, atOpen, checked;
    volume, accepted, atOpen, checked, q := EnrollmentJustified(env, tr, j);
    PlannedOnEvidence(env, tr, j, q, volume, tr[j].disk);
  }

  lemma NoCauseAfter(
    env: Env, e: Event, disk: Disk, judged: Event, q: nat, volume: Volume, before: Machine, now: Machine)
    requires EnrollsOn(e, disk) && SameAt(env, q, now) && ReadsWritten(env, e, q, before)
    requires PolicyOf(before, e.bank.Alg(), Lists.Elements(e.pcrs))
          == PolicyOf(now, e.bank.Alg(), Lists.Elements(e.pcrs))
    ensures !Cause(env, judged, q, disk, volume)
  {
    if Cause(env, judged, q, disk, volume) {
      assert Same(judged.dev, now);
      var init :| judged.dev == Conforming(now, init);
      var header := env.header(q, e.disk).value;
      var former: u32 :| WrittenNow(header, former, e.pcrs, e.bank, before);
      assert WrittenNow(header, former, e.pcrs, e.bank, now);
      NoCause(now, init, header, former, e.pcrs, e.bank, env.files(q), volume, judged.decision.plan);
    }
  }

  /** Some register of this enrollment's selection moved in between. */
  ghost predicate MovedBetween(machines: Machines, e: Event, i: nat, j: nat)
    requires e.Enrolling?
  {
    exists t: nat :: i <= t < j && MovesAt(machines, t, e.pcrs, e.bank)
  }

  lemma Followed(env: Env, tr: Trace, i: nat, q: nat, j: nat, machines: Machines)
    requires HeadersFollow(env, tr, machines) && i < q < j <= |tr| && tr[i].Enrolling? && tr[i].ok
    requires NoneBetween(tr, i, j, tr[i].disk)
    ensures ReadsWritten(env, tr[i], q, machines(i))
  {
    assert NoneBetween(tr, i, q, tr[i].disk);
  }

  lemma MovedBeforeNext(env: Env, tr: Trace, i: nat, j: nat, machines: Machines, disk: Disk)
    requires Lawful(env, tr) && Conforms(env, machines) && HeadersFollow(env, tr, machines)
    requires i < j < |tr| && EnrollsOn(tr[i], disk) && tr[i].ok && EnrollsOn(tr[j], disk) && NoneBetween(tr, i, j, disk)
    ensures MovedBetween(machines, tr[i], i, j)
  {
    var volume, q := Caused(env, tr, j, disk);
    JudgedAfter(env, tr, i, q, j);
    Followed(env, tr, i, q, j, machines);
    if !MovedBetween(machines, tr[i], i, j) {
      SamePolicy(machines, i, q, tr[i].pcrs, tr[i].bank);
      assert SameAt(env, q, machines(q));
      NoCauseAfter(env, tr[i], disk, tr[q], q, volume, machines(i), machines(q));
    }
  }

  /** Once an enrollment has succeeded on a device, the rest of the run attempts
      none on it before a register of its selection has moved: whatever failed
      before, whichever volumes share the device and however often it is asked
      for. */
  lemma {:induction false} MovedBeforeAny(env: Env, tr: Trace, i: nat, j: nat, machines: Machines, disk: Disk)
    requires Lawful(env, tr) && Conforms(env, machines) && HeadersFollow(env, tr, machines)
    requires i < j < |tr| && EnrollsOn(tr[i], disk) && tr[i].ok && EnrollsOn(tr[j], disk)
    ensures MovedBetween(machines, tr[i], i, j)
    decreases j
  {
    if NoneBetween(tr, i, j, disk) {
      MovedBeforeNext(env, tr, i, j, machines, disk);
    } else {
      var k: nat :| i < k < j && EnrollsOn(tr[k], disk);
      MovedBeforeAny(env, tr, i, k, machines, disk);
    }
  }

  /** In particular, on a TPM that does not move none at all. */
  lemma EnrolledOnce(env: Env, tr: Trace, i: nat, j: nat, m: Machine)
    requires Lawful(env, tr) && Conforms(env, _ => m) && HeadersFollow(env, tr, _ => m)
    requires i < j < |tr| && tr[i].Enrolling? && tr[i].ok
    ensures !EnrollsOn(tr[j], tr[i].disk)
  {
    if EnrollsOn(tr[j], tr[i].disk) {
      MovedBeforeAny(env, tr, i, j, _ => m, tr[i].disk);
    }
  }

  // ---- Counting ----------------------------------------------------------

  function Successes(tr: Trace, disk: Disk): nat {
    if tr == [] then 0
    else Successes(Init(tr), disk) + if EnrollsOn(Last(tr), disk) && Last(tr).ok then 1 else 0
  }

  ghost function MoveCount(machines: Machines, n: nat, pcrs: seq<u8>, bank: Bank): nat {
    if n == 0 then 0
    else MoveCount(machines, n - 1, pcrs, bank) + if MovesAt(machines, n - 1, pcrs, bank) then 1 else 0
  }

  lemma {:induction false} CountsUp(machines: Machines, i: nat, j: nat, pcrs: seq<u8>, bank: Bank)
    requires i <= j
    ensures MoveCount(machines, i, pcrs, bank) <= MoveCount(machines, j, pcrs, bank)
    ensures (exists t: nat :: i <= t < j && MovesAt(machines, t, pcrs, bank)) ==>
      MoveCount(machines, i, pcrs, bank) < MoveCount(machines, j, pcrs, bank)
    decreases j
  {
    if i < j {
      CountsUp(machines, i, j - 1, pcrs, bank);
    }
  }

  /** Every enrollment on the device is for this selection. */
  ghost predicate Selected(tr: Trace, disk: Disk, pcrs: seq<u8>, bank: Bank) {
    forall i :: 0 <= i < |tr| && EnrollsOn(tr[i], disk) ==> tr[i].pcrs == pcrs && tr[i].bank == bank
  }

  /** The latest success before `n`, if there was one, and the bound up to
      there. */
  ghost predicate Bounded(
    tr: Trace, n: nat, last: Option<nat>, machines: Machines, disk: Disk, pcrs: seq<u8>, bank: Bank)
    requires n <= |tr|
  {
    match last
    case None => Successes(tr[..n], disk) == 0
    case Some(i) =>
      && i < n && EnrollsOn(tr[i], disk) && tr[i].ok
      && Successes(tr[..n], disk) <= 1 + MoveCount(machines, i, pcrs, bank)
  }

  lemma SuccessesMore(tr: Trace, n: nat, disk: Disk)
    requires n < |tr|
    ensures Successes(tr[..n + 1], disk) ==
      Successes(tr[..n], disk) + if EnrollsOn(tr[n], disk) && tr[n].ok then 1 else 0
  {
    Snoc(tr[..n], tr[n]);
    assert tr[..n + 1] == tr[..n] + [tr[n]];
  }

  lemma BoundedMore(
    env: Env, tr: Trace, n: nat, last: Option<nat>, machines: Machines, disk: Disk, pcrs: seq<u8>, bank: Bank)
    requires Lawful(env, tr) && Conforms(env, machines) && HeadersFollow(env, tr, machines)
    requires Selected(tr, disk, pcrs, bank) && n < |tr| && Bounded(tr, n, last, machines, disk, pcrs, bank)
    ensures Bounded(
      tr, n + 1, if EnrollsOn(tr[n], disk) && tr[n].ok then Some(n) else last, machines, disk, pcrs, bank)
  {
    SuccessesMore(tr, n, disk);
    if EnrollsOn(tr[n], disk) && tr[n].ok && last.Some? {
      MovedBeforeAny(env, tr, last.value, n, machines, disk);
      CountsUp(machines, last.value, n, pcrs, bank);
    }
  }

  lemma {:induction false} SuccessesUpTo(
    env: Env, tr: Trace, n: nat, machines: Machines, disk: Disk, pcrs: seq<u8>, bank: Bank) returns (last: Option<nat>)
    requires Lawful(env, tr) && Conforms(env, machines) && HeadersFollow(env, tr, machines)
    requires Selected(tr, disk, pcrs, bank) && n <= |tr|
    ensures Bounded(tr, n, last, machines, disk, pcrs, bank)
    decreases n
  {
    last := None;
    if n > 0 {
      last := SuccessesUpTo(env, tr, n - 1, machines, disk, pcrs, bank);
      BoundedMore(env, tr, n - 1, last, machines, disk, pcrs, bank);
      last := if EnrollsOn(tr[n - 1], disk) && tr[n - 1].ok then Some(n - 1) else last;
    }
  }

  /** In every run on a conforming TPM, whatever its registers do meanwhile: the
      enrollments that succeed on a device are at most one more than the moments
      at which its selection moved. */
  lemma SuccessesFollowMoves(
    env: Env, tr: Trace, machines: Machines, disk: Disk, pcrs: seq<u8>, bank: Bank)
    requires Lawful(env, tr) && Conforms(env, machines) && HeadersFollow(env, tr, machines)
    requires Selected(tr, disk, pcrs, bank)
    ensures Successes(tr, disk) <= 1 + MoveCount(machines, |tr|, pcrs, bank)
  {
    var last := SuccessesUpTo(env, tr, |tr|, machines, disk, pcrs, bank);
    assert tr[..|tr|] == tr;
    if last.Some? {
      CountsUp(machines, last.value, |tr|, pcrs, bank);
    }
  }
}
