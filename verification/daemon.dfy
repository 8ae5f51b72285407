/** The daemon, step by step: everything it does is within the law. */
module Daemon {
  import opened Prelude
  import opened Tpm2
  import opened Token
  import opened Preflight
  import opened AskPw
  import opened Consent
  import opened History
  import opened Law
  import opened Memory
  import BindName
  import Runs

  /** `later` goes on from `tr`, lawfully, on the same connection. */
  ghost predicate Onward(env: Env, tr: Trace, later: Trace) {
    && Lawful(env, later) && tr <= later
    && Serving(later) == Serving(tr) && Served(later) == Served(tr)
    && Current(tr) <= Current(later)
  }

  lemma Recorded(env: Env, tr: Trace, e: Event)
    requires Lawful(env, tr) && !e.Contact? && Permitted(env, tr, e)
    ensures Onward(env, tr, tr + [e])
    ensures Current(tr + [e]) == Current(tr) + [e]
  {
    Extend(env, tr, e);
    After(tr, e);
    LearnedMore(tr, e);
  }

  lemma OnwardAgain(env: Env, a: Trace, b: Trace, c: Trace)
    requires Onward(env, a, b) && Onward(env, b, c)
    ensures Onward(env, a, c)
  {
  }

  ghost predicate SameAnswers(tr: Trace, later: Trace) {
    forall answer :: States(later, answer) == States(tr, answer)
  }

  lemma NoAnswer(tr: Trace, e: Event)
    requires !e.Asked?
    ensures SameAnswers(tr, tr + [e])
  {
    forall answer ensures States(tr + [e], answer) == States(tr, answer) {
      StatesMore(tr, e, answer);
    }
  }

  method Terminating(env: Env, tr: Trace) returns (stop: bool, later: Trace)
    requires Lawful(env, tr) && !Unverified(tr)
    ensures later == tr + [Polled(stop)] && stop == Stopped(env, |tr|)
    ensures Onward(env, tr, later) && Current(later) == Current(tr) + [Polled(stop)]
    ensures Learned(later) == Learned(tr) && SameAnswers(tr, later)
  {
    stop := Stopped(env, |tr|);
    later := tr + [Polled(stop)];
    Recorded(env, tr, Polled(stop));
    LearnedMore(tr, Polled(stop));
    NoAnswer(tr, Polled(stop));
  }

  // ---- A passphrase ------------------------------------------------------

  /** A passphrase is being looked for, and nothing has decided the search. */
  ghost predicate Seeking(env: Env, tr: Trace, disk: Disk) {
    && Lawful(env, tr) && !Unverified(tr)
    && Opened(Some(disk)) in Current(tr) && Searching(Current(tr))
  }

  /** What a search has covered does not change by looking at the flag. */
  lemma StillSeeking(seg: Trace, stop: bool)
    ensures Searching(seg) ==> Searching(seg + [Polled(stop)])
    ensures Tried(seg + [Polled(stop)]) == Tried(seg)
    ensures Offered(seg + [Polled(stop)]) == Offered(seg) && Prompts(seg + [Polled(stop)]) == Prompts(seg)
  {
    TriedMore(seg, Polled(stop));
  }

  ghost predicate CheckedNext(tr: Trace, later: Trace, disk: Disk, secret: Secret, verdict: Verdict) {
    && later == tr + [Polled(false), Checked(disk, secret, verdict)]
    && Current(later) == Current(tr) + [Polled(false), Checked(disk, secret, verdict)]
  }

  /** One check, unless asked to stop. */
  method CheckNext(env: Env, disk: Disk, secret: Secret, tr: Trace) returns (verdict: Option<Verdict>, later: Trace)
    requires Seeking(env, tr, disk)
    requires Tried(Current(tr)) + [secret] <= Learned(tr) + Offered(Current(tr))
    ensures Onward(env, tr, later) && SameAnswers(tr, later)
    ensures verdict.None? ==> later == tr + [Polled(true)]
    ensures verdict.Some? ==> CheckedNext(tr, later, disk, secret, verdict.value)
  {
    var stop, asked := Terminating(env, tr);
    if stop {
      return None, asked;
    }
    StillSeeking(Current(tr), false);
    var v := env.verdict(|asked|, disk, secret);
    assert MayCheck(env, asked, disk, secret, v);
    CheckPermitted(env, asked, disk, secret, v);
    Recorded(env, asked, Checked(disk, secret, v));
    NoAnswer(asked, Checked(disk, secret, v));
    verdict, later := Some(v), asked + [Checked(disk, secret, v)];
    assert later == tr + [Polled(false), Checked(disk, secret, v)];
  }

  lemma CheckDone(seg: Trace, disk: Disk, secret: Secret, verdict: Verdict)
    ensures var done := seg + [Polled(false), Checked(disk, secret, verdict)];
      && Tried(done) == Tried(seg) + [secret] && Offered(done) == Offered(seg) && Prompts(done) == Prompts(seg)
      && (Searching(seg) && verdict.Wrong? ==> Searching(done))
  {
    var polled := seg + [Polled(false)];
    StillSeeking(seg, false);
    TriedMore(polled, Checked(disk, secret, verdict));
    assert seg + [Polled(false), Checked(disk, secret, verdict)] == polled + [Checked(disk, secret, verdict)];
  }

  lemma CheckLearned(tr: Trace, disk: Disk, secret: Secret, verdict: Verdict)
    ensures Learned(tr + [Polled(false), Checked(disk, secret, verdict)]) ==
      if verdict.Correct? && secret !in Learned(tr) then Learned(tr) + [secret] else Learned(tr)
  {
    var polled := tr + [Polled(false)];
    LearnedMore(tr, Polled(false));
    LearnedMore(polled, Checked(disk, secret, verdict));
    assert tr + [Polled(false), Checked(disk, secret, verdict)] == polled + [Checked(disk, secret, verdict)];
  }

  datatype Search = Found(secret: Secret) | Over | Exhausted

  ghost predicate SameSearch(tr: Trace, later: Trace) {
    && Learned(later) == Learned(tr)
    && Offered(Current(later)) == Offered(Current(tr)) && Prompts(Current(later)) == Prompts(Current(tr))
  }

  ghost predicate GaveUp(tr: Trace) {
    Fruitless(tr) && !Unverified(tr)
  }

  lemma StoppedFruitless(tr: Trace)
    requires Searching(Current(tr))
    ensures Current(tr + [Polled(true)]) == Current(tr) + [Polled(true)]
    ensures GaveUp(tr + [Polled(true)])
  {
    After(tr, Polled(true));
    assert Polled(true) in Current(tr) + [Polled(true)];
  }

  /** Where a check leaves the search. */
  ghost predicate Follows(env: Env, tr: Trace, later: Trace, disk: Disk, secret: Secret, verdict: Option<Verdict>) {
    match verdict
    case Some(Correct) => Finds(tr, later, disk, secret)
    case Some(Wrong) =>
      && Seeking(env, later, disk) && SameSearch(tr, later)
      && Tried(Current(later)) == Tried(Current(tr)) + [secret]
    case _ => GaveUp(later) && Learned(later) == Learned(tr)
  }

  ghost predicate Finds(tr: Trace, later: Trace, disk: Disk, secret: Secret) {
    && later != [] && Last(later) == Checked(disk, secret, Correct)
    && Learned(later) == if secret in Learned(tr) then Learned(tr) else Learned(tr) + [secret]
  }

  lemma CheckFollows(env: Env, tr: Trace, later: Trace, disk: Disk, secret: Secret, verdict: Verdict)
    requires Seeking(env, tr, disk) && Onward(env, tr, later) && CheckedNext(tr, later, disk, secret, verdict)
    ensures Follows(env, tr, later, disk, secret, Some(verdict))
  {
    CheckDone(Current(tr), disk, secret, verdict);
    CheckLearned(tr, disk, secret, verdict);
    assert Checked(disk, secret, verdict) in Current(later);
  }

  lemma StopFollows(env: Env, tr: Trace, later: Trace, disk: Disk, secret: Secret)
    requires Seeking(env, tr, disk) && later == tr + [Polled(true)]
    ensures Follows(env, tr, later, disk, secret, None)
  {
    StoppedFruitless(tr);
    LearnedMore(tr, Polled(true));
  }

  /** Tries the secrets in turn; they have to be those that come next. */
  method CheckEach(env: Env, disk: Disk, list: seq<Secret>, tr: Trace) returns (r: Search, later: Trace)
    requires Seeking(env, tr, disk)
    requires Tried(Current(tr)) + list == Learned(tr) + Offered(Current(tr))
    ensures Onward(env, tr, later) && SameAnswers(tr, later)
    ensures r.Found? ==> r.secret in list && Finds(tr, later, disk, r.secret)
    ensures r.Over? ==> GaveUp(later) && Learned(later) == Learned(tr)
    ensures r.Exhausted? ==> Seeking(env, later, disk) && SameSearch(tr, later)
    ensures r.Exhausted? ==> Tried(Current(later)) == Learned(later) + Offered(Current(later))
  {
    r, later := Exhausted, tr;
    for i := 0 to |list|
      invariant r == Exhausted
      invariant Onward(env, tr, later) && SameAnswers(tr, later)
      invariant Seeking(env, later, disk) && SameSearch(tr, later)
      invariant Tried(Current(later)) == Tried(Current(tr)) + list[..i]
    {
      ComesNext(Tried(Current(tr)), list, i);
      var verdict, checked := CheckNext(env, disk, list[i], later);
      OnwardAgain(env, tr, later, checked);
      if verdict.None? {
        StopFollows(env, later, checked, disk, list[i]);
        return Over, checked;
      }
      CheckFollows(env, later, checked, disk, list[i], verdict.value);
      if verdict.value.Correct? {
        return Found(list[i]), checked;
      } else if verdict.value.Unusable? {
        return Over, checked;
      }
      later := checked;
    }
    assert list[..|list|] == list;
  }

  lemma ComesNext(tried: seq<Secret>, list: seq<Secret>, i: nat)
    requires i < |list|
    ensures tried + list[..i] + [list[i]] == tried + list[..i + 1] <= tried + list
  {
  }

  /** Everything known or typed so far has been tried. */
  ghost predicate AllTried(tr: Trace) {
    Tried(Current(tr)) == Learned(tr) + Offered(Current(tr))
  }

  ghost predicate Brought(env: Env, tr: Trace, later: Trace, disk: Disk, candidates: seq<Secret>) {
    && Seeking(env, later, disk)
    && Tried(Current(later)) + candidates == Learned(later) + Offered(Current(later))
    && Prompts(Current(later)) == Prompts(Current(tr)) + 1
  }

  lemma PromptDone(seg: Trace, attempt: Attempt, candidates: seq<Secret>)
    ensures var done := seg + [Prompted(attempt, candidates)];
      && Tried(done) == Tried(seg) && Offered(done) == Offered(seg) + candidates && Prompts(done) == Prompts(seg) + 1
      && (Searching(seg) && candidates != [] ==> Searching(done))
  {
    TriedMore(seg, Prompted(attempt, candidates));
  }

  lemma NextInLine(known: seq<Secret>, offered: seq<Secret>, candidates: seq<Secret>)
    ensures known + offered + candidates == known + (offered + candidates)
  {
  }

  lemma PromptBrings(env: Env, tr: Trace, disk: Disk, attempt: Attempt, candidates: seq<Secret>)
    requires Seeking(env, tr, disk) && AllTried(tr)
    requires var later := tr + [Prompted(attempt, candidates)];
      Lawful(env, later) && Current(later) == Current(tr) + [Prompted(attempt, candidates)]
    ensures var later := tr + [Prompted(attempt, candidates)];
      && Learned(later) == Learned(tr)
      && if candidates == [] then GaveUp(later) else Brought(env, tr, later, disk, candidates)
  {
    LearnedMore(tr, Prompted(attempt, candidates));
    if candidates == [] {
      EmptyFruitless(tr, attempt);
    } else {
      PromptDone(Current(tr), attempt, candidates);
      NextInLine(Learned(tr), Offered(Current(tr)), candidates);
    }
  }

  lemma EmptyFruitless(tr: Trace, attempt: Attempt)
    requires Searching(Current(tr))
    requires Current(tr + [Prompted(attempt, [])]) == Current(tr) + [Prompted(attempt, [])]
    ensures GaveUp(tr + [Prompted(attempt, [])])
  {
    assert Prompted(attempt, []) in Current(tr + [Prompted(attempt, [])]);
  }

  /** One prompt, unless asked to stop. */
  method PromptNext(env: Env, disk: Disk, attempt: nat, tr: Trace)
    returns (candidates: Option<seq<Secret>>, later: Trace)
    requires Seeking(env, tr, disk) && AllTried(tr)
    requires Prompts(Current(tr)) == attempt < TRIES
    ensures Onward(env, tr, later) && SameAnswers(tr, later) && Learned(later) == Learned(tr)
    ensures candidates.None? ==> GaveUp(later)
    ensures candidates.Some? ==> Brought(env, tr, later, disk, candidates.value)
  {
    var stop, asked := Terminating(env, tr);
    if stop {
      StoppedFruitless(tr);
      return None, asked;
    }
    StillSeeking(Current(tr), false);
    var which := if attempt == 0 then First else Retry;
    var typed := Typed(env.prompt(|asked|, which));
    assert MayPrompt(env, asked, which, typed);
    PromptPermitted(env, asked, which, typed);
    Recorded(env, asked, Prompted(which, typed));
    NoAnswer(asked, Prompted(which, typed));
    later := asked + [Prompted(which, typed)];
    PromptBrings(env, asked, disk, which, typed);
    candidates := if typed == [] then None else Some(typed);
  }

  /** One prompt, and a check of each secret it brings. */
  method AttemptOnce(env: Env, disk: Disk, attempt: nat, tr: Trace) returns (r: Search, later: Trace)
    requires Seeking(env, tr, disk) && AllTried(tr)
    requires Prompts(Current(tr)) == attempt < TRIES
    ensures Onward(env, tr, later) && SameAnswers(tr, later)
    ensures r.Found? ==> Finds(tr, later, disk, r.secret)
    ensures r.Over? ==> GaveUp(later) && Learned(later) == Learned(tr)
    ensures r.Exhausted? ==> Seeking(env, later, disk) && AllTried(later) && Learned(later) == Learned(tr)
    ensures r.Exhausted? ==> Prompts(Current(later)) == attempt + 1
  {
    var candidates, prompted := PromptNext(env, disk, attempt, tr);
    if candidates.None? {
      return Over, prompted;
    }
    r, later := CheckEach(env, disk, candidates.value, prompted);
    OnwardAgain(env, tr, prompted, later);
  }

  /** A passphrase that opens the device, or nothing. */
  method Acquire(env: Env, disk: Disk, cache: Cache, tr: Trace) returns (r: Option<Secret>, later: Trace)
    requires Seeking(env, tr, disk) && cache.entries == Learned(tr)
    requires Tried(Current(tr)) == [] && Offered(Current(tr)) == [] && Prompts(Current(tr)) == 0
    modifies cache
    ensures Onward(env, tr, later) && SameAnswers(tr, later)
    ensures r.Some? ==> later != [] && Last(later) == Checked(disk, r.value, Correct)
    ensures r.None? ==> GaveUp(later)
    ensures cache.entries == Learned(later)
    ensures cache.entries == old(cache.entries)
      || (r.Some? && r.value !in old(cache.entries) && cache.entries == old(cache.entries) + [r.value])
  {
    var found, now := CheckEach(env, disk, cache.entries, tr);
    if found.Found? {
      return Some(found.secret), now;
    } else if found.Over? {
      return None, now;
    }
    for attempt := 0 to TRIES
      invariant Onward(env, tr, now) && SameAnswers(tr, now)
      invariant Seeking(env, now, disk) && AllTried(now)
      invariant Prompts(Current(now)) == attempt
      invariant cache.entries == old(cache.entries) == Learned(now)
    {
      var hit, checked := AttemptOnce(env, disk, attempt, now);
      OnwardAgain(env, tr, now, checked);
      if hit.Found? {
        cache.Insert(hit.secret);
        return Some(hit.secret), checked;
      } else if hit.Over? {
        return None, checked;
      }
      now := checked;
    }
    assert GaveUp(now);
    return None, now;
  }

  // ---- A repair ----------------------------------------------------------

  /** Goes on without learning a passphrase or sending one. */
  ghost predicate Carried(env: Env, tr: Trace, later: Trace) {
    Onward(env, tr, later) && Learned(later) == Learned(tr) && (SentAlready(later) ==> SentAlready(tr))
  }

  lemma CarriedAgain(env: Env, a: Trace, b: Trace, c: Trace)
    requires Carried(env, a, b) && Carried(env, b, c)
    ensures Carried(env, a, c)
  {
  }

  lemma Kept(env: Env, tr: Trace, later: Trace, e: Event)
    requires Onward(env, tr, later) && e in Current(tr)
    ensures e in Current(later)
  {
  }

  lemma CarriedOn(env: Env, tr: Trace, e: Event)
    requires Lawful(env, tr) && Permitted(env, tr, e)
    requires !e.Contact? && !e.Checked? && !e.Sent?
    ensures Carried(env, tr, tr + [e]) && Current(tr + [e]) == Current(tr) + [e] && e in Current(tr + [e])
  {
    Recorded(env, tr, e);
    LearnedMore(tr, e);
    assert forall p :: p in Current(tr) + [e] ==> p == e || p in Current(tr);
  }

  /** A passphrase for the volume has just been acquired. */
  ghost predicate InHand(env: Env, tr: Trace, volume: Volume, disk: Disk, secret: Secret) {
    && Lawful(env, tr) && For(tr, volume) && !Unverified(tr)
    && Opened(Some(disk)) in Current(tr) && Validated(tr, disk, secret)
  }

  lemma StillInHand(env: Env, tr: Trace, later: Trace, volume: Volume, disk: Disk, secret: Secret)
    requires InHand(env, tr, volume, disk, secret) && Onward(env, tr, later) && !Unverified(later)
    ensures InHand(env, later, volume, disk, secret)
  {
    Kept(env, tr, later, Opened(Some(disk)));
    Kept(env, tr, later, Checked(disk, secret, Correct));
  }

  /** No step towards a repair was taken on this connection. */
  ghost predicate Untouched(tr: Trace) {
    Unjudged(tr) && Unasked(tr) && Unenrolled(tr)
  }

  lemma OneStep(tr: Trace, later: Trace, e: Event)
    requires Current(later) == Current(tr) + [e]
    ensures Unjudged(tr) && !e.Judged? ==> Unjudged(later)
    ensures Unasked(tr) && !e.Asked? ==> Unasked(later)
    ensures Unenrolled(tr) && !e.Enrolling? ==> Unenrolled(later)
  {
  }

  ghost predicate NoStep(tr: Trace, later: Trace) {
    && (Unjudged(tr) ==> Unjudged(later)) && (Unasked(tr) ==> Unasked(later))
    && (Unenrolled(tr) ==> Unenrolled(later))
  }

  lemma ConsideredBy(env: Env, past: Trace, volume: Volume, e: Event)
    requires e in Current(past)
    requires e == Polled(true) || (e.Judged? && e.decision.Leave?) || (e.Asked? && e.answer == No)
      || (e.Enrolling? && !e.ok) || e.Verified?
    ensures Considered(env, past, volume)
  {
    if e.Asked? {
      assert e == Asked(e.state, No);
    } else if e.Verified? {
      assert e == Verified(e.outcome);
    }
  }

  method Pause(env: Env, volume: Volume, disk: Disk, secret: Secret, tr: Trace) returns (stop: bool, later: Trace)
    requires InHand(env, tr, volume, disk, secret)
    ensures later == tr + [Polled(stop)] && Carried(env, tr, later) && SameAnswers(tr, later)
    ensures InHand(env, later, volume, disk, secret) && NoStep(tr, later)
    ensures stop ==> Considered(env, later, volume)
  {
    stop, later := Terminating(env, tr);
    OneStep(tr, later, Polled(stop));
    CarriedOn(env, tr, Polled(stop));
    StillInHand(env, tr, later, volume, disk, secret);
    if stop {
      ConsideredBy(env, later, volume, Polled(true));
    }
  }

  method Judge(env: Env, volume: Volume, disk: Disk, secret: Secret, tr: Trace)
    returns (judged: Option<Event>, later: Trace)
    requires InHand(env, tr, volume, disk, secret) && Untouched(tr)
    ensures Carried(env, tr, later) && SameAnswers(tr, later)
    ensures InHand(env, later, volume, disk, secret) && Unasked(later) && Unenrolled(later)
    ensures judged.None? ==> Considered(env, later, volume)
    ensures judged.Some? ==> PlannedBy(later, volume, disk, judged.value)
  {
    var stop, asked := Pause(env, volume, disk, secret, tr);
    var dev := env.tpm(|asked|, volume.tpm2Device);
    if stop || dev.None? {
      return None, asked;
    }
    var header, files := TokensRead(env.header(|asked|, disk)), env.files(|asked|);
    var decision := Check(dev.value, [], header, files, volume).0;
    var e := Judged(disk, dev.value, header, files, decision);
    assert MayJudge(env, asked, e);
    JudgePermitted(env, asked, e);
    CarriedOn(env, asked, e);
    OneStep(asked, asked + [e], e);
    NoAnswer(asked, e);
    later := asked + [e];
    CarriedAgain(env, tr, asked, later);
    StillInHand(env, asked, later, volume, disk, secret);
    if decision.Reenroll? {
      ReenrollExactly(dev.value, [], header, files, volume, decision.plan);
      judged := Some(e);
    } else {
      ConsideredBy(env, later, volume, e);
      judged := None;
    }
  }

  ghost predicate Reflects(decided: Decisions, tr: Trace)
    reads decided
  {
    Remembered(decided.accepts, decided.declines, tr)
  }

  ghost predicate Agreed(tr: Trace, state: seq<u8>) {
    && (Asked(state, Yes) in Current(tr) || Said(tr, state, Always))
    && (state != [] ==> !Said(tr, state, No))
  }

  /** What is remembered are the answers given in the run; only a refusal for
      an empty state is not. */
  ghost predicate Remembered(accepts: set<seq<u8>>, declines: set<seq<u8>>, tr: Trace) {
    accepts == States(tr, Always) && declines == States(tr, No) - {[]}
  }

  lemma AnswerNoted(accepts: set<seq<u8>>, declines: set<seq<u8>>, tr: Trace, state: seq<u8>, answer: Answer)
    requires Remembered(accepts, declines, tr)
    ensures Remembered(
      AcceptsAfter(accepts, state, answer), DeclinesAfter(declines, state, answer), tr + [Asked(state, answer)])
  {
    StatesMore(tr, Asked(state, answer), Always);
    StatesMore(tr, Asked(state, answer), No);
  }

  /** No state is ever remembered both ways. */
  lemma DecisionsDisjoint(env: Env, accepts: set<seq<u8>>, declines: set<seq<u8>>, tr: Trace)
    requires Lawful(env, tr) && Remembered(accepts, declines, tr)
    ensures accepts !! declines
  {
    forall state | state in accepts && state in declines ensures false {
      StatesSaid(tr, state, Always);
      StatesSaid(tr, state, No);
      Runs.NeverBoth(env, tr, state);
    }
  }

  lemma CourseMeans(accepts: set<seq<u8>>, declines: set<seq<u8>>, tr: Trace, state: seq<u8>)
    requires Remembered(accepts, declines, tr)
    ensures match CourseFor(declines, accepts, state)
      case Skip => state != [] && Said(tr, state, No)
      case Go => Agreed(tr, state)
      case Ask => !Said(tr, state, Always) && (state != [] ==> !Said(tr, state, No))
  {
    StatesSaid(tr, state, Always);
    StatesSaid(tr, state, No);
  }

  lemma AnswerMeans(tr: Trace, state: seq<u8>, answer: Answer)
    requires state != [] ==> !Said(tr, state, No)
    requires Current(tr + [Asked(state, answer)]) == Current(tr) + [Asked(state, answer)]
    ensures answer != No ==> Agreed(tr + [Asked(state, answer)], state)
  {
    assert Asked(state, answer) in Current(tr + [Asked(state, answer)]);
    assert Asked(state, answer) in tr + [Asked(state, answer)];
  }

  /** Puts the question to a person. */
  method AskPerson(env: Env, volume: Volume, disk: Disk, state: seq<u8>, decided: Decisions, tr: Trace)
    returns (answer: Answer, later: Trace)
    requires Lawful(env, tr) && Cleared(tr) && For(tr, volume) && Planned(tr, volume, disk, state)
    requires !Said(tr, state, Always) && (state != [] ==> !Said(tr, state, No))
    requires Reflects(decided, tr) && Unasked(tr)
    modifies decided
    ensures later == tr + [Asked(state, answer)]
    ensures Carried(env, tr, later) && Reflects(decided, later)
    ensures Unenrolled(tr) ==> Unenrolled(later)
    ensures answer != No ==> Agreed(later, state)
    ensures answer == No ==> Considered(env, later, volume)
  {
    answer := Understood(env.answer(|tr|));
    var e := Asked(state, answer);
    assert MayAsk(env, tr, state, answer);
    AskPermitted(env, tr, state, answer);
    CarriedOn(env, tr, e);
    later := tr + [e];
    OneStep(tr, later, e);
    AnswerMeans(tr, state, answer);
    AnswerNoted(decided.accepts, decided.declines, tr, state, answer);
    match answer {
      case No =>
        ConsideredBy(env, later, volume, e);
        if state != [] {
          decided.Decline(state);
        }
      case Always => decided.Accept(state);
      case Yes =>
    }
  }

  lemma StillPlanned(env: Env, tr: Trace, later: Trace, volume: Volume, disk: Disk, judged: Event)
    requires PlannedBy(tr, volume, disk, judged) && Onward(env, tr, later)
    ensures PlannedBy(later, volume, disk, judged)
    ensures Planned(later, volume, disk, judged.decision.plan.state)
  {
  }

  lemma SkipConsidered(env: Env, tr: Trace, volume: Volume, disk: Disk, judged: Event)
    requires PlannedBy(tr, volume, disk, judged)
    requires judged.decision.plan.state != [] && Said(tr, judged.decision.plan.state, No)
    ensures Considered(env, tr, volume)
  {
    assert OnceRefused(tr, judged);
  }

  lemma SaidKept(tr: Trace, stop: bool, state: seq<u8>)
    ensures forall answer :: Said(tr + [Polled(stop)], state, answer) <==> Said(tr, state, answer)
    ensures Agreed(tr, state) && Current(tr) <= Current(tr + [Polled(stop)]) ==> Agreed(tr + [Polled(stop)], state)
  {
  }

  lemma ReflectsKept(decided: Decisions, tr: Trace, later: Trace)
    requires Reflects(decided, tr) && SameAnswers(tr, later)
    ensures Reflects(decided, later)
  {
    assert States(later, Always) == States(tr, Always) && States(later, No) == States(tr, No);
  }

  method AskUnlessStopped(
    env: Env, volume: Volume, disk: Disk, secret: Secret, judged: Event, decided: Decisions, tr: Trace)
    returns (go: bool, later: Trace)
    requires InHand(env, tr, volume, disk, secret) && PlannedBy(tr, volume, disk, judged)
    requires CourseFor(decided.declines, decided.accepts, judged.decision.plan.state) == Ask
    requires Reflects(decided, tr) && Unasked(tr) && Unenrolled(tr)
    modifies decided
    ensures Carried(env, tr, later) && InHand(env, later, volume, disk, secret)
    ensures Reflects(decided, later) && Unenrolled(later)
    ensures go ==> Agreed(later, judged.decision.plan.state)
    ensures !go ==> Considered(env, later, volume)
  {
    var stop, asked := Pause(env, volume, disk, secret, tr);
    ReflectsKept(decided, tr, asked);
    if stop {
      return false, asked;
    }
    CourseMeans(decided.accepts, decided.declines, asked, judged.decision.plan.state);
    StillPlanned(env, tr, asked, volume, disk, judged);
    go, later := AskInHand(env, volume, disk, secret, judged.decision.plan.state, decided, asked);
    CarriedAgain(env, tr, asked, later);
  }

  method AskInHand(env: Env, volume: Volume, disk: Disk, secret: Secret, state: seq<u8>, decided: Decisions, tr: Trace)
    returns (go: bool, later: Trace)
    requires InHand(env, tr, volume, disk, secret) && Cleared(tr) && Planned(tr, volume, disk, state)
    requires !Said(tr, state, Always) && (state != [] ==> !Said(tr, state, No))
    requires Reflects(decided, tr) && Unasked(tr) && Unenrolled(tr)
    modifies decided
    ensures Carried(env, tr, later) && InHand(env, later, volume, disk, secret)
    ensures Reflects(decided, later) && Unenrolled(later)
    ensures if go then Agreed(later, state) else Considered(env, later, volume)
  {
    var answer, answered := AskPerson(env, volume, disk, state, decided, tr);
    StillInHand(env, tr, answered, volume, disk, secret);
    return answer != No, answered;
  }

  /** Whether a person agrees to the repair, now or by an earlier answer. */
  method Consult(env: Env, volume: Volume, disk: Disk, secret: Secret, judged: Event, decided: Decisions, tr: Trace)
    returns (go: bool, later: Trace)
    requires InHand(env, tr, volume, disk, secret) && PlannedBy(tr, volume, disk, judged)
    requires Reflects(decided, tr) && Unasked(tr) && Unenrolled(tr)
    modifies decided
    ensures Carried(env, tr, later) && InHand(env, later, volume, disk, secret)
    ensures Reflects(decided, later) && Unenrolled(later)
    ensures go ==> Agreed(later, judged.decision.plan.state)
    ensures !go ==> Considered(env, later, volume)
  {
    var state := judged.decision.plan.state;
    var course := CourseFor(decided.declines, decided.accepts, state);
    CourseMeans(decided.accepts, decided.declines, tr, state);
    match course {
      case Skip =>
        SkipConsidered(env, tr, volume, disk, judged);
        return false, tr;
      case Go =>
        return true, tr;
      case Ask =>
        go, later := AskUnlessStopped(env, volume, disk, secret, judged, decided, tr);
    }
  }

  /** Runs the enrollment; refuses an empty selection. */
  method Enroll(env: Env, volume: Volume, disk: Disk, secret: Secret, state: seq<u8>, tr: Trace)
    returns (ok: bool, later: Trace)
    requires InHand(env, tr, volume, disk, secret) && Unenrolled(tr) && Cleared(tr)
    requires volume.pcrs != [] ==> Planned(tr, volume, disk, state) && Agreed(tr, state)
    ensures volume.pcrs == [] ==> !ok && later == tr
    ensures volume.pcrs != [] ==> later == tr + [Enrolling(disk, volume.pcrs, volume.bank, secret, state, ok)]
    ensures volume.pcrs != [] ==> Carried(env, tr, later) && SameAnswers(tr, later)
    ensures volume.pcrs != [] && !ok ==> Considered(env, later, volume)
  {
    if volume.pcrs == [] {
      return false, tr;
    }
    ok := env.enroll(|tr|, disk);
    var e := Enrolling(disk, volume.pcrs, volume.bank, secret, state, ok);
    assert MayEnroll(env, tr, e);
    EnrollPermitted(env, tr, e);
    CarriedOn(env, tr, e);
    NoAnswer(tr, e);
    later := tr + [e];
    if !ok {
      ConsideredBy(env, later, volume, e);
    }
  }

  lemma CheckupHolds(env: Env, volume: Volume, disk: Disk, judged: Event, tr: Trace)
    requires For(tr, volume) && Unverified(tr) && Last(tr).disk == disk && PlannedBy(tr, volume, disk, judged)
    ensures Checkup(env, tr, Conclusion(env, |tr|, volume, judged))
  {
  }

  /** Checks what an enrollment wrote. */
  method VerifyRepair(env: Env, volume: Volume, disk: Disk, judged: Event, tr: Trace)
    returns (outcome: Outcome, later: Trace)
    requires Lawful(env, tr) && For(tr, volume) && Unverified(tr) && Last(tr).disk == disk
    requires PlannedBy(tr, volume, disk, judged)
    ensures later == tr + [Verified(outcome)]
    ensures Carried(env, tr, later) && Considered(env, later, volume) && SameAnswers(tr, later)
  {
    outcome := Conclusion(env, |tr|, volume, judged);
    var e := Verified(outcome);
    CheckupHolds(env, volume, disk, judged, tr);
    VerifyPermitted(env, tr, outcome);
    CarriedOn(env, tr, e);
    NoAnswer(tr, e);
    later := tr + [e];
    ConsideredBy(env, later, volume, e);
  }

  lemma PlanStands(tr: Trace, volume: Volume, disk: Disk, judged: Event)
    requires PlannedBy(tr, volume, disk, judged)
    ensures Planned(tr, volume, disk, judged.decision.plan.state) && volume.pcrs != []
  {
  }

  /** The enrollment, and the check of what it wrote. */
  method EnrollAndVerify(env: Env, volume: Volume, disk: Disk, secret: Secret, judged: Event, tr: Trace)
    returns (later: Trace)
    requires InHand(env, tr, volume, disk, secret) && Unenrolled(tr) && Cleared(tr)
    requires PlannedBy(tr, volume, disk, judged) && Agreed(tr, judged.decision.plan.state)
    ensures Carried(env, tr, later) && SameAnswers(tr, later)
    ensures !Unverified(later) && Considered(env, later, volume)
  {
    PlanStands(tr, volume, disk, judged);
    var ok, enrolled := Enroll(env, volume, disk, secret, judged.decision.plan.state, tr);
    if !ok {
      return enrolled;
    }
    StillPlanned(env, tr, enrolled, volume, disk, judged);
    var _, verified := VerifyRepair(env, volume, disk, judged, enrolled);
    CarriedAgain(env, tr, enrolled, verified);
    return verified;
  }

  /** The repair, unless asked to stop. */
  method Repair(env: Env, volume: Volume, disk: Disk, secret: Secret, judged: Event, tr: Trace) returns (later: Trace)
    requires InHand(env, tr, volume, disk, secret) && Unenrolled(tr) && PlannedBy(tr, volume, disk, judged)
    requires Agreed(tr, judged.decision.plan.state)
    ensures Carried(env, tr, later) && SameAnswers(tr, later)
    ensures !Unverified(later) && Considered(env, later, volume)
  {
    var stop, asked := Pause(env, volume, disk, secret, tr);
    if stop {
      return asked;
    }
    SaidKept(tr, false, judged.decision.plan.state);
    StillPlanned(env, tr, asked, volume, disk, judged);
    later := EnrollAndVerify(env, volume, disk, secret, judged, asked);
    CarriedAgain(env, tr, asked, later);
  }

  /** Repairs the binding if that is the right thing to do and a person
      agrees. */
  method MaybeReenroll(env: Env, volume: Volume, disk: Disk, secret: Secret, decided: Decisions, tr: Trace)
    returns (later: Trace)
    requires InHand(env, tr, volume, disk, secret) && Untouched(tr) && Reflects(decided, tr)
    modifies decided
    ensures Carried(env, tr, later) && Reflects(decided, later)
    ensures !Unverified(later) && Considered(env, later, volume)
  {
    var judged, now := Judge(env, volume, disk, secret, tr);
    ReflectsKept(decided, tr, now);
    if judged.None? {
      return now;
    }
    var go, consulted := Consult(env, volume, disk, secret, judged.value, decided, now);
    CarriedAgain(env, tr, now, consulted);
    if !go {
      return consulted;
    }
    StillPlanned(env, now, consulted, volume, disk, judged.value);
    later := Repair(env, volume, disk, secret, judged.value, consulted);
    ReflectsKept(decided, consulted, later);
    CarriedAgain(env, tr, consulted, later);
  }

  // ---- A connection ------------------------------------------------------

  /** Interruptions come to an end, and no more is taken than was given. */
  ghost predicate Settles(env: Env, n: nat, quiet: nat) {
    forall k: nat, buf :: buf != [] ==>
      && (k >= quiet ==> !env.write(n, k, buf).Interrupted?)
      && (env.write(n, k, buf).Wrote? ==> env.write(n, k, buf).n <= |buf|)
  }

  ghost predicate WritableAt(env: Env, n: nat) {
    exists quiet: nat :: Settles(env, n, quiet)
  }

  ghost predicate Writable(env: Env) {
    forall n: nat :: WritableAt(env, n)
  }

  /** Writes all of it, in as many pieces as it takes. */
  method WriteAll(env: Env, n: nat, secret: seq<u8>) returns (ok: bool, sent: seq<u8>)
    requires Writable(env)
    ensures sent <= secret
    ensures ok <==> sent == secret
  {
    var buf, k := secret, 0;
    sent := [];
    assert WritableAt(env, n);
    ghost var quiet: nat :| Settles(env, n, quiet);
    while buf != []
      invariant sent + buf == secret
      decreases |buf|, if k < quiet then quiet - k else 0
    {
      var w := env.write(n, k, buf);
      k := k + 1;
      match w {
        case Wrote(m) =>
          if m == 0 {
            return false, sent;
          }
          sent := sent + buf[..m];
          buf := buf[m..];
        case Interrupted =>
        case Failed => return false, sent;
      }
    }
    ok := true;
  }

  lemma MayReply(env: Env, volume: Volume, disk: Disk, secret: Secret, bytes: seq<u8>, whole: bool, tr: Trace)
    requires InHand(env, tr, volume, disk, secret) && !SentAlready(tr) && Considered(env, tr, volume)
    requires bytes <= secret && (whole <==> bytes == secret)
    ensures MaySend(env, tr, bytes, whole)
  {
  }

  /** Returns the passphrase. */
  method SendReply(env: Env, volume: Volume, disk: Disk, secret: Secret, tr: Trace) returns (later: Trace)
    requires InHand(env, tr, volume, disk, secret)
    requires !SentAlready(tr) && Considered(env, tr, volume) && Writable(env)
    ensures Onward(env, tr, later) && SameAnswers(tr, later) && Learned(later) == Learned(tr)
    ensures !Unverified(later) && SentAlready(later)
  {
    var ok, sent := WriteAll(env, |tr|, secret);
    var e := Sent(sent, ok);
    MayReply(env, volume, disk, secret, sent, ok, tr);
    SendPermitted(env, tr, sent, ok);
    Recorded(env, tr, e);
    LearnedMore(tr, e);
    NoAnswer(tr, e);
    later := tr + [e];
    assert e in Current(later);
  }

  /** What holds between connections. */
  ghost predicate AtRest(env: Env, tr: Trace, cache: Cache, decided: Decisions)
    reads cache, decided
  {
    && Lawful(env, tr) && !Unverified(tr) && !Owes(tr) && Answered(tr)
    && cache.entries == Learned(tr) && Reflects(decided, tr)
  }

  /** A trusted plain-phase connection has been accepted, and nothing done. */
  ghost predicate Accepting(env: Env, tr: Trace, volume: Volume) {
    Lawful(env, tr) && For(tr, volume) && Current(tr) == [] && !Unverified(tr)
  }

  method OpenDevice(env: Env, volume: Volume, tr: Trace) returns (found: Option<Disk>, later: Trace)
    requires Accepting(env, tr, volume)
    ensures Onward(env, tr, later) && SameAnswers(tr, later) && Learned(later) == Learned(tr)
    ensures later == tr + [Opened(found)] && Current(later) == [Opened(found)]
  {
    found := env.open(|tr|, volume.device);
    assert MayOpen(env, tr, found);
    OpenPermitted(env, tr, found);
    Recorded(env, tr, Opened(found));
    LearnedMore(tr, Opened(found));
    NoAnswer(tr, Opened(found));
    later := tr + [Opened(found)];
  }

  lemma NothingTriedYet(found: Option<Disk>)
    ensures var seg := [Opened(found)];
      Searching(seg) && Tried(seg) == [] && Offered(seg) == [] && Prompts(seg) == 0
  {
    TriedMore([], Opened(found));
    assert [] + [Opened(found)] == [Opened(found)];
  }

  lemma FoundInHand(env: Env, tr: Trace, later: Trace, volume: Volume, disk: Disk, secret: Secret)
    requires For(tr, volume) && Onward(env, tr, later) && Opened(Some(disk)) in Current(tr)
    requires later != [] && Last(later) == Checked(disk, secret, Correct)
    ensures InHand(env, later, volume, disk, secret) && !SentAlready(later) && Untouched(later)
  {
    Kept(env, tr, later, Opened(Some(disk)));
    LastIsCurrent(later);
    LastChecked(env, later);
  }

  lemma LastIsCurrent(tr: Trace)
    requires tr != [] && !Last(tr).Contact?
    ensures Current(tr) == Current(Init(tr)) + [Last(tr)] && Last(tr) in Current(tr)
  {
  }

  lemma LastChecked(env: Env, tr: Trace)
    requires Lawful(env, tr) && tr != [] && Last(tr).Checked?
    requires Current(tr) == Current(Init(tr)) + [Last(tr)]
    ensures !SentAlready(tr) && Untouched(tr)
  {
    LawfulAt(env, tr, |tr| - 1);
    assert Searching(Current(Init(tr)));
  }

  lemma UnopenedAtRest(env: Env, tr: Trace, cache: Cache, decided: Decisions)
    requires Lawful(env, tr) && Current(tr) == [Opened(None)] && !Unverified(tr)
    requires Serving(tr).Some? && Granted(Serving(tr).value)
    requires cache.entries == Learned(tr) && Reflects(decided, tr)
    ensures AtRest(env, tr, cache, decided)
  {
  }

  /** The plain phase: whatever the TPM could do has failed for this volume. */
  method ServePassphrase(env: Env, volume: Volume, cache: Cache, decided: Decisions, tr: Trace) returns (later: Trace)
    requires Accepting(env, tr, volume) && Writable(env)
    requires cache.entries == Learned(tr) && Reflects(decided, tr)
    modifies cache, decided
    ensures Onward(env, tr, later) && AtRest(env, later, cache, decided)
  {
    var found, begun := OpenDevice(env, volume, tr);
    ReflectsKept(decided, tr, begun);
    if found.None? {
      UnopenedAtRest(env, begun, cache, decided);
      return begun;
    }
    NothingTriedYet(found);
    later := ServeOpened(env, volume, found.value, cache, decided, begun);
    OnwardAgain(env, tr, begun, later);
  }

  lemma GaveUpAtRest(env: Env, tr: Trace, cache: Cache, decided: Decisions)
    requires Lawful(env, tr) && GaveUp(tr) && Serving(tr).Some? && Granted(Serving(tr).value)
    requires cache.entries == Learned(tr) && Reflects(decided, tr)
    ensures AtRest(env, tr, cache, decided)
  {
  }

  /** With the device open: the passphrase, the repair, the reply. */
  method ServeOpened(env: Env, volume: Volume, disk: Disk, cache: Cache, decided: Decisions, tr: Trace)
    returns (later: Trace)
    requires Seeking(env, tr, disk) && For(tr, volume) && Writable(env)
    requires Tried(Current(tr)) == [] && Offered(Current(tr)) == [] && Prompts(Current(tr)) == 0
    requires cache.entries == Learned(tr) && Reflects(decided, tr)
    modifies cache, decided
    ensures Onward(env, tr, later) && AtRest(env, later, cache, decided)
  {
    assert (decided as object) != cache;
    var secret, acquired := Acquire(env, disk, cache, tr);
    ReflectsKept(decided, tr, acquired);
    if secret.None? {
      GaveUpAtRest(env, acquired, cache, decided);
      return acquired;
    }
    FoundInHand(env, tr, acquired, volume, disk, secret.value);
    later := RepairAndReply(env, volume, disk, secret.value, cache, decided, acquired);
    OnwardAgain(env, tr, acquired, later);
  }

  /** With the passphrase in hand: first the repair, then the reply. */
  method RepairAndReply(
    env: Env, volume: Volume, disk: Disk, secret: Secret, cache: Cache, decided: Decisions, tr: Trace)
    returns (later: Trace)
    requires InHand(env, tr, volume, disk, secret) && Untouched(tr) && !SentAlready(tr) && Writable(env)
    requires cache.entries == Learned(tr) && Reflects(decided, tr)
    modifies decided
    ensures Onward(env, tr, later) && AtRest(env, later, cache, decided)
  {
    var considered := MaybeReenroll(env, volume, disk, secret, decided, tr);
    StillInHand(env, tr, considered, volume, disk, secret);
    later := SendReply(env, volume, disk, secret, considered);
    ReflectsKept(decided, considered, later);
    OnwardAgain(env, tr, considered, later);
  }

  lemma AcceptedContact(env: Env, e: Event, tr: Trace)
    requires Lawful(env, tr) && Cleared(tr) && !Owes(tr) && Answered(tr)
    requires e.Contact? && MayAccept(env, tr, e.volume, e.name, e.process)
    ensures Lawful(env, tr + [e]) && Serving(tr + [e]) == Some(e) && Current(tr + [e]) == []
    ensures Learned(tr + [e]) == Learned(tr) && SameAnswers(tr, tr + [e])
    ensures Served(tr + [e]) == if Granted(e) then Served(tr) + {e.volume.name} else Served(tr)
  {
    ContactPermitted(env, tr, e);
    Extend(env, tr, e);
    After(tr, e);
    LearnedMore(tr, e);
    NoAnswer(tr, e);
  }

  /** Answers one connection; true when it was the volume's plain-phase
      connection and it was handled. */
  method Handle(
    env: Env, volume: Volume, name: Option<seq<u8>>, process: Option<Process>,
    cache: Cache, decided: Decisions, tr: Trace)
    returns (handled: bool, later: Trace)
    requires AtRest(env, tr, cache, decided) && Cleared(tr) && Writable(env)
    requires MayAccept(env, tr, volume, name, process)
    modifies cache, decided
    ensures AtRest(env, later, cache, decided)
    ensures tr + [Contact(volume, name, process)] <= later && Serving(later) == Some(Contact(volume, name, process))
    ensures handled <==> Granted(Contact(volume, name, process))
    ensures !handled ==> later == tr + [Contact(volume, name, process)]
    ensures Served(later) == if handled then Served(tr) + {volume.name} else Served(tr)
  {
    var e := Contact(volume, name, process);
    later := tr + [e];
    AcceptedContact(env, e, tr);
    ReflectsKept(decided, tr, later);
    if name.None? {
      return false, later;
    }
    var parsed := BindName.Parse(name.value);
    if parsed.None? || parsed.value.volume != volume.name {
      return false, later;
    }
    match parsed.value.phase {
      case Plain =>
        if !Trusted(process, volume.name) {
          return false, later;
        }
        later := ServePassphrase(env, volume, cache, decided, later);
        handled := true;
      case _ =>
        handled := false;
    }
  }

  // ---- The run -----------------------------------------------------------

  const IDLE_LIMIT: nat := 300

  datatype Exit = EveryVolume | IdleTooLong | ToldToStop | PollBroke

  function Finished(volumes: seq<Volume>, served: set<seq<u8>>, active: seq<u8> -> bool, idle: nat): Option<Exit> {
    if forall v :: v in volumes ==> v.name in served || active(v.name) then Some(EveryVolume)
    else if idle >= IDLE_LIMIT then Some(IdleTooLong)
    else None
  }

  lemma LookedAround(tr: Trace, stop: bool)
    requires Answered(tr) && !Owes(tr)
    requires Current(tr + [Polled(stop)]) == Current(tr) + [Polled(stop)]
    ensures Answered(tr + [Polled(stop)]) && !Owes(tr + [Polled(stop)])
  {
    var e, seg := Polled(stop), Current(tr);
    After(tr, e);
    TriedMore(seg, e);
    LearnedMore(tr, e);
    assert forall p :: p in seg + [e] <==> p in seg || p == e;
  }

  method Look(env: Env, cache: Cache, decided: Decisions, tr: Trace) returns (stop: bool, later: Trace)
    requires AtRest(env, tr, cache, decided)
    ensures AtRest(env, later, cache, decided)
    ensures later == tr + [Polled(stop)] && Served(later) == Served(tr)
  {
    stop, later := Terminating(env, tr);
    LookedAround(tr, stop);
    ReflectsKept(decided, tr, later);
  }

  /** Accepts what is waiting at one of the sockets, and answers it. */
  method AcceptOne(env: Env, i: nat, volume: Volume, cache: Cache, decided: Decisions, tr: Trace)
    returns (handled: bool, later: Trace)
    requires AtRest(env, tr, cache, decided) && Cleared(tr) && Writable(env)
    requires i < |env.listeners| && env.listeners[i] == volume
    modifies cache, decided
    ensures AtRest(env, later, cache, decided)
    ensures tr <= later
    ensures handled ==> Serving(later).Some? && Granted(Serving(later).value)
    ensures handled <==> Waiting(env, |tr|, i, volume)
    ensures Took(env, volume, i, |tr|, later)
    ensures Served(later) == if handled then Served(tr) + {volume.name} else Served(tr)
    ensures !handled ==> Unoccupied(later, |tr|)
  {
    var accepted := env.accept(|tr|, i);
    if accepted.Connection? {
      handled, later := Handle(env, volume, accepted.name, accepted.process, cache, decided, tr);
    } else {
      handled, later := false, tr;
    }
  }

  /** From `since` on the daemon only looked at the flag, and turned away
      connections it does not serve. */
  ghost predicate Unoccupied(tr: Trace, since: nat) {
    forall n :: since <= n < |tr| ==> tr[n].Polled? || (tr[n].Contact? && !Granted(tr[n]))
  }

  /** What was waiting at a socket then, if anything was, was accepted. */
  ghost predicate Took(env: Env, volume: Volume, i: nat, n: nat, tr: Trace) {
    var accepted := env.accept(n, i);
    accepted.Connection? ==> n < |tr| && tr[n] == Contact(volume, accepted.name, accepted.process)
  }

  /** The socket had its turn, at `start` or later. */
  ghost predicate HadTurn(env: Env, volume: Volume, i: nat, start: nat, tr: Trace) {
    exists n: nat :: start <= n && Took(env, volume, i, n, tr)
  }

  lemma TurnsKept(env: Env, incoming: nat -> bool, k: nat, start: nat, tr: Trace, later: Trace)
    requires k <= |env.listeners| && tr <= later
    requires forall j: nat :: j < k && incoming(j) ==> HadTurn(env, env.listeners[j], j, start, tr)
    ensures forall j: nat :: j < k && incoming(j) ==> HadTurn(env, env.listeners[j], j, start, later)
  {
    forall j: nat | j < k && incoming(j) ensures HadTurn(env, env.listeners[j], j, start, later) {
      var n: nat :| start <= n && Took(env, env.listeners[j], j, n, tr);
      assert Took(env, env.listeners[j], j, n, later);
    }
  }

  /** A trusted plain-phase connection is waiting at this socket. */
  ghost predicate Waiting(env: Env, n: nat, i: nat, volume: Volume) {
    var accepted := env.accept(n, i);
    accepted.Connection? && Granted(Contact(volume, accepted.name, accepted.process))
  }

  /** `since` is the start of the run, or the end of handling a trusted
      plain-phase connection, and nothing was served after it. */
  ghost predicate QuietSince(tr: Trace, since: nat) {
    && since <= |tr|
    && Unoccupied(tr, since)
    && (since > 0 ==> Serving(tr[..since]).Some? && Granted(Serving(tr[..since]).value))
  }

  lemma QuietNow(tr: Trace)
    requires Serving(tr).Some? && Granted(Serving(tr).value)
    ensures QuietSince(tr, |tr|)
  {
    assert tr[..|tr|] == tr;
  }

  lemma QuietLonger(tr: Trace, later: Trace, since: nat)
    requires QuietSince(tr, since) && tr <= later
    requires Unoccupied(later, |tr|)
    ensures QuietSince(later, since)
  {
    assert later[..since] == tr[..since];
    assert forall n :: since <= n < |tr| ==> later[n] == tr[n];
  }

  function Names(volumes: seq<Volume>): set<seq<u8>> {
    set v | v in volumes :: v.name
  }

  /** Only finitely many trusted plain-phase connections come. */
  ghost predicate Dwindling(env: Env, g: nat) {
    forall n: nat, i: nat :: g <= n && i < |env.listeners| ==> !Waiting(env, n, i, env.listeners[i])
  }

  ghost predicate Reached(env: Env, n: nat, t: nat) {
    env.clock(n) >= t
  }

  ghost predicate NotBack(env: Env, m: nat, n: nat) {
    m <= n ==> env.clock(m) <= env.clock(n)
  }

  ghost predicate Comes(env: Env, t: nat) {
    exists n: nat :: Reached(env, n, t)
  }

  ghost predicate NeverBack(env: Env) {
    forall m: nat, n: nat :: NotBack(env, m, n)
  }

  /** The clock never goes back, and passes every time. */
  ghost predicate Ticking(env: Env) {
    NeverBack(env) && forall t: nat :: Comes(env, t)
  }

  /** A moment by which the clock has reached a time. */
  ghost function Moment(env: Env, t: nat): (n: nat)
    requires Ticking(env)
    ensures Reached(env, n, t)
  {
    assert Comes(env, t);
    var n: nat :| Reached(env, n, t);
    n
  }

  ghost function Left(n: nat, bound: nat): nat {
    if n < bound then bound - n else 0
  }

  lemma IdleEnds(env: Env, since: nat, n: nat)
    requires Ticking(env) && since <= n && env.clock(n) - env.clock(since) < IDLE_LIMIT
    ensures n < Moment(env, env.clock(since) + IDLE_LIMIT)
  {
    assert NotBack(env, Moment(env, env.clock(since) + IDLE_LIMIT), n);
  }

  /** Each pass uses up some of the connections left to come, or of the idle
      time left. */
  lemma PassCounts(env: Env, g: nat, since: nat, nowSince: nat, n: nat, m: nat)
    requires Ticking(env) && Dwindling(env, g) && since <= n < m
    requires env.clock(n) < env.clock(since) + IDLE_LIMIT
    requires nowSince == since || SomeWaiting(env, n)
    ensures Left(m, g) < Left(n, g) || (Left(m, g) == Left(n, g) && Idle(env, nowSince, m) < Idle(env, since, n))
  {
    IdleEnds(env, since, n);
  }

  ghost function Idle(env: Env, since: nat, n: nat): nat
    requires Ticking(env)
  {
    Left(n, Moment(env, env.clock(since) + IDLE_LIMIT))
  }

  /** The state of the loop. */
  ghost predicate Running(
    env: Env, tr: Trace, cache: Cache, decided: Decisions, served: set<seq<u8>>, since: nat)
    reads cache, decided
  {
    && AtRest(env, tr, cache, decided)
    && served == Served(tr) && served <= Names(env.listeners)
    && QuietSince(tr, since)
  }

  /** Answers what is waiting, socket by socket, until asked to stop. */
  method ServeReady(
    env: Env, incoming: nat -> bool, cache: Cache, decided: Decisions,
    served: set<seq<u8>>, since: nat, tr: Trace)
    returns (stop: bool, nowServed: set<seq<u8>>, nowSince: nat, later: Trace)
    requires Running(env, tr, cache, decided, served, since) && Cleared(tr) && Writable(env)
    modifies cache, decided
    ensures Running(env, later, cache, decided, nowServed, nowSince)
    ensures tr <= later && served <= nowServed
    ensures stop ==> Last(later) == Polled(true)
    ensures !stop ==>
      forall i: nat :: i < |env.listeners| && incoming(i) ==> HadTurn(env, env.listeners[i], i, |tr|, later)
    ensures nowSince == since || SomeWaiting(env, |tr|)
  {
    stop, nowServed, nowSince, later := false, served, since, tr;
    for i := 0 to |env.listeners|
      invariant Running(env, later, cache, decided, nowServed, nowSince) && Cleared(later)
      invariant tr <= later && served <= nowServed && !stop
      invariant forall j: nat :: j < i && incoming(j) ==> HadTurn(env, env.listeners[j], j, |tr|, later)
      invariant nowSince == since || SomeWaiting(env, |tr|)
    {
      if incoming(i) {
        ghost var before := later;
        stop, nowServed, nowSince, later := ServeOne(env, i, cache, decided, nowServed, nowSince, later);
        TurnsKept(env, incoming, i, |tr|, before, later);
        if stop {
          return;
        }
      }
    }
  }

  lemma SinceAfter(tr: Trace, later: Trace, since: nat, handled: bool)
    requires QuietSince(tr, since) && tr <= later
    requires if handled then Serving(later).Some? && Granted(Serving(later).value) else Unoccupied(later, |tr|)
    ensures QuietSince(later, if handled then |later| else since)
  {
    if handled {
      QuietNow(later);
    } else {
      QuietLonger(tr, later, since);
    }
  }

  method ServeOne(
    env: Env, i: nat, cache: Cache, decided: Decisions,
    served: set<seq<u8>>, since: nat, tr: Trace)
    returns (stop: bool, nowServed: set<seq<u8>>, nowSince: nat, later: Trace)
    requires i < |env.listeners|
    requires Running(env, tr, cache, decided, served, since) && Cleared(tr) && Writable(env)
    modifies cache, decided
    ensures Running(env, later, cache, decided, nowServed, nowSince)
    ensures tr <= later && later != [] && Last(later) == Polled(stop)
    ensures nowServed == if Waiting(env, |tr|, i, env.listeners[i]) then served + {env.listeners[i].name} else served
    ensures nowSince == if Waiting(env, |tr|, i, env.listeners[i]) then |later| - 1 else since
    ensures Took(env, env.listeners[i], i, |tr|, later)
  {
    var handled, answered := AcceptOne(env, i, env.listeners[i], cache, decided, tr);
    nowServed, nowSince := served, since;
    if handled {
      nowServed, nowSince := served + {env.listeners[i].name}, |answered|;
    }
    SinceAfter(tr, answered, since, handled);
    NameIn(env.listeners, i);
    stop, later := Look(env, cache, decided, answered);
    QuietLonger(answered, later, nowSince);
  }

  lemma NameIn(volumes: seq<Volume>, i: nat)
    requires i < |volumes|
    ensures volumes[i].name in Names(volumes)
  {
    assert volumes[i] in volumes;
  }

  /** Every volume has been answered or is open by now. */
  ghost predicate AllDone(env: Env, tr: Trace) {
    forall v :: v in env.listeners ==> v.name in Served(tr) || env.active(|tr|, v.name)
  }

  lemma AtRestFirst(env: Env)
    ensures Lawful(env, []) && !Unverified([]) && !Owes([]) && Answered([])
    ensures QuietSince([], 0)
  {
  }

  /** Why the daemon stops. */
  ghost predicate Ends(env: Env, tr: Trace, since: nat, exit: Exit) {
    match exit
    case EveryVolume => AllDone(env, tr)
    case IdleTooLong => !AllDone(env, tr) && env.clock(|tr|) >= env.clock(since) + 300
    case ToldToStop => tr != [] && Last(tr) == Polled(true)
    case PollBroke => tr != [] && Last(tr) == Polled(false) && env.poll(|tr| - 1).PollFailed?
  }

  ghost predicate SomeWaiting(env: Env, n: nat) {
    exists m: nat, i: nat :: n <= m && i < |env.listeners| && Waiting(env, m, i, env.listeners[i])
  }

  method NeedNoMore(env: Env, served: set<seq<u8>>, since: nat, tr: Trace)
    returns (why: Option<Exit>)
    requires served == Served(tr) && since <= |tr| && NeverBack(env)
    ensures why.Some? ==> Ends(env, tr, since, why.value)
    ensures why.None? ==> !AllDone(env, tr) && env.clock(|tr|) < env.clock(since) + 300
  {
    assert NotBack(env, since, |tr|);
    why := Finished(env.listeners, served, name => env.active(|tr|, name), env.clock(|tr|) - env.clock(since));
  }

  /** Once round the loop. */
  method Pass(
    env: Env, cache: Cache, decided: Decisions, served: set<seq<u8>>, since: nat, tr: Trace)
    returns (exit: Option<Exit>, nowServed: set<seq<u8>>, nowSince: nat, later: Trace)
    requires Running(env, tr, cache, decided, served, since) && Writable(env) && NeverBack(env)
    modifies cache, decided
    ensures Running(env, later, cache, decided, nowServed, nowSince)
    ensures tr <= later && served <= nowServed
    ensures exit.Some? ==> Ends(env, later, nowSince, exit.value)
    ensures exit.None? ==> |tr| < |later| && env.clock(|tr|) < env.clock(since) + 300
    ensures exit.None? ==> Turns(env, env.poll(|tr|), |tr|, later)
    ensures nowSince == since || SomeWaiting(env, |tr|)
  {
    nowServed, nowSince, later := served, since, tr;
    exit := NeedNoMore(env, served, since, tr);
    if exit.Some? {
      return;
    }
    var woken := env.poll(|tr|);
    var stop, looked := Look(env, cache, decided, tr);
    QuietLonger(tr, looked, since);
    if stop {
      return Some(ToldToStop), served, since, looked;
    }
    exit, nowServed, nowSince, later := Wake(env, woken, cache, decided, served, since, looked);
    WakesAfter(env, woken, |tr|, |looked|, later);
  }

  /** Whatever was reported ready had its turn. */
  ghost predicate Turns(env: Env, woken: Woken, start: nat, tr: Trace) {
    woken.Ready? ==>
      forall i: nat :: i < |env.listeners| && woken.incoming(i) ==> HadTurn(env, env.listeners[i], i, start, tr)
  }

  lemma WakesAfter(env: Env, woken: Woken, n: nat, m: nat, tr: Trace)
    requires n <= m
    ensures Turns(env, woken, m, tr) ==> Turns(env, woken, n, tr)
    ensures SomeWaiting(env, m) ==> SomeWaiting(env, n)
  {
    if Turns(env, woken, m, tr) && woken.Ready? {
      forall i: nat | i < |env.listeners| && woken.incoming(i) ensures HadTurn(env, env.listeners[i], i, n, tr) {
        assert HadTurn(env, env.listeners[i], i, m, tr);
      }
    }
  }

  /** What polling comes to. */
  method Wake(
    env: Env, woken: Woken, cache: Cache, decided: Decisions,
    served: set<seq<u8>>, since: nat, tr: Trace)
    returns (exit: Option<Exit>, nowServed: set<seq<u8>>, nowSince: nat, later: Trace)
    requires Running(env, tr, cache, decided, served, since) && Cleared(tr) && Writable(env)
    requires woken == env.poll(|tr| - 1)
    modifies cache, decided
    ensures Running(env, later, cache, decided, nowServed, nowSince)
    ensures tr <= later && served <= nowServed
    ensures exit.Some? ==> Ends(env, later, nowSince, exit.value)
    ensures exit.None? ==> Turns(env, woken, |tr|, later)
    ensures nowSince == since || SomeWaiting(env, |tr|)
  {
    exit, nowServed, nowSince, later := None, served, since, tr;
    match woken {
      case Ready(incoming) =>
        var stop;
        stop, nowServed, nowSince, later := ServeReady(env, incoming, cache, decided, served, since, tr);
        if stop {
          exit := Some(ToldToStop);
        }
      case WokenEarly =>
      case PollFailed => exit := Some(PollBroke);
    }
  }

  /** The loop cut off after `n` passes: whether or not it would ever have
      ended, everything up to there was lawful and at rest. */
  method Passes(env: Env, n: nat) returns (exit: Option<Exit>, tr: Trace, since: nat)
    requires Writable(env) && NeverBack(env)
    ensures Lawful(env, tr) && Answered(tr) && !Owes(tr) && !Unverified(tr)
    ensures Served(tr) <= Names(env.listeners) && QuietSince(tr, since)
    ensures if exit.Some? then Ends(env, tr, since, exit.value) else |tr| >= n
  {
    var cache := new Cache();
    var decided := new Decisions();
    var served: set<seq<u8>> := {};
    exit, tr, since := None, [], 0;
    AtRestFirst(env);
    for i := 0 to n
      invariant exit.None? && |tr| >= i
      invariant Running(env, tr, cache, decided, served, since)
    {
      exit, served, since, tr := Pass(env, cache, decided, served, since, tr);
      if exit.Some? {
        return;
      }
    }
  }

  /** Accepts and answers connections, one at a time, until the daemon is no
      longer needed or is asked to stop. */
  method Serve(env: Env) returns (exit: Exit, tr: Trace, since: nat)
    requires Writable(env) && Ticking(env) && exists g: nat :: Dwindling(env, g)
    ensures Lawful(env, tr) && Answered(tr) && !Owes(tr) && !Unverified(tr)
    ensures Served(tr) <= Names(env.listeners) && QuietSince(tr, since)
    ensures Ends(env, tr, since, exit)
  {
    var cache := new Cache();
    var decided := new Decisions();
    var served: set<seq<u8>> := {};
    tr, since := [], 0;
    AtRestFirst(env);
    ghost var g: nat :| Dwindling(env, g);
    while true
      invariant Running(env, tr, cache, decided, served, since)
      decreases Left(|tr|, g), Idle(env, since, |tr|)
    {
      var why, nowServed, nowSince, later := Pass(env, cache, decided, served, since, tr);
      if why.Some? {
        return why.value, later, nowSince;
      }
      PassCounts(env, g, since, nowSince, |tr|, |later|);
      served, since, tr := nowServed, nowSince, later;
    }
  }
}
