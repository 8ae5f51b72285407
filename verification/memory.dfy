/** What the daemon remembers between connections. */
module Memory {
  import opened Prelude
  import opened AskPw
  import opened Consent
  import opened History
  import opened Law

  ghost predicate Distinct(list: seq<Secret>) {
    forall i, j :: 0 <= i < j < |list| ==> list[i] != list[j]
  }

  /** Passphrases, in the order they first worked. */
  class Cache {
    var entries: seq<Secret>

    constructor ()
      ensures entries == []
    {
      entries := [];
    }

    method Insert(secret: Secret)
      modifies this
      ensures entries == if secret in old(entries) then old(entries) else old(entries) + [secret]
      ensures Distinct(old(entries)) ==> Distinct(entries)
    {
      if secret !in entries {
        entries := entries + [secret];
      }
    }
  }

  /** Answers that hold for later volumes in the same state. */
  class Decisions {
    var declines: set<seq<u8>>
    var accepts: set<seq<u8>>

    constructor ()
      ensures declines == {} && accepts == {}
    {
      declines, accepts := {}, {};
    }

    method Decline(state: seq<u8>)
      modifies this
      ensures declines == old(declines) + {state} && accepts == old(accepts)
    {
      declines := declines + {state};
    }

    method Accept(state: seq<u8>)
      modifies this
      ensures accepts == old(accepts) + {state} && declines == old(declines)
    {
      accepts := accepts + {state};
    }
  }

  lemma {:induction false} StatesSaid(tr: Trace, state: seq<u8>, answer: Answer)
    ensures state in States(tr, answer) <==> Said(tr, state, answer)
  {
    if tr != [] {
      StatesSaid(Init(tr), state, answer);
      assert tr == Init(tr) + [Last(tr)];
    }
  }

  /** What becomes of a planned repair, from the answers remembered. */
  datatype Course = Skip | Ask | Go

  function CourseFor(declines: set<seq<u8>>, accepts: set<seq<u8>>, state: seq<u8>): Course {
    if state != [] && state in declines then Skip
    else if state in accepts then Go
    else Ask
  }

  /** The empty state is never skipped, not even if it were remembered as declined;
      and what is remembered both ways is skipped. */
  lemma CourseExact(declines: set<seq<u8>>, accepts: set<seq<u8>>, state: seq<u8>)
    ensures CourseFor(declines, accepts, []) == if [] in accepts then Go else Ask
    ensures state != [] && state in declines ==> CourseFor(declines, accepts, state) == Skip
    ensures state !in declines && state in accepts ==> CourseFor(declines, accepts, state) == Go
    ensures state !in declines && state !in accepts ==> CourseFor(declines, accepts, state) == Ask
  {
  }

  /** The memory after an answer: an empty state is never remembered as
      declined, but may be remembered as accepted. */
  function DeclinesAfter(declines: set<seq<u8>>, state: seq<u8>, answer: Answer): set<seq<u8>> {
    if answer == No && state != [] then declines + {state} else declines
  }

  function AcceptsAfter(accepts: set<seq<u8>>, state: seq<u8>, answer: Answer): set<seq<u8>> {
    if answer == Always then accepts + {state} else accepts
  }
}
