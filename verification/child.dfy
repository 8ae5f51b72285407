/** Collecting what a child process writes, with a bound and a deadline. */
module Child {
  import opened Prelude

  const STDERR_CAP: nat := 64 * 1024
  const CHUNK: nat := 64 * 1024

  /** How one `read(2)` on a pipe turns out. `Some(n)` offers up to `n` more
      bytes, at least one if there are any left. */
  datatype ReadError = Interrupted | Broken
  datatype Turn = Offer(most: nat) | Fail(error: ReadError)

  /** A pipe the child writes `stream` into before closing it. What a read
      brings depends on when it happens. */
  class Pipe {
    const stream: seq<u8>
    const turns: nat -> Turn
    var pos: nat
    var asked: nat

    ghost predicate Valid()
      reads this
    {
      pos <= |stream|
    }

    constructor (stream: seq<u8>, turns: nat -> Turn)
      ensures Valid() && this.stream == stream && this.turns == turns && pos == asked == 0
    {
      this.stream := stream;
      this.turns := turns;
      pos := 0;
      asked := 0;
    }

    /** Reads at most `n` bytes. As nobody asks for zero bytes, getting none
        means the end of the stream. */
    method Read(n: nat) returns (r: Result<seq<u8>, ReadError>)
      requires Valid() && n > 0
      modifies this
      ensures Valid()
      ensures match r
              case Ok(b) =>
                && |b| <= n && old(pos) <= pos && b == stream[old(pos)..pos]
                && (b == [] <==> old(pos) == |stream|)
                && turns(old(asked)).Offer?
              case Err(e) => pos == old(pos) && turns(old(asked)) == Fail(e)
      ensures asked == old(asked) + 1
    {
      var turn := turns(asked);
      asked := asked + 1;
      if turn.Fail? {
        return Err(turn.error);
      }
      var left := |stream| - pos;
      var most := if turn.most == 0 then 1 else turn.most;
      var k := if most <= n then most else n;
      k := if k <= left then k else left;
      r := Ok(stream[pos..pos + k]);
      pos := pos + k;
    }
  }

  /** A byte vector whose allocation was made once. Every operation keeps the
      length within that allocation, so none of them moves the bytes. */
  class Buffer {
    const capacity: nat
    var bytes: seq<u8>

    ghost predicate Valid()
      reads this
    {
      |bytes| <= capacity
    }

    constructor (capacity: nat)
      ensures Valid() && this.capacity == capacity && bytes == []
    {
      this.capacity := capacity;
      bytes := [];
    }

    /** Grows to `n` bytes by appending zeroes. */
    method Resize(n: nat)
      requires Valid() && |bytes| <= n <= capacity
      modifies this
      ensures Valid() && |bytes| == n && old(bytes) <= bytes
    {
      bytes := bytes + seq(n - |bytes|, _ => 0);
    }

    /** Overwrites the bytes from `start` on. */
    method Fill(start: nat, b: seq<u8>)
      requires Valid() && start + |b| <= |bytes|
      modifies this
      ensures Valid() && bytes == old(bytes)[..start] + b + old(bytes)[start + |b|..]
    {
      bytes := bytes[..start] + b + bytes[start + |b|..];
    }

    method Truncate(n: nat)
      requires Valid() && n <= |bytes|
      modifies this
      ensures Valid() && bytes == old(bytes)[..n]
    {
      bytes := bytes[..n];
    }
  }

  datatype Trouble = TooMuch(cap: nat) | ReadFailed | PollFailed

  /** One piped stream: the pipe while it is open, and what came out of it. */
  class Stream {
    const pipe: Pipe
    const into: Buffer
    const cap: nat
    var open: bool

    ghost predicate Valid()
      reads this, pipe, into
    {
      && pipe.Valid() && into.Valid() && into.capacity == cap
      && into.bytes == pipe.stream[..pipe.pos]
      && (!open ==> into.bytes == pipe.stream)
    }

    /** A stream that was not piped is one that is closed from the start. */
    constructor (pipe: Pipe, piped: bool, cap: nat)
      requires pipe.Valid() && pipe.pos == 0 && (piped || pipe.stream == [])
      ensures Valid() && fresh(into) && this.pipe == pipe && this.cap == cap && open == piped
    {
      this.pipe := pipe;
      this.cap := cap;
      into := new Buffer(cap);
      open := piped;
      new;
      assert into.bytes == pipe.stream[..0];
    }

    /** One read's worth: some more of the stream; or its end, which closes it;
        or, when the buffer is full and there is more, a refusal. Being
        interrupted changes nothing. */
    method Drain() returns (r: Result<(), Trouble>)
      requires Valid() && open
      modifies this, pipe, into
      ensures r.Ok? ==> Valid()
      ensures into.Valid() && pipe.asked == old(pipe.asked) + 1
      ensures match pipe.turns(old(pipe.asked))
              case Fail(Interrupted) => r == Ok(()) && open && pipe.pos == old(pipe.pos)
              case Fail(Broken) => r == Err(ReadFailed)
              case Offer(_) =>
                if old(pipe.pos) == |pipe.stream| then r == Ok(()) && !open && pipe.pos == old(pipe.pos)
                else if old(pipe.pos) == cap then r == Err(TooMuch(cap))
                else r == Ok(()) && open && pipe.pos > old(pipe.pos)
    {
      var start := |into.bytes|;
      if start == cap {
        var probe := pipe.Read(1);
        match probe {
          case Ok(b) =>
            if b == [] {
              open := false;
              assert pipe.stream[..|pipe.stream|] == pipe.stream;
              return Ok(());
            }
            return Err(TooMuch(cap));
          case Err(Interrupted) => return Ok(());
          case Err(_) => return Err(ReadFailed);
        }
      }
      var most := if cap - start <= CHUNK then cap - start else CHUNK;
      into.Resize(start + most);
      var read := pipe.Read(most);
      match read {
        case Ok(b) =>
          into.Fill(start, b);
          into.Truncate(start + |b|);
          assert into.bytes == pipe.stream[..pipe.pos];
          if b == [] {
            open := false;
            assert pipe.stream[..|pipe.stream|] == pipe.stream;
          }
          return Ok(());
        case Err(Interrupted) =>
          into.Truncate(start);
          return Ok(());
        case Err(_) =>
          into.Truncate(start);
          return Err(ReadFailed);
      }
    }
  }

  // ---- Waiting on the child and both its streams -------------------------

  datatype Fd = PidFd | StdoutFd | StderrFd

  /** What one `poll(2)` reports: an error, an interruption, or which of the
      child and its streams have something to say. */
  datatype Poll = PollError | PollInterrupted | Woken(ready: set<Fd>)

  /** The descriptors polled, in the order they are pushed. */
  function Polled(exited: bool, stdoutOpen: bool, stderrOpen: bool): seq<Fd> {
    (if exited then [] else [PidFd]) + (if stdoutOpen then [StdoutFd] else []) + (if stderrOpen then [StderrFd] else [])
  }

  function Revents(fds: seq<Fd>, ready: set<Fd>): (r: seq<bool>)
    ensures |r| == |fds|
    ensures forall i :: 0 <= i < |r| ==> r[i] == (fds[i] in ready)
  {
    seq(|fds|, i requires 0 <= i < |fds| => fds[i] in ready)
  }

  /** Walks the flags in the order the descriptors were pushed, skipping what
      was not. Each flag lands on its own descriptor, whichever are left. */
  method Assign(exited: bool, stdoutOpen: bool, stderrOpen: bool, revents: seq<bool>, ghost ready: set<Fd>)
    returns (pid: bool, out: bool, err: bool)
    requires revents == Revents(Polled(exited, stdoutOpen, stderrOpen), ready)
    ensures pid <==> !exited && PidFd in ready
    ensures out <==> stdoutOpen && StdoutFd in ready
    ensures err <==> stderrOpen && StderrFd in ready
  {
    var next := 0;
    pid, out, err := false, false, false;
    if !exited {
      pid := revents[next];
      next := next + 1;
    }
    if stdoutOpen {
      out := revents[next];
      next := next + 1;
    }
    if stderrOpen {
      err := revents[next];
    }
  }

  ghost predicate Breaks(pipe: Pipe) {
    exists k: nat :: pipe.turns(k) == Fail(Broken)
  }

  method DrainIf(stream: Stream, ready: bool) returns (r: Result<(), Trouble>)
    requires stream.Valid() && (ready ==> stream.open)
    modifies stream, stream.pipe, stream.into
    ensures r.Ok? ==> stream.Valid()
    ensures r.Err? ==> Hindered(stream, r.error)
    ensures stream.pipe.asked == old(stream.pipe.asked) + if ready then 1 else 0
    ensures old(!stream.open) ==> !stream.open
  {
    r := Ok(());
    if ready {
      r := stream.Drain();
    }
  }

  /** Why draining a stream failed. */
  ghost predicate Hindered(stream: Stream, error: Trouble) {
    match error
    case TooMuch(cap) => cap == stream.cap && |stream.pipe.stream| > cap
    case ReadFailed => Breaks(stream.pipe)
    case PollFailed => false
  }

  /** How often a descriptor was reported ready in the passes before `n`, which
      count from one. */
  function Reports(polls: nat -> Poll, fd: Fd, n: nat): nat {
    if n <= 1 then 0
    else Reports(polls, fd, n - 1) + if polls(n - 1).Woken? && fd in polls(n - 1).ready then 1 else 0
  }

  /** A stream has been read to its end, or from each time there was something
      to read. */
  ghost predicate KeptUp(pipe: Pipe, polls: nat -> Poll, fd: Fd, n: nat)
    reads pipe
  {
    pipe.pos == |pipe.stream| || pipe.asked == Reports(polls, fd, n)
  }

  /** A stream still open has been read from once for each report so far. */
  ghost predicate InStep(stream: Stream, polls: nat -> Poll, fd: Fd, n: nat)
    reads stream, stream.pipe
  {
    stream.open ==> stream.pipe.asked == Reports(polls, fd, n)
  }

  lemma StillInStep(wasOpen: bool, asked: nat, stream: Stream, polls: nat -> Poll, fd: Fd, n: nat)
    requires n > 0 && (wasOpen ==> asked == Reports(polls, fd, n))
    requires After(wasOpen, asked, stream, polls(n).Woken? && fd in polls(n).ready)
    ensures InStep(stream, polls, fd, n + 1)
  {
  }

  lemma InStepKeptUp(stream: Stream, polls: nat -> Poll, fd: Fd, n: nat)
    requires stream.Valid() && InStep(stream, polls, fd, n)
    ensures KeptUp(stream.pipe, polls, fd, n)
  {
  }

  /** Sees to whatever one poll reported. */
  method Attend(stdout: Stream, stderr: Stream, exited: bool, ready: set<Fd>) returns (r: Result<bool, Trouble>)
    requires stdout.Valid() && stderr.Valid()
    requires stdout != stderr && stdout.into != stderr.into && stdout.pipe != stderr.pipe
    modifies stdout, stdout.pipe, stdout.into, stderr, stderr.pipe, stderr.into
    ensures r.Ok? ==> stdout.Valid() && stderr.Valid() && r.value == (exited || PidFd in ready)
    ensures r.Ok? ==> After(old(stdout.open), old(stdout.pipe.asked), stdout, StdoutFd in ready)
    ensures r.Ok? ==> After(old(stderr.open), old(stderr.pipe.asked), stderr, StderrFd in ready)
    ensures r.Err? ==> Hindered(stdout, r.error) || Hindered(stderr, r.error)
  {
    var revents := Revents(Polled(exited, stdout.open, stderr.open), ready);
    var pid, out, err := Assign(exited, stdout.open, stderr.open, revents, ready);
    var drained :- DrainIf(stdout, out);
    drained :- DrainIf(stderr, err);
    r := Ok(exited || pid);
  }

  /** An open stream was read from once if it was ready; a closed one stays
      closed. */
  ghost predicate After(wasOpen: bool, asked: nat, stream: Stream, ready: bool)
    reads stream, stream.pipe
  {
    if wasOpen then stream.pipe.asked == asked + (if ready then 1 else 0) else !stream.open
  }

  ghost predicate NotBack(now: nat -> nat, i: nat, j: nat) {
    i <= j ==> now(i) <= now(j)
  }

  /** Success means the child exited and each stream was read to its end, in
      order and in full; `TooMuch` means a stream really was longer than its
      bound; `None` means the deadline passed although each stream had been read
      from whenever it was ready. */
  ghost predicate Delivers(
    r: Result<Option<(seq<u8>, seq<u8>)>, Trouble>, stdout: Pipe, stdoutCap: nat, stderr: Pipe, stderrCap: nat,
    deadline: nat, now: nat -> nat, polls: nat -> Poll)
    reads stdout, stderr
  {
    match r
    case Ok(Some((out, err))) =>
      && out == stdout.stream && |out| <= stdoutCap
      && err == stderr.stream && |err| <= stderrCap
      && exists k: nat :: Reports(polls, PidFd, k) > 0
    case Ok(None) =>
      exists k: nat :: now(k) >= deadline && KeptUp(stdout, polls, StdoutFd, k) && KeptUp(stderr, polls, StderrFd, k)
    case Err(TooMuch(cap)) =>
      || (cap == stdoutCap && |stdout.stream| > stdoutCap)
      || (cap == stderrCap && |stderr.stream| > stderrCap)
    case Err(ReadFailed) => Breaks(stdout) || Breaks(stderr)
    case Err(PollFailed) => exists k: nat :: polls(k) == PollError
  }

  /** `polls` may be anything, and `now` any clock that never goes back and
      reaches the deadline. */
  method Collect(
    stdoutPipe: Pipe, stdoutPiped: bool, stderrPipe: Pipe, stderrPiped: bool,
    timeout: nat, stdoutCap: nat, now: nat -> nat, polls: nat -> Poll)
    returns (r: Result<Option<(seq<u8>, seq<u8>)>, Trouble>)
    requires stdoutPipe.Valid() && stdoutPipe.pos == stdoutPipe.asked == 0 && (stdoutPiped || stdoutPipe.stream == [])
    requires stderrPipe.Valid() && stderrPipe.pos == stderrPipe.asked == 0 && (stderrPiped || stderrPipe.stream == [])
    requires stdoutPipe != stderrPipe
    requires forall i: nat, j: nat :: NotBack(now, i, j)
    requires exists k: nat :: now(k) >= now(0) + timeout
    modifies stdoutPipe, stderrPipe
    ensures Delivers(r, stdoutPipe, stdoutCap, stderrPipe, 65536, now(0) + timeout, now, polls)
  {
    var stdout := new Stream(stdoutPipe, stdoutPiped, stdoutCap);
    var stderr := new Stream(stderrPipe, stderrPiped, STDERR_CAP);
    r := DrainBoth(stdout, stderr, now(0) + timeout, now, polls);
  }

  method DrainBoth(stdout: Stream, stderr: Stream, deadline: nat, now: nat -> nat, polls: nat -> Poll)
    returns (r: Result<Option<(seq<u8>, seq<u8>)>, Trouble>)
    requires stdout.Valid() && stderr.Valid()
    requires stdout != stderr && stdout.into != stderr.into && stdout.pipe != stderr.pipe
    requires stdout.pipe.asked == stderr.pipe.asked == 0
    requires forall i: nat, j: nat :: NotBack(now, i, j)
    requires exists k: nat :: now(k) >= deadline
    modifies stdout, stdout.pipe, stdout.into, stderr, stderr.pipe, stderr.into
    ensures Delivers(r, stdout.pipe, stdout.cap, stderr.pipe, stderr.cap, deadline, now, polls)
  {
    var exited := false;
    var pass := 0;
    ghost var late: nat :| now(late) >= deadline;
    while !exited || stdout.open || stderr.open
      invariant stdout.Valid() && stderr.Valid()
      invariant exited <==> Reports(polls, PidFd, pass + 1) > 0
      invariant InStep(stdout, polls, StdoutFd, pass + 1) && InStep(stderr, polls, StderrFd, pass + 1)
      decreases if pass < late then late - pass else 0
    {
      assert NotBack(now, late, pass + 1);
      pass := pass + 1;
      if now(pass) >= deadline {
        InStepKeptUp(stdout, polls, StdoutFd, pass);
        InStepKeptUp(stderr, polls, StderrFd, pass);
        return Ok(None);
      }
      var poll := polls(pass);
      match poll {
        case PollInterrupted => continue;
        case PollError => return Err(PollFailed);
        case Woken(ready) =>
          ghost var outOpen, outAsked := stdout.open, stdout.pipe.asked;
          ghost var errOpen, errAsked := stderr.open, stderr.pipe.asked;
          exited :- Attend(stdout, stderr, exited, ready);
          StillInStep(outOpen, outAsked, stdout, polls, StdoutFd, pass);
          StillInStep(errOpen, errAsked, stderr, polls, StderrFd, pass);
      }
    }
    r := Ok(Some((stdout.into.bytes, stderr.into.bytes)));
  }
}
