/** One console shared by commands: who holds its terminal, and what each command types into it.

    `DispatchRequest` is one command from its wait for the terminal to its end, whatever the stream, the sinks and the
    abandon hook do. The last part puts the traces of any number of commands together in any interleaving. */
module Terminal {
  import opened Options

  /** What one command does to the terminal. */
  datatype Act = Acquire | Typed(text: string) | Line(text: string) | Free

  datatype Event = Event(request: nat, act: Act)

  datatype Phase = Before | Inside | After | Bad

  function NextPhase(p: Phase, act: Act): Phase {
    match act
    case Acquire => if p == Before then Inside else Bad
    case Typed(_) => if p == Inside then Inside else Bad
    case Line(_) => if p == Inside then Inside else Bad
    case Free => if p == Inside then After else Bad
  }

  /** Where a command is after these acts: it takes the terminal once, types only while it has it, frees it once. */
  function PhaseOf(acts: seq<Act>): Phase {
    if acts == [] then Before else NextPhase(PhaseOf(acts[..|acts| - 1]), acts[|acts| - 1])
  }

  lemma {:induction false} PhaseMore(acts: seq<Act>, act: Act)
    ensures PhaseOf(acts + [act]) == NextPhase(PhaseOf(acts), act)
  {
    assert (acts + [act])[..|acts|] == acts;
  }

  // ------------------------------------------------------------------------------ what the world answers

  /** The exceptions the code tells apart. `OsError` includes Python's `TimeoutError` only where the code says so. */
  datatype Error = NotStarted | OsError | TimeoutError | Expired | Other | Interrupt

  datatype Outcome = Fine | Raises(error: Error)

  /** One round of the receive loop: the deadline, the read, the status it may bring, and what the sink does. */
  datatype Turn = Turn(late: bool, read: Outcome, status: Option<int>, sink: Outcome)

  /** The abandon hook: whether it says the command may still run, or raises. */
  datatype Abandon = MayRun(yes: bool) | HookRaises(ordinary: bool)

  datatype Script = Script(factory: Outcome, files: seq<string>, prepare: Outcome, line: string, write: Outcome,
                           feedFails: bool, turns: seq<Turn>, abandon: Abandon, flush: Outcome)

  datatype Exit = Returned(status: int) | Declined | TimedOut(orphaned: bool) | AlreadySent | Failed(error: Error)

  /** The stream's own write of the command line refuses as if nothing had started. */
  predicate LineRefused(s: Script) {
    s.factory == Fine && s.prepare == Fine && s.write == Raises(NotStarted)
  }

  const STOPPED: seq<Act> := [Typed("\U{03}"), Free]

  function FilesTyped(files: seq<string>): seq<Act> {
    seq(|files|, i requires 0 <= i < |files| => Typed(files[i]))
  }

  function Typing(s: Script): seq<Act> { [Acquire] + FilesTyped(s.files) }

  /** The status, if one arrives before the deadline and before an error. */
  function StatusOf(turns: seq<Turn>): Option<int> {
    if turns == [] || turns[0].late || turns[0].read != Fine then None
    else if turns[0].status.Some? then turns[0].status
    else if turns[0].sink != Fine then None
    else StatusOf(turns[1..])
  }

  /** All that a command which gets the terminal does to it: it types its files, then its line, and frees it when the
      status is there - or types ^C and frees it. */
  function Trace(s: Script): seq<Act> {
    if s.factory != Fine then [Acquire, Free]
    else if s.prepare != Fine then Typing(s) + STOPPED
    else if LineRefused(s) then Typing(s) + [Line(s.line)]
    else if s.write == Fine && !s.feedFails && StatusOf(s.turns).Some? then Typing(s) + [Line(s.line)] + [Free]
    else Typing(s) + [Line(s.line)] + STOPPED
  }

  /** Nothing in the first `n` rounds ends the loop. */
  ghost predicate Undecided(turns: seq<Turn>, n: nat) {
    n <= |turns| && forall i :: 0 <= i < n ==> turns[i] == Turn(false, Fine, None, Fine)
  }

  /** The first round that ends the loop brings this status, in time, and nothing raises. */
  ghost predicate Finishes(turns: seq<Turn>, status: int) {
    exists n: nat :: n < |turns| && Undecided(turns, n) && turns[n] == Turn(false, Fine, Some(status), Fine)
  }

  lemma {:induction false} FinishesAt(turns: seq<Turn>, n: nat)
    requires Undecided(turns, n)
    ensures n < |turns| && turns[n] != Turn(false, Fine, None, Fine) ==>
              forall status :: Finishes(turns, status) <==> turns[n] == Turn(false, Fine, Some(status), Fine)
    ensures n == |turns| ==> forall status :: !Finishes(turns, status)
  {
    forall status, m: nat | m < |turns| && Undecided(turns, m) && turns[m] == Turn(false, Fine, Some(status), Fine)
      ensures n < |turns| && turns[n] != Turn(false, Fine, None, Fine) ==> m == n
      ensures m >= n
    {
    }
    forall status | n < |turns| && turns[n] == Turn(false, Fine, Some(status), Fine) ensures Finishes(turns, status) {
      assert Undecided(turns, n);
    }
  }

  /** The command proves that nothing started: it got no stream, or its files could not be typed and nobody interrupts,
      or the stream refused the line. */
  predicate Refuses(s: Script) {
    s.factory in {Raises(OsError), Raises(TimeoutError), Raises(NotStarted)} ||
    (s.factory == Fine && s.prepare == Raises(NotStarted) && s.abandon != HookRaises(false)) || LineRefused(s)
  }

  /** The command line was typed and accepted, and so was what came with it. */
  predicate Started(s: Script) { s.factory == Fine && s.prepare == Fine && s.write == Fine && !s.feedFails }

  lemma {:induction false} StoppedIs(acts: seq<Act>)
    ensures acts + [Typed("\U{03}")] + [Free] == acts + STOPPED
  {
  }

  /** The command line was not typed. */
  predicate NoLine(acts: seq<Act>) { forall i :: 0 <= i < |acts| ==> !acts[i].Line? }

  /** Started says that the line was typed. */
  predicate Agrees(running: Running, acts: seq<Act>) { PhaseOf(acts) == Inside && (running.started <==> !NoLine(acts)) }

  function Tagged(request: nat, acts: seq<Act>): seq<Event> {
    seq(|acts|, i requires 0 <= i < |acts| => Event(request, acts[i]))
  }

  lemma {:induction false} TaggedMore(request: nat, acts: seq<Act>, act: Act)
    ensures Tagged(request, acts + [act]) == Tagged(request, acts) + [Event(request, act)]
  {
  }

  /** The command that holds the terminal, and whether its line was written or a write of it was tried. */
  datatype Running = Running(request: nat, started: bool)

  class ConsoleExecutor {
    var locked: bool
    var running: Option<Running>
    ghost var log: seq<Event>

    ghost predicate Valid()
      reads this
    {
      locked <==> running.Some?
    }

    ghost predicate Holds(request: nat)
      reads this
    {
      locked && running.Some? && running.value.request == request
    }

    constructor ()
      ensures Valid() && !locked && log == []
    {
      locked, running, log := false, None, [];
    }

    /** Every act of a call goes to the log, and to the call's own trace. */
    ghost method Note(request: nat, base: seq<Event>, acts: seq<Act>, act: Act) returns (more: seq<Act>)
      requires log == base + Tagged(request, acts)
      modifies this`log
      ensures more == acts + [act] && log == base + Tagged(request, more)
      ensures PhaseOf(more) == NextPhase(PhaseOf(acts), act)
      ensures NoLine(more) <==> NoLine(acts) && !act.Line?
    {
      more := acts + [act];
      PhaseMore(acts, act);
      TaggedMore(request, acts, act);
      assert base + Tagged(request, acts) + [Event(request, act)] == base + (Tagged(request, acts) + [Event(request, act)]);
      log := log + [Event(request, act)];
    }

    /** Free the terminal, if this command holds it. */
    method Release(request: nat, ghost base: seq<Event>, ghost acts: seq<Act>) returns (ghost more: seq<Act>)
      requires Valid() && log == base + Tagged(request, acts) && (Holds(request) ==> PhaseOf(acts) == Inside)
      modifies this
      ensures Valid() && log == base + Tagged(request, more)
      ensures if old(Holds(request)) then !locked && PhaseOf(more) == After else (more == acts && running == old(running))
      ensures old(Holds(request)) ==> more == acts + [Free]
      ensures NoLine(acts) <==> NoLine(more)
    {
      more := acts;
      if running.Some? && running.value.request == request {
        running := None;
        locked := false;
        more := Note(request, base, acts, Free);
      }
    }

    /** Type ^C and free the terminal; whether the command may still run. */
    method Stop(request: nat, abandon: Abandon, hasStream: bool, ghost base: seq<Event>, ghost acts: seq<Act>)
      returns (orphaned: bool, interrupted: bool, ghost more: seq<Act>)
      requires Valid() && log == base + Tagged(request, acts) && (Holds(request) ==> PhaseOf(acts) == Inside)
      modifies this
      ensures Valid() && log == base + Tagged(request, more)
      ensures if old(Holds(request)) then !locked && PhaseOf(more) == After else (more == acts && running == old(running))
      ensures old(Holds(request)) && hasStream ==> more == acts + STOPPED
      ensures !interrupted && orphaned ==> old(Holds(request) && running.value.started)
      ensures interrupted <==> old(Holds(request)) && abandon == HookRaises(false)
      ensures NoLine(acts) <==> NoLine(more)
    {
      more := acts;
      interrupted := false;
      if running.None? || running.value.request != request { return false, false, more; }
      var started := running.value.started;
      StoppedIs(acts);
      if hasStream { more := Note(request, base, acts, Typed("\U{03}")); }
      orphaned := (if abandon.MayRun? then abandon.yes else true) && started;
      interrupted := abandon.HookRaises? && !abandon.ordinary;
      more := Release(request, base, more);
    }

    /** Wait for the terminal, get a stream, type the files and then the line. A wait that succeeds is a call that
        came when the terminal was free: nothing happens before. */
    method Send(request: nat, s: Script) returns (outcome: Outcome, ghost acts: seq<Act>)
      requires Valid() && !Holds(request)
      modifies this
      ensures Valid() && log == old(log) + Tagged(request, acts)
      ensures old(locked) ==> outcome == Raises(Expired) && acts == [] && running == old(running)
      ensures !old(locked) ==> if Holds(request) then Agrees(running.value, acts) else !locked && PhaseOf(acts) == After
      ensures !old(locked) && !Holds(request) ==> acts == Trace(s)
      ensures !old(locked) && Holds(request) ==>
        s.factory == Fine && acts == Typing(s) + (if s.prepare == Fine then [Line(s.line)] else [])
      ensures outcome == Fine ==> Holds(request) && running.value.started
      ensures !old(locked) && s.factory == Fine && s.prepare == Fine ==>
        outcome == (if s.write == Fine && s.feedFails then Raises(Other) else s.write)
      ensures outcome == Raises(NotStarted) && Holds(request) <==> !old(locked) && LineRefused(s)
      ensures outcome == Raises(NotStarted) && !LineRefused(s) ==> NoLine(acts)
      ensures !old(locked) ==> (outcome == Raises(NotStarted) <==> Refuses(s)) && (outcome == Fine <==> Started(s))
    {
      acts := [];
      assert log + Tagged(request, []) == log;
      if locked { return Raises(Expired), acts; }
      locked := true;
      running := Some(Running(request, false));
      acts := Note(request, old(log), acts, Acquire);
      if s.factory != Fine {
        assert acts + [Free] == [Acquire, Free];
        acts := Release(request, old(log), acts);
        outcome := if s.factory.error in {OsError, TimeoutError} then Raises(NotStarted) else s.factory;
        return;
      }
      assert acts == [Acquire];
      acts := TypeFiles(request, s.files, old(log), acts);
      assert acts == Typing(s) && Typing(s) + [] == Typing(s);
      if s.prepare != Fine {
        outcome, acts := PrepareFailed(request, s, old(log), acts);
        return;
      }
      running := Some(running.value.(started := true));
      acts := Note(request, old(log), acts, Line(s.line));
      assert acts[|acts| - 1].Line?;
      outcome := if s.write != Fine then s.write else if s.feedFails then Raises(Other) else Fine;
    }

    method TypeFiles(request: nat, files: seq<string>, ghost base: seq<Event>, ghost acts: seq<Act>) returns (ghost more: seq<Act>)
      requires log == base + Tagged(request, acts) && PhaseOf(acts) == Inside && NoLine(acts)
      modifies this`log
      ensures log == base + Tagged(request, more) && PhaseOf(more) == Inside && NoLine(more)
      ensures more == acts + FilesTyped(files)
    {
      more := acts;
      for i := 0 to |files|
        invariant log == base + Tagged(request, more) && PhaseOf(more) == Inside && NoLine(more)
        invariant more == acts + FilesTyped(files[..i])
      {
        assert FilesTyped(files[..i + 1]) == FilesTyped(files[..i]) + [Typed(files[i])];
        more := Note(request, base, more, Typed(files[i]));
      }
      assert files[..|files|] == files;
    }

    method PrepareFailed(request: nat, s: Script, ghost base: seq<Event>, ghost acts: seq<Act>) returns (outcome: Outcome, ghost more: seq<Act>)
      requires Valid() && Holds(request) && !running.value.started && s.prepare != Fine
      requires log == base + Tagged(request, acts) && PhaseOf(acts) == Inside && NoLine(acts)
      modifies this
      ensures Valid() && log == base + Tagged(request, more) && NoLine(more)
      ensures if Holds(request) then PhaseOf(more) == Inside && !running.value.started else !locked && PhaseOf(more) == After
      ensures more == if Holds(request) then acts else acts + STOPPED
      ensures outcome != Fine && (outcome == Raises(NotStarted) ==> !Holds(request))
      ensures outcome == Raises(NotStarted) <==> s.prepare == Raises(NotStarted) && s.abandon != HookRaises(false)
    {
      more := acts;
      if s.prepare.error == NotStarted {
        var orphaned, interrupted;
        orphaned, interrupted, more := Stop(request, s.abandon, true, base, acts);
        outcome := if interrupted then Raises(Interrupt) else Raises(NotStarted);
      } else if s.prepare.error == TimeoutError {
        outcome := Raises(Expired);
      } else {
        outcome := s.prepare;
      }
    }

    /** What becomes of an error of the send or of the receive loop. */
    method Settle(request: nat, s: Script, error: Error, sent: bool, ghost base: seq<Event>, ghost acts: seq<Act>)
      returns (exit: Exit, ghost more: seq<Act>)
      requires Valid() && log == base + Tagged(request, acts) && (Holds(request) ==> PhaseOf(acts) == Inside)
      modifies this
      ensures Valid() && log == base + Tagged(request, more)
      ensures if error == NotStarted && !sent then more == acts && running == old(running) && exit == Declined else
              if old(Holds(request)) then !locked && PhaseOf(more) == After else more == acts && running == old(running)
      ensures old(Holds(request)) && s.factory == Fine && !(error == NotStarted && !sent) ==> more == acts + STOPPED
      ensures exit == TimedOut(true) ==> old(Holds(request) && running.value.started)
      ensures exit.TimedOut? ==> error == Expired
      ensures !old(Holds(request)) && error == Expired ==> exit == TimedOut(false)
      ensures !exit.Returned? && (exit == Declined <==> error == NotStarted && !sent)
      ensures !NoLine(acts) ==> !NoLine(more)
    {
      more := acts;
      if error == NotStarted && !sent { return Declined, more; }
      var orphaned, interrupted;
      orphaned, interrupted, more := Stop(request, s.abandon, s.factory == Fine, base, acts);
      if interrupted { return Failed(Interrupt), more; }
      exit := if error == Expired then TimedOut(orphaned)
              else if error == NotStarted then AlreadySent
              else Failed(error);
    }

    /** Receive until the status: `None` is an error that ends the loop. The terminal is free from the moment the
        status is there. */
    method ReceiveAll(request: nat, turns: seq<Turn>, ghost base: seq<Event>, ghost acts: seq<Act>)
      returns (status: Option<int>, error: Error, ghost more: seq<Act>)
      requires Valid() && Holds(request) && PhaseOf(acts) == Inside && log == base + Tagged(request, acts)
      modifies this
      ensures Valid() && log == base + Tagged(request, more)
      ensures if Holds(request) then more == acts && running == old(running) else !locked && PhaseOf(more) == After
      ensures !Holds(request) <==> StatusOf(turns).Some?
      ensures !Holds(request) ==> more == acts + [Free]
      ensures status.Some? ==> status == StatusOf(turns)
      ensures forall k :: status == Some(k) <==> Finishes(turns, k)
      ensures NoLine(acts) <==> NoLine(more)
    {
      more := acts;
      for i := 0 to |turns|
        invariant Valid() && Holds(request) && running == old(running) && log == old(log) && more == acts
        invariant StatusOf(turns) == StatusOf(turns[i..]) && Undecided(turns, i)
      {
        hide Finishes;
        FinishesAt(turns, i);
        assert turns[i..][1..] == turns[i + 1..];
        var turn := turns[i];
        if turn.late { return None, Expired, more; }
        if turn.read != Fine { return None, turn.read.error, more; }
        if turn.status.Some? { more := Release(request, base, acts); }
        if turn.sink != Fine { return None, turn.sink.error, more; }
        if turn.status.Some? { return turn.status, Other, more; }
      }
      FinishesAt(turns, |turns|);
      return None, Expired, more;
    }

    /** One command, from its wait for the terminal to its end. */
    method DispatchRequest(request: nat, s: Script) returns (exit: Exit, ghost acts: seq<Act>)
      requires Valid() && !Holds(request)
      modifies this
      ensures Valid() && log == old(log) + Tagged(request, acts)
      // A terminal that stays taken is left alone.
      ensures old(locked) ==> acts == [] && running == old(running) && exit == TimedOut(false)
      // Taken once, freed once, typed into only in between - unless the stream refuses the line as never started.
      ensures !old(locked) ==> acts == Trace(s)
      ensures !old(locked) ==> ((PhaseOf(acts) == After && !locked) <==> !LineRefused(s))
      ensures !old(locked) && LineRefused(s) ==> Holds(request) && PhaseOf(acts) == Inside && exit == Declined
      // It is declined exactly when it proves that nothing started; and it returns exactly when its status arrives in
      // time and nothing raises, and then with that status.
      ensures !old(locked) ==> (exit == Declined <==> Refuses(s))
      ensures !old(locked) ==> forall k :: exit == Returned(k) <==> Started(s) && Finishes(s.turns, k) && s.flush == Fine
      // A decline, and a timeout that orphans nothing, say what was typed.
      ensures exit == Declined && !LineRefused(s) ==> NoLine(acts)
      ensures exit == TimedOut(true) ==> !NoLine(acts)
      ensures exit.Returned? ==> !NoLine(acts) && StatusOf(s.turns) == Some(exit.status)
    {
      var outcome;
      outcome, acts := Send(request, s);
      if outcome != Fine {
        exit, acts := Settle(request, s, outcome.error, false, old(log), acts);
        return;
      }
      var status, error;
      status, error, acts := ReceiveAll(request, s.turns, old(log), acts);
      if status.None? {
        exit, acts := Settle(request, s, error, true, old(log), acts);
        return;
      }
      exit := if s.flush != Fine then Failed(s.flush.error) else Returned(status.value);
    }
  }

  // --------------------------------------------------------------------------- commands interleaved

  function Project(g: seq<Event>, request: nat): seq<Act> {
    if g == [] then []
    else
      var last := g[|g| - 1];
      Project(g[..|g| - 1], request) + (if last.request == request then [last.act] else [])
  }

  /** Whose lock it is: a plain lock, which any `release` would free. */
  function Holder(g: seq<Event>): Option<nat> {
    if g == [] then None
    else
      var last := g[|g| - 1];
      if last.act.Acquire? then Some(last.request) else if last.act.Free? then None else Holder(g[..|g| - 1])
  }

  /** The lock's promise: it is taken only when it is free. */
  predicate LockKept(g: seq<Event>) {
    forall n :: 0 <= n < |g| && g[n].act.Acquire? ==> Holder(g[..n]).None?
  }

  /** Every command so far did a part of what `DispatchRequest` does. */
  ghost predicate AllBehave(g: seq<Event>) {
    forall r: nat :: PhaseOf(Project(g, r)) != Bad
  }

  predicate Types(e: Event) { e.act.Typed? || e.act.Line? }

  lemma {:induction false} ProjectMore(g: seq<Event>, r: nat)
    requires g != []
    ensures var e := g[|g| - 1];
            PhaseOf(Project(g, r))
            == if e.request == r then NextPhase(PhaseOf(Project(g[..|g| - 1], r)), e.act) else PhaseOf(Project(g[..|g| - 1], r))
  {
    var before := Project(g[..|g| - 1], r);
    PhaseMore(before, g[|g| - 1].act);
    assert before + [] == before;
  }

  lemma {:induction false} Shorter(g: seq<Event>)
    requires g != [] && AllBehave(g) && LockKept(g)
    ensures AllBehave(g[..|g| - 1]) && LockKept(g[..|g| - 1])
  {
    hide PhaseOf, Project;
    var h := g[..|g| - 1];
    forall r: nat ensures PhaseOf(Project(h, r)) != Bad {
      ProjectMore(g, r);
      assert PhaseOf(Project(g, r)) != Bad;
    }
    forall n | 0 <= n < |h| && h[n].act.Acquire? ensures Holder(h[..n]).None? {
      assert h[..n] == g[..n];
    }
  }

  lemma {:induction false} NothingDone(r: nat)
    ensures PhaseOf(Project([], r)) == Before
  {
  }

  lemma {:induction false} OneBehaves(g: seq<Event>, r: nat)
    requires AllBehave(g)
    ensures PhaseOf(Project(g, r)) != Bad
  {
  }

  /** Whoever is between taking and freeing has the lock, and nobody else is. */
  lemma {:induction false} HolderIsInside(g: seq<Event>, r: nat)
    requires AllBehave(g) && LockKept(g)
    ensures Holder(g) == Some(r) <==> PhaseOf(Project(g, r)) == Inside
    decreases |g|
  {
    hide PhaseOf, Project, AllBehave;
    if g == [] {
      NothingDone(r);
    } else {
      var e := g[|g| - 1];
      Shorter(g);
      HolderIsInside(g[..|g| - 1], r);
      HolderIsInside(g[..|g| - 1], e.request);
      ProjectMore(g, r);
      ProjectMore(g, e.request);
      OneBehaves(g, e.request);
    }
  }

  function Rank(p: Phase): nat { if p == Before then 0 else if p == Inside then 1 else if p == After then 2 else 3 }

  lemma {:induction false} RankGrows(g: seq<Event>, r: nat, i: nat, k: nat)
    requires i <= k <= |g|
    ensures Rank(PhaseOf(Project(g[..i], r))) <= Rank(PhaseOf(Project(g[..k], r)))
    decreases k
  {
    hide PhaseOf, Project;
    if i < k {
      RankGrows(g, r, i, k - 1);
      assert g[..k][..k - 1] == g[..k - 1];
      ProjectMore(g[..k], r);
    }
  }

  lemma {:induction false} PrefixesBehave(g: seq<Event>, n: nat)
    requires AllBehave(g) && LockKept(g) && n <= |g|
    ensures AllBehave(g[..n]) && LockKept(g[..n])
    decreases |g| - n
  {
    hide AllBehave, LockKept;
    if n == |g| {
      assert g[..n] == g;
    } else {
      PrefixesBehave(g, n + 1);
      Shorter(g[..n + 1]);
      assert g[..n + 1][..n] == g[..n];
    }
  }

  lemma {:induction false} TypingIsInside(g: seq<Event>, n: nat)
    requires AllBehave(g) && LockKept(g) && n < |g| && Types(g[n])
    ensures PhaseOf(Project(g[..n], g[n].request)) == Inside && Holder(g[..n]) == Some(g[n].request)
    ensures AllBehave(g[..n]) && LockKept(g[..n])
  {
    hide PhaseOf, Project, Holder, LockKept;
    var r := g[n].request;
    PrefixesBehave(g, n);
    PrefixesBehave(g, n + 1);
    assert g[..n + 1][..n] == g[..n];
    ProjectMore(g[..n + 1], r);
    assert PhaseOf(Project(g[..n + 1], r)) != Bad;
    HolderIsInside(g[..n], r);
  }

  /** Between two pieces that one command types there is nothing of another, if all behave. */
  lemma {:induction false} BehavingNeverMix(g: seq<Event>, i: nat, j: nat, k: nat)
    requires AllBehave(g) && LockKept(g) && i < j < k < |g|
    requires Types(g[i]) && Types(g[j]) && Types(g[k]) && g[i].request == g[k].request
    ensures g[j].request == g[i].request
  {
    hide PhaseOf, Project, Holder, LockKept, AllBehave;
    var r := g[i].request;
    TypingIsInside(g, i);
    TypingIsInside(g, j);
    TypingIsInside(g, k);
    RankGrows(g, r, i, j);
    RankGrows(g, r, j, k);
    HolderIsInside(g[..j], r);
  }

  /** A command that is not finished yet has done a beginning of its trace, and that behaves too. */
  lemma {:induction false} BeginningsBehave(acts: seq<Act>, n: nat)
    requires n <= |acts| && PhaseOf(acts) != Bad
    ensures PhaseOf(acts[..n]) != Bad
    decreases |acts| - n
  {
    if n < |acts| {
      BeginningsBehave(acts, n + 1);
      assert acts[..n + 1][..n] == acts[..n];
    } else {
      assert acts[..n] == acts;
    }
  }

  lemma {:induction false} PhaseOfFiles(files: seq<string>)
    ensures PhaseOf([Acquire] + FilesTyped(files)) == Inside
    decreases |files|
  {
    hide PhaseOf;
    if files == [] {
      PhaseMore([], Acquire);
      PhaseStart();
      assert [Acquire] + FilesTyped(files) == [] + [Acquire];
    } else {
      var n := |files| - 1;
      PhaseOfFiles(files[..n]);
      PhaseMore([Acquire] + FilesTyped(files[..n]), Typed(files[n]));
      assert [Acquire] + FilesTyped(files) == [Acquire] + FilesTyped(files[..n]) + [Typed(files[n])];
    }
  }

  lemma {:induction false} PhaseStart()
    ensures PhaseOf([]) == Before
  {
  }

  lemma {:induction false} PhaseOfStop(acts: seq<Act>)
    requires PhaseOf(acts) == Inside
    ensures PhaseOf(acts + STOPPED) == After && PhaseOf(acts + [Free]) == After
  {
    PhaseMore(acts, Typed("\U{03}"));
    PhaseMore(acts + [Typed("\U{03}")], Free);
    PhaseMore(acts, Free);
    StoppedIs(acts);
  }

  /** Whatever happens to a command, its whole trace takes the terminal once, types only while it has it, and frees it
      once - or, when the stream refuses the line, keeps it. */
  lemma {:induction false} TraceBehaves(s: Script)
    ensures PhaseOf(Trace(s)) == if LineRefused(s) then Inside else After
  {
    hide PhaseOf, StatusOf;
    PhaseOfFiles(s.files);
    PhaseOfStop(Typing(s));
    PhaseMore(Typing(s), Line(s.line));
    PhaseOfStop(Typing(s) + [Line(s.line)]);
    PhaseOfNothing();
    if s.factory != Fine { assert [Acquire, Free] == [Acquire] + [Free]; }
  }

  lemma {:induction false} PhaseOfNothing()
    ensures PhaseOf([Acquire] + [Free]) == After
  {
    PhaseMore([], Acquire);
    PhaseMore([Acquire], Free);
    assert [] + [Acquire] == [Acquire];
  }

  /** Each command has done some beginning of what `DispatchRequest` does for it. */
  ghost predicate EachDispatched(g: seq<Event>, scripts: nat -> Script) {
    forall r: nat :: Project(g, r) <= Trace(scripts(r))
  }

  lemma {:induction false} DispatchedBehave(g: seq<Event>, scripts: nat -> Script)
    requires EachDispatched(g, scripts)
    ensures AllBehave(g)
  {
    hide PhaseOf, Project, Trace;
    forall r: nat ensures PhaseOf(Project(g, r)) != Bad {
      TraceBehaves(scripts(r));
      BeginningsBehave(Trace(scripts(r)), |Project(g, r)|);
      assert Project(g, r) == Trace(scripts(r))[..|Project(g, r)|];
    }
  }

  /** What two commands type is never mixed, in any interleaving of any number of dispatches, finished or under way:
      between two pieces of one there is nothing of another. */
  lemma {:induction false} TypingNeverMixes(g: seq<Event>, scripts: nat -> Script, i: nat, j: nat, k: nat)
    requires EachDispatched(g, scripts) && LockKept(g) && i < j < k < |g|
    requires Types(g[i]) && Types(g[j]) && Types(g[k]) && g[i].request == g[k].request
    ensures g[j].request == g[i].request
  {
    hide LockKept, EachDispatched, AllBehave;
    DispatchedBehave(g, scripts);
    BehavingNeverMix(g, i, j, k);
  }
}
