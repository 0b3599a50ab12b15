/** An exclusive lease on a stream, the process that holds one acquisition of it, and every interleaving of their
    steps. */
module Leasing {
  import opened Options

  // ------------------------------------------------------------------------------------------- the lease

  /** Acquisitions are numbered in order. `onEnd` is the holders for whom the owner's callback ran. */
  datatype Lease = Lease(issued: nat, current: Option<nat>, ended: set<nat>, onEnd: seq<nat>)

  function EndCurrent(l: Lease): Lease
    requires l.current.Some?
  {
    l.(current := None, ended := l.ended + {l.current.value}, onEnd := l.onEnd + [l.current.value])
  }

  /** `None`: busy. */
  function Acquired(l: Lease): Option<Lease> {
    if l.current.Some? then None else Some(l.(issued := l.issued + 1, current := Some(l.issued)))
  }

  function Released(l: Lease, i: nat): Lease {
    if l.current != Some(i) then l.(ended := l.ended + {i}) else EndCurrent(l)
  }

  function Revoked(l: Lease): Lease { if l.current.Some? then EndCurrent(l) else l }

  class LeaseToken {
    var ended: bool

    constructor ()
      ensures !ended
    {
      ended := false;
    }
  }

  class StreamLease {
    var current: LeaseToken?
    ghost var tokens: seq<LeaseToken>
    ghost var onEnd: seq<nat>

    /** The holder is the last acquisition. */
    ghost predicate Valid()
      reads this
    {
      && (forall i, j :: 0 <= i < j < |tokens| ==> tokens[i] != tokens[j])
      && (current != null ==> tokens != [] && current == tokens[|tokens| - 1])
    }

    ghost function Ended(): set<nat>
      reads this`tokens, tokens
    {
      set i | 0 <= i < |tokens| && tokens[i].ended
    }

    ghost function State(): Lease
      reads this, tokens
      requires Valid()
    {
      Lease(|tokens|, if current == null then None else Some(|tokens| - 1), Ended(), onEnd)
    }

    constructor ()
      ensures Valid() && State() == Lease(0, None, {}, [])
    {
      current, tokens, onEnd := null, [], [];
    }

    method Acquire() returns (token: LeaseToken?)
      requires Valid()
      modifies this
      ensures Valid() && (token == null <==> Acquired(old(State())).None?)
      ensures token == null ==> State() == old(State()) && tokens == old(tokens)
      ensures token != null ==> fresh(token) && tokens == old(tokens) + [token] && !token.ended
      ensures token != null ==> Acquired(old(State())) == Some(State())
    {
      if current != null { return null; }
      token := new LeaseToken();
      current := token;
      tokens := tokens + [token];
      assert Ended() == old(Ended());
    }

    /** End `token`; only the holder's own frees the lease. */
    method Release(token: LeaseToken, ghost i: nat)
      requires Valid() && i < |tokens| && tokens[i] == token
      modifies this`current, this`onEnd, token
      ensures Valid() && State() == Released(old(State()), i)
    {
      if current != token {
        token.ended := true;
        assert Ended() == old(Ended()) + {i};
        return;
      }
      EndHolder();
    }

    /** End whoever holds it. */
    method Revoke()
      requires Valid()
      modifies this`current, this`onEnd, current
      ensures Valid() && State() == Revoked(old(State()))
    {
      if current != null { EndHolder(); }
    }

    method EndHolder()
      requires Valid() && current != null
      modifies this`current, this`onEnd, current
      ensures Valid() && State() == EndCurrent(old(State()))
    {
      var token: LeaseToken := current;
      current := null;
      token.ended := true;
      onEnd := onEnd + [|tokens| - 1];
      assert Ended() == old(Ended()) + {|tokens| - 1};
    }
  }

  // ------------------------------------------------------------------------------------- the process

  class LeasedStreamProcess {
    const lease: StreamLease
    const token: LeaseToken
    ghost const id: nat
    var claimed: bool
    ghost var teardowns: nat

    ghost predicate Valid()
      reads this, lease
    {
      lease.Valid() && id < |lease.tokens| && lease.tokens[id] == token && (teardowns > 0 ==> claimed)
    }

    constructor (lease: StreamLease, token: LeaseToken, ghost id: nat)
      requires lease.Valid() && id < |lease.tokens| && lease.tokens[id] == token
      ensures Valid() && this.lease == lease && this.token == token && this.id == id && !claimed && teardowns == 0
    {
      this.lease, this.token, this.id := lease, token, id;
      claimed, teardowns := false, 0;
    }

    function ReturnCode(): Option<int>
      reads token
    {
      if token.ended then Some(0) else None
    }

    /** One `close` of many: who claims first tears down, whether or not the teardown raises, and then gives the lease
        back - unless the lease has already ended this acquisition. */
    method Close(raises: bool) returns (raised: bool)
      requires Valid()
      modifies this`claimed, this`teardowns, lease`current, lease`onEnd, token
      ensures Valid()
      ensures var idle := old(token.ended || claimed);
              && teardowns == old(teardowns) + (if idle then 0 else 1) && raised == (!idle && raises)
              && claimed == (old(claimed) || !idle)
              && (idle ==> lease.State() == old(lease.State()))
              && (!idle ==> lease.State() == Released(old(lease.State()), id) && ReturnCode() == Some(0))
    {
      if token.ended || claimed { return false; }
      claimed := true;
      teardowns := teardowns + 1;
      raised := raises;
      token.ended := true;
      assert lease.Ended() == old(lease.Ended()) + {id};
      lease.Release(token, id);
    }
  }

  // -------------------------------------------------------------------------------- every interleaving

  /** How far the winning `close` of one process has come. */
  datatype Phase = Untouched | Claimed | TornDown | Marked | Done

  datatype System = System(lease: Lease, phases: seq<Phase>, teardowns: seq<nat>)

  /** The atomic steps: a close is four of them, and other threads may run between any two. `Release` is an opener that
      failed, at any moment. */
  datatype Step = Acquire | Release(i: nat) | Revoke | Claim(i: nat) | Teardown(i: nat) | Mark(i: nat) | GiveBack(i: nat)

  predicate Enabled(s: System, step: Step) {
    match step
    case Acquire => true
    case Revoke => true
    case Release(i) => i < |s.phases|
    case Claim(i) => i < |s.phases|
    case Teardown(i) => i < |s.phases| && s.phases[i] == Claimed
    case Mark(i) => i < |s.phases| && s.phases[i] == TornDown
    case GiveBack(i) => i < |s.phases| && s.phases[i] == Marked
  }

  function Next(s: System, step: Step): System
    requires Enabled(s, step)
  {
    match step
    case Acquire =>
      var l := Acquired(s.lease);
      if l.None? then s else s.(lease := l.value, phases := s.phases + [Untouched])
    case Release(i) => s.(lease := Released(s.lease, i))
    case Revoke => s.(lease := Revoked(s.lease))
    case Claim(i) => if i in s.lease.ended || s.phases[i] != Untouched then s else s.(phases := s.phases[i := Claimed])
    case Teardown(i) => s.(phases := s.phases[i := TornDown], teardowns := s.teardowns + [i])
    case Mark(i) => s.(phases := s.phases[i := Marked], lease := s.lease.(ended := s.lease.ended + {i}))
    case GiveBack(i) => s.(phases := s.phases[i := Done], lease := Released(s.lease, i))
  }

  const START := System(Lease(0, None, {}, []), [], [])

  /** A run: steps that are not enabled do not happen. */
  function Run(steps: seq<Step>): System {
    if steps == [] then START
    else
      var s := Run(steps[..|steps| - 1]);
      if Enabled(s, steps[|steps| - 1]) then Next(s, steps[|steps| - 1]) else s
  }

  /** The callback ran once for each acquisition that is over, in order, and for no other. */
  predicate EndedOnce(l: Lease) {
    && (l.current.Some? ==> l.current.value == l.issued - 1)
    && l.onEnd == seq(if l.current.Some? then l.issued - 1 else l.issued, i => i)
  }

  predicate OverIsEnded(l: Lease) {
    forall i :: 0 <= i < l.issued && l.current != Some(i) ==> i in l.ended
  }

  predicate TornDownOnce(s: System) {
    && (forall i :: 0 <= i < |s.phases| ==> (i in s.teardowns <==> s.phases[i] in {TornDown, Marked, Done}))
    && (forall i, j :: 0 <= i < j < |s.teardowns| ==> s.teardowns[i] != s.teardowns[j])
    && (forall i :: 0 <= i < |s.teardowns| ==> s.teardowns[i] < |s.phases|)
  }

  predicate DoneIsOver(s: System) {
    forall i :: 0 <= i < |s.phases| && s.phases[i] == Done ==> s.lease.current != Some(i)
  }

  predicate Sound(s: System) {
    && |s.phases| == s.lease.issued && (s.lease.current.Some? ==> s.lease.issued > 0)
    && EndedOnce(s.lease) && OverIsEnded(s.lease) && TornDownOnce(s) && DoneIsOver(s)
  }

  lemma {:induction false} LeaseKeeps(l: Lease)
    requires EndedOnce(l) && OverIsEnded(l) && (l.current.Some? ==> l.issued > 0)
    ensures EndedOnce(Revoked(l)) && OverIsEnded(Revoked(l))
    ensures Acquired(l).Some? ==> EndedOnce(Acquired(l).value) && OverIsEnded(Acquired(l).value)
    ensures forall i :: EndedOnce(Released(l, i)) && OverIsEnded(Released(l, i))
  {
  }

  lemma {:induction false} StepKeeps(s: System, step: Step)
    requires Sound(s) && Enabled(s, step)
    ensures Sound(Next(s, step))
  {
    hide EndedOnce, OverIsEnded;
    LeaseKeeps(s.lease);
    var t := Next(s, step);
    assert EndedOnce(t.lease) && OverIsEnded(t.lease) by { if step.Mark? { MarkKeeps(s.lease, step.i); } }
    if step.Acquire? { FreshIsNotDone(s); }
  }

  lemma {:induction false} FreshIsNotDone(s: System)
    requires DoneIsOver(s) && |s.phases| == s.lease.issued
    ensures DoneIsOver(Next(s, Acquire))
  {
  }

  lemma {:induction false} StartIsSound()
    ensures Sound(START)
  {
  }

  lemma {:induction false} MarkKeeps(l: Lease, i: nat)
    requires EndedOnce(l) && OverIsEnded(l)
    ensures var m := l.(ended := l.ended + {i}); EndedOnce(m) && OverIsEnded(m)
  {
  }

  /** Over every run: at most one holder, the callback once per acquisition that is over, one teardown at most per
      process, and nothing that gave its lease back holds it. */
  lemma {:induction false} RunsAreSound(steps: seq<Step>)
    ensures Sound(Run(steps))
    decreases |steps|
  {
    hide Next, Enabled, Sound;
    if steps == [] {
      StartIsSound();
    } else {
      RunsAreSound(steps[..|steps| - 1]);
      if Enabled(Run(steps[..|steps| - 1]), steps[|steps| - 1]) {
        StepKeeps(Run(steps[..|steps| - 1]), steps[|steps| - 1]);
      }
    }
  }

  /** At most one process can still do I/O: the holder. */
  lemma {:induction false} OneCanUseIt(steps: seq<Step>, i: nat)
    requires i < Run(steps).lease.issued && i !in Run(steps).lease.ended
    ensures Run(steps).lease.current == Some(i)
  {
    hide Run;
    RunsAreSound(steps);
  }

  /** A stale or late close never frees a successor: the holder loses the lease only to `revoke` or to its own token. */
  lemma {:induction false} OnlyItsOwnFrees(s: System, step: Step)
    requires Sound(s) && Enabled(s, step) && s.lease.current.Some?
    ensures Next(s, step).lease.current != s.lease.current <==>
            step.Revoke? || ((step.Release? || step.GiveBack?) && step.i == s.lease.current.value)
  {
    hide EndedOnce, OverIsEnded;
  }

  lemma {:induction false} StepsOnlyAdd(s: System, step: Step)
    requires Enabled(s, step)
    ensures Extends(s, Next(s, step))
  {
  }

  predicate Extends(s: System, t: System) {
    && s.lease.issued <= t.lease.issued && s.lease.ended <= t.lease.ended
    && s.lease.onEnd <= t.lease.onEnd && s.teardowns <= t.teardowns
  }

  /** What ended stays ended, and a callback or a teardown is never taken back, however a run goes on. */
  lemma {:induction false} RunsOnlyAdd(steps: seq<Step>, n: nat)
    requires n <= |steps|
    ensures Extends(Run(steps[..n]), Run(steps))
    decreases |steps| - n
  {
    hide Next, Enabled;
    if n == |steps| {
      assert steps[..n] == steps;
    } else {
      RunsOnlyAdd(steps, n + 1);
      assert steps[..n + 1][..n] == steps[..n];
      var s := Run(steps[..n]);
      if Enabled(s, steps[n]) { StepsOnlyAdd(s, steps[n]); }
    }
  }

  /** Once a close has claimed, its own remaining steps are enabled in turn whatever else happens between them. */
  lemma {:induction false} CloserGoesOn(s: System, step: Step, i: nat)
    requires Enabled(s, step) && i < |s.phases|
    ensures i < |Next(s, step).phases|
    ensures s.phases[i] != Untouched && Next(s, step).phases[i] != s.phases[i]
            ==> step in {Teardown(i), Mark(i), GiveBack(i)}
    ensures s.phases[i] == Untouched && Next(s, step).phases[i] != Untouched ==> step == Claim(i) && i !in s.lease.ended
  {
  }
}
