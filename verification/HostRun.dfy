/** One command over an ordered list of providers, sent at most once.

    `DispatchRequest` is the exchange with one transport: a refusal counts as a decline only while nothing was sent.
    `Host.Run` goes on to the next provider after a decline, and after nothing else. */
module HostRun {
  import opened Options
  import opened Selection

  /** An error as the executor normalizes it: the refusal that proves nothing started, a timeout, any other error,
      or an interruption that is not an ordinary error. */
  datatype Error = NotStarted | Expired | Other | Interrupt

  /** How the transport's send ends. `typed`: some byte of the command reached the target although it raised. */
  datatype Send = Sent | SendRaised(error: Error, typed: bool)

  /** One receive after the command was sent: a piece of output, with the status when it is the last; or an error. */
  datatype Receive = Piece(out: string, err: string, status: Option<int>) | ReceiveRaised(error: Error)

  /** How one exchange ends for the caller. */
  datatype Ending = Returned(status: int) | Declined | AlreadySent | TimedOut | Failed | Interrupted

  /** What a transport promises of its send: it refuses only when no byte of the command was sent. */
  predicate Honest(send: Send) { send.SendRaised? && send.error == NotStarted ==> !send.typed }

  /** Whether any of the command reached the target. */
  predicate Reached(send: Send) { send.Sent? || send.typed }

  function Outputs(pieces: seq<Receive>, merge: bool): (string, string)
    requires forall i :: 0 <= i < |pieces| ==> pieces[i].Piece?
  {
    if pieces == [] then ("", "")
    else
      var (out, err) := Outputs(pieces[..|pieces| - 1], merge);
      var last := pieces[|pieces| - 1];
      if merge then (out + (last.out + last.err), err) else (out + last.out, err + last.err)
  }

  function Joined(texts: seq<string>): string {
    if texts == [] then "" else texts[0] + Joined(texts[1..])
  }

  function Outs(pieces: seq<Receive>): seq<string>
    requires forall i :: 0 <= i < |pieces| ==> pieces[i].Piece?
  {
    seq(|pieces|, i requires 0 <= i < |pieces| => pieces[i].out)
  }

  function Errs(pieces: seq<Receive>): seq<string>
    requires forall i :: 0 <= i < |pieces| ==> pieces[i].Piece?
  {
    seq(|pieces|, i requires 0 <= i < |pieces| => pieces[i].err)
  }

  function Merged(pieces: seq<Receive>): seq<string>
    requires forall i :: 0 <= i < |pieces| ==> pieces[i].Piece?
  {
    seq(|pieces|, i requires 0 <= i < |pieces| => pieces[i].out + pieces[i].err)
  }

  lemma {:induction false} JoinedMore(texts: seq<string>, text: string)
    ensures Joined(texts + [text]) == Joined(texts) + text
  {
    if texts == [] {
      assert texts + [text] == [text] && [text][1..] == [];
    } else {
      assert (texts + [text])[1..] == texts[1..] + [text];
      JoinedMore(texts[1..], text);
      assert texts[0] + (Joined(texts[1..]) + text) == texts[0] + Joined(texts[1..]) + text;
    }
  }

  /** Apart, each stream is the join of its own pieces; merged, stdout is the join of both and stderr is empty. */
  lemma {:induction false} OutputsAre(pieces: seq<Receive>)
    requires forall i :: 0 <= i < |pieces| ==> pieces[i].Piece?
    ensures Outputs(pieces, false) == (Joined(Outs(pieces)), Joined(Errs(pieces)))
    ensures Outputs(pieces, true) == (Joined(Merged(pieces)), "")
    decreases |pieces|
  {
    hide Joined;
    if pieces == [] {
      NothingJoined();
      assert Outs(pieces) == Errs(pieces) == Merged(pieces) == [];
    } else {
      var before, last := pieces[..|pieces| - 1], pieces[|pieces| - 1];
      OutputsAre(before);
      assert Outs(pieces) == Outs(before) + [last.out];
      assert Errs(pieces) == Errs(before) + [last.err];
      assert Merged(pieces) == Merged(before) + [last.out + last.err];
      JoinedMore(Outs(before), last.out);
      JoinedMore(Errs(before), last.err);
      JoinedMore(Merged(before), last.out + last.err);
    }
  }

  lemma {:induction false} NothingJoined()
    ensures Joined([]) == ""
  {
  }

  /** How many receives come before the one that ends the exchange: a status or an error. */
  function Consumed(receives: seq<Receive>): (n: nat)
    ensures n <= |receives|
    ensures forall i :: 0 <= i < n ==> receives[i].Piece? && receives[i].status.None?
    ensures n < |receives| ==> receives[n].ReceiveRaised? || receives[n].status.Some?
  {
    if receives != [] && receives[0].Piece? && receives[0].status.None? then 1 + Consumed(receives[1..]) else 0
  }

  /** How the error of a send or of a receive reaches the caller. */
  function EndingOf(error: Error, sent: bool): Ending {
    match error
    case NotStarted => if sent then AlreadySent else Declined
    case Expired => TimedOut
    case Other => Failed
    case Interrupt => Interrupted
  }

  /** The first status or error decides; a refusal that late is an error, not a decline. */
  function ExchangeEnding(send: Send, receives: seq<Receive>): Ending {
    var n := Consumed(receives);
    if send.SendRaised? then EndingOf(send.error, false)
    else if n == |receives| then TimedOut
    else if receives[n].Piece? then Returned(receives[n].status.value)
    else EndingOf(receives[n].error, true)
  }

  /** The `n`-th receive is the first that is an error or carries a status. */
  ghost predicate Decides(receives: seq<Receive>, n: nat) {
    n < |receives| && (receives[n].Piece? ==> receives[n].status.Some?) &&
    forall i :: 0 <= i < n ==> receives[i].Piece? && receives[i].status.None?
  }

  /** The receives end with this error. */
  ghost predicate EndsInError(receives: seq<Receive>, error: Error) {
    exists n: nat :: Decides(receives, n) && receives[n] == ReceiveRaised(error)
  }

  ghost predicate EndsInStatus(receives: seq<Receive>, status: int) {
    exists n: nat :: Decides(receives, n) && receives[n].Piece? && receives[n].status == Some(status)
  }

  ghost predicate NeverEnds(receives: seq<Receive>) { !exists n: nat :: Decides(receives, n) }

  /** When an exchange ends so, ending by ending. */
  ghost predicate EndsAs(send: Send, receives: seq<Receive>, ending: Ending) {
    match ending
    case Returned(status) => send.Sent? && EndsInStatus(receives, status)
    case Declined => send.SendRaised? && send.error == NotStarted
    case AlreadySent => send.Sent? && EndsInError(receives, NotStarted)
    case TimedOut =>
      (send.SendRaised? && send.error == Expired) || (send.Sent? && (EndsInError(receives, Expired) || NeverEnds(receives)))
    case Failed => (send.SendRaised? && send.error == Other) || (send.Sent? && EndsInError(receives, Other))
    case Interrupted => (send.SendRaised? && send.error == Interrupt) || (send.Sent? && EndsInError(receives, Interrupt))
  }

  lemma {:induction false} DecidesAtConsumed(receives: seq<Receive>)
    ensures forall n: nat :: Decides(receives, n) <==> n == Consumed(receives) && n < |receives|
  {
    forall n: nat ensures Decides(receives, n) <==> n == Consumed(receives) && n < |receives| {
    }
  }

  /** What ends an exchange is exactly this, and nothing else does. */
  lemma {:induction false} EndingIs(send: Send, receives: seq<Receive>)
    ensures forall e :: EndsAs(send, receives, e) <==> e == ExchangeEnding(send, receives)
  {
    hide Decides;
    DecidesAtConsumed(receives);
    var n := Consumed(receives);
    assert n < |receives| ==> Decides(receives, n);
  }

  /** Send one request and receive until its status arrives. A transport whose receives end without a status is
      still running the command when the deadline passes. `stops` counts the calls that stop the command. */
  method DispatchRequest(send: Send, receives: seq<Receive>, merge: bool)
    returns (ending: Ending, out: string, err: string, stops: nat)
    // Nothing but a refused send is a decline, so under the transport's promise a decline reached nothing.
    ensures ending == Declined <==> send.SendRaised? && send.error == NotStarted
    ensures Honest(send) && ending == Declined ==> !Reached(send)
    ensures ending == ExchangeEnding(send, receives)
    ensures forall e :: EndsAs(send, receives, e) <==> e == ending
    ensures send.SendRaised? ==> out == "" && err == ""
    ensures send.Sent? ==>
              var n := Consumed(receives);
              var got := if n < |receives| && receives[n].Piece? then n + 1 else n;
              (forall i :: 0 <= i < got ==> receives[i].Piece?) &&
              (out, err) == if merge then (Joined(Merged(receives[..got])), "")
                            else (Joined(Outs(receives[..got])), Joined(Errs(receives[..got])))
    // Whatever may still run is stopped exactly once; a decline and a normal end have nothing to stop.
    ensures stops == if ending.Returned? || ending == Declined then 0 else 1
  {
    hide EndsAs, Consumed, Joined;
    EndingIs(send, receives);
    out, err, stops := "", "", 0;
    if send.SendRaised? {
      ending := EndingOf(send.error, false);
      if ending != Declined { stops := stops + 1; }
      return;
    }
    var i := 0;
    while true
      invariant i <= |receives| && i <= Consumed(receives)
      invariant forall k :: 0 <= k < i ==> receives[k].Piece?
      invariant (out, err) == Outputs(receives[..i], merge) && stops == 0
      decreases |receives| - i
    {
      if i == |receives| {
        stops := stops + 1;
        OutputsAre(receives[..i]);
        return TimedOut, out, err, stops;
      }
      ConsumedAt(receives, i);
      match receives[i] {
        case ReceiveRaised(error) =>
          stops := stops + 1;
          OutputsAre(receives[..i]);
          return EndingOf(error, true), out, err, stops;
        case Piece(pieceOut, pieceErr, status) =>
          assert receives[..i + 1][..i] == receives[..i];
          if merge {
            out := out + (pieceOut + pieceErr);
          } else {
            out, err := out + pieceOut, err + pieceErr;
          }
          i := i + 1;
          OutputsAre(receives[..i]);
          if status.Some? { return Returned(status.value), out, err, stops; }
      }
    }
  }

  lemma {:induction false} ConsumedAt(receives: seq<Receive>, i: nat)
    requires i < |receives| && i <= Consumed(receives)
    ensures receives[i].Piece? && receives[i].status.None? ==> i + 1 <= Consumed(receives)
    ensures !(receives[i].Piece? && receives[i].status.None?) ==> Consumed(receives) == i
  {
    if i < Consumed(receives) { assert receives[i].Piece? && receives[i].status.None?; }
  }

  // ------------------------------------------------------------------------------------ the failover

  /** What one provider would do with a command: connecting may refuse or fail, rendering the command for it may fail,
      and then its executor dispatches it. */
  datatype Attempt = ConnectRaised(error: Error) | RenderFailed | Execute(send: Send, receives: seq<Receive>)

  predicate HonestAttempt(a: Attempt) { a.Execute? ==> Honest(a.send) }

  predicate ReachedBy(a: Attempt) { a.Execute? && Reached(a.send) }

  function AttemptEnding(a: Attempt): Ending {
    match a
    case ConnectRaised(error) => EndingOf(error, false)
    case RenderFailed => Failed
    case Execute(send, receives) => ExchangeEnding(send, receives)
  }

  /** When one provider's attempt ends so: by its connect, or by the exchange. */
  ghost predicate AttemptEnds(a: Attempt, ending: Ending) {
    match a
    case ConnectRaised(error) => EndsAs(SendRaised(error, false), [], ending)
    case RenderFailed => ending == Failed
    case Execute(send, receives) => EndsAs(send, receives, ending)
  }

  lemma {:induction false} AttemptEndingIs(a: Attempt)
    ensures forall e :: AttemptEnds(a, e) <==> e == AttemptEnding(a)
  {
    hide EndsAs;
    match a
    case ConnectRaised(error) => EndingIs(SendRaised(error, false), []);
    case RenderFailed =>
    case Execute(send, receives) => EndingIs(send, receives);
  }

  /** The provider proved that nothing started. */
  predicate Refuses(a: Attempt) {
    a == ConnectRaised(NotStarted) || (a.Execute? && a.send.SendRaised? && a.send.error == NotStarted)
  }

  /** How a whole call ends: no provider was left, or the ending of the last one tried. */
  datatype Result = NoProvider | Served(provider: string, ending: Ending)

  /** Run one command through one provider. */
  method RunWithProvider(a: Attempt, merge: bool) returns (ending: Ending)
    ensures ending == Declined <==> Refuses(a)
    ensures HonestAttempt(a) && ending == Declined ==> !ReachedBy(a)
    ensures ending == AttemptEnding(a)
    ensures forall e :: AttemptEnds(a, e) <==> e == ending
  {
    hide EndsAs, AttemptEnds;
    AttemptEndingIs(a);
    match a
    case ConnectRaised(error) => ending := EndingOf(error, false);
    case RenderFailed => ending := Failed;
    case Execute(send, receives) =>
      var out, err, stops;
      ending, out, err, stops := DispatchRequest(send, receives, merge);
  }

  ghost predicate AllHonest(attempts: string -> Attempt) { forall name :: HonestAttempt(attempts(name)) }

  /** Under the transports' promise, those that refused were sent nothing. */
  lemma {:induction false} RefusedReachNothing(attempts: string -> Attempt, names: seq<string>)
    requires forall i :: 0 <= i < |names| ==> Refuses(attempts(names[i]))
    ensures AllHonest(attempts) ==> forall i :: 0 <= i < |names| ==> !ReachedBy(attempts(names[i]))
  {
    forall i | AllHonest(attempts) && 0 <= i < |names| ensures !ReachedBy(attempts(names[i])) {
      assert HonestAttempt(attempts(names[i]));
    }
  }

  /** Every refusal of this call is remembered, and besides those only what was refused before it. */
  ghost predicate Remembered(before: set<string>, declined: set<string>, refused: seq<string>) {
    Members(refused) <= declined <= before + Members(refused)
  }

  lemma {:induction false} NothingRefused(before: set<string>)
    ensures Remembered(before, before, []) && Unique([]) && Members([]) == {}
  {
  }

  lemma {:induction false} StillRemembered(before: set<string>, declined: set<string>, left: set<string>, refused: seq<string>)
    requires Remembered(before, declined, refused) && left <= declined && declined * Members(refused) <= left
    ensures Remembered(before, left, refused)
  {
  }

  lemma {:induction false} OneMoreRemembered(before: set<string>, declined: set<string>, refused: seq<string>, name: string)
    requires Remembered(before, declined, refused)
    ensures Remembered(before, declined + {name}, refused + [name])
  {
  }

  /** `run`: try providers in order until one does not decline. `tried` names them, in order. */
  method Run(selector: Selector, attempts: string -> Attempt, merge: bool) returns (result: Result, tried: seq<string>)
    requires selector.Valid()
    modifies selector
    ensures selector.Valid() && selector.generation == old(selector.generation)
    // Each provider is tried at most once, every one tried earlier declined, and only the last one served.
    ensures Unique(tried) && forall i :: 0 <= i < |tried| - 1 ==> Refuses(attempts(tried[i]))
    ensures result.Served? ==> tried != [] && result.provider == tried[|tried| - 1] && result.ending != Declined
    // The caller sees how that one's exchange ended: its status, or its error.
    ensures result.Served? ==> result.ending == AttemptEnding(attempts(result.provider))
    ensures result.Served? ==> forall e :: AttemptEnds(attempts(result.provider), e) <==> e == result.ending
    ensures result.NoProvider? ==> forall i :: 0 <= i < |tried| ==> Refuses(attempts(tried[i]))
    // Every refusal of this call is remembered, and nothing else was added.
    ensures Remembered(old(selector.declined).Keys, selector.declined.Keys,
                       if result.Served? then tried[..|tried| - 1] else tried)
    // At most once: under the transports' promise the command reaches at most one provider, the last one tried.
    ensures AllHonest(attempts) ==>
              forall i :: 0 <= i < |tried| && ReachedBy(attempts(tried[i])) ==> i == |tried| - 1 && result.Served?
    // It gives up only when every provider that its probe calls usable declined in this very call.
    ensures result.NoProvider? ==>
              forall p :: p in selector.providers && old(selector.Answers())(p.name).Usable() ==> p.name in tried
    // No usable provider ranked above the one that served was passed over, except for a refusal it gave before.
    ensures result.Served? ==> PassedOverOnlyRefused(selector.providers, old(selector.Answers()),
                                                     old(selector.declined).Keys, tried)
  {
    hide Distinct, InOrder, Traced, Refuses, ReachedBy, AttemptEnding, AttemptEnds, AllHonest, PassedOverOnlyRefused, Remembered, Members,
         Unique, Names;
    tried := [];
    NothingRefused(selector.declined.Keys);
    while true
      invariant selector.Valid() && selector.generation == old(selector.generation)
      invariant Unique(tried) && forall i :: 0 <= i < |tried| ==> Refuses(attempts(tried[i]))
      invariant Members(tried) <= Names(selector.providers)
      invariant Remembered(old(selector.declined).Keys, selector.declined.Keys, tried)
      decreases Names(selector.providers) - Members(tried)
    {
      RefusedReachNothing(attempts, tried);
      var next, ending := Next(selector, attempts, merge, tried, old(selector.declined).Keys);
      if next.None? { return NoProvider, tried; }
      MembersPush(tried, next.value);
      ghost var passed := tried;
      tried := tried + [next.value];
      if ending != Declined {
        assert tried[..|tried| - 1] == passed;
        AttemptEndingIs(attempts(next.value));
        return Served(next.value, ending), tried;
      }
    }
  }

  /** The next attempt: select, and run the command through the provider selected. */
  method Next(selector: Selector, attempts: string -> Attempt, merge: bool, tried: seq<string>, ghost before: set<string>)
    returns (next: Option<string>, ending: Ending)
    requires selector.Valid() && Remembered(before, selector.declined.Keys, tried)
    modifies selector
    ensures selector.Valid() && selector.generation == old(selector.generation)
    ensures next.None? ==>
              forall p :: p in selector.providers && selector.Answers()(p.name).Usable() ==> p.name in tried
    ensures next.Some? ==> next.value in Names(selector.providers) && next.value !in Members(tried)
    ensures next.Some? ==> ending == AttemptEnding(attempts(next.value)) && (ending == Declined <==> Refuses(attempts(next.value)))
    ensures Remembered(before, selector.declined.Keys, if next.Some? && ending == Declined then tried + [next.value] else tried)
    ensures next.Some? && ending != Declined ==>
              PassedOverOnlyRefused(selector.providers, selector.Answers(), before, tried + [next.value])
  {
    hide Selected, DeclinedAfter, Distinct, InOrder, Traced, Refuses, AttemptEnding, FirstBut, PassedOverOnlyRefused,
         Remembered, Members;
    ghost var declined := selector.declined.Keys;
    ghost var answers := selector.Answers();
    ending := Declined;
    MembersAre(tried);
    var choice := selector.Select(None, Members(tried), false);
    WhatSelectMeans(selector.providers, answers, declined, Members(tried));
    StillRemembered(before, declined, selector.declined.Keys, tried);
    if choice.None? { return None, Declined; }
    var name := choice.value.name;
    next := Some(name);
    ending := RunWithProvider(attempts(name), merge);
    if ending != Declined {
      PassedOver(selector.providers, answers, before, declined, tried, choice.value);
      return;
    }
    ghost var kept := selector.declined.Keys;
    OneMoreRemembered(before, kept, tried, name);
    selector.Decline(name, "declined before dispatch");
    assert selector.declined.Keys == kept + {name};
  }

  ghost predicate PassedOverOnlyRefused(providers: seq<Provider>, answers: string -> Probe, refused: set<string>,
                                        tried: seq<string>) {
    tried != [] &&
    exists p ::
      p in providers && p.name == tried[|tried| - 1] &&
      FirstBut(providers, answers, refused + Members(tried[..|tried| - 1]), p)
  }

  lemma {:induction false} PassedOver(providers: seq<Provider>, answers: string -> Probe, refused: set<string>,
                                      declined: set<string>, passed: seq<string>, p: Provider)
    requires p in providers && FirstBut(providers, answers, declined + Members(passed), p)
    requires Remembered(refused, declined, passed)
    ensures PassedOverOnlyRefused(providers, answers, refused, passed + [p.name])
  {
    var tried := passed + [p.name];
    assert tried[..|tried| - 1] == passed;
    var i :| 0 <= i < |providers| && providers[i] == p &&
      forall k :: 0 <= k < i && answers(providers[k].name).Usable() ==> providers[k].name in declined + Members(passed);
    assert FirstBut(providers, answers, refused + Members(passed), p);
  }
}
