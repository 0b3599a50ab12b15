/** A path that may be served by several providers: which one an operation uses, and which one the path keeps. */
module PathRouting {
  import opened Options
  import opened Selection

  /** `NotStarted` proves nothing happened; `NotImplemented` says the backend cannot do this operation. */
  datatype Error = NotStarted | NotImplemented | Other

  /** What one provider does with an operation: connecting or building its path may raise before anything is adopted;
      then the operation itself raises or succeeds. */
  datatype Attempt = ConnectRaised(error: Error) | BuildRaised(error: Error) | CallRaised(error: Error) | Succeeds

  function ErrorOf(a: Attempt): Option<Error> {
    match a case ConnectRaised(e) => Some(e) case BuildRaised(e) => Some(e) case CallRaised(e) => Some(e)
    case Succeeds => None
  }

  /** What a path remembers: the provider it last adopted, the provider that built its backend path and the one whose
      factory it derives with, and whether the choice is fixed. */
  datatype Routing = Routing(provider: Option<string>, backend: Option<string>, factory: Option<string>, pinned: bool)

  /** How one operation ends: done or raised by a provider; or with no provider left, as never supported, as not
      implemented, or as refused. */
  datatype Result = Done(name: string) | Raised(name: string, error: Error)
                  | Unsupported | NoneImplements | NoneCompleted

  predicate Supports(alternatives: set<string>, capabilities: set<string>) {
    "path" in capabilities || alternatives * capabilities != {} ||
    ("open_read" in alternatives && "open" in capabilities)
  }

  function Adopted(name: string): Routing { Routing(Some(name), Some(name), Some(name), true) }

  /** The state one provider's part leaves: adopted if the call was made for keeps and did not refuse. */
  function AfterTry(before: Routing, name: string, a: Attempt, pin: bool, retryNotImplemented: bool): Routing {
    if pin && (a.CallRaised? || a.Succeeds?) && !Retryable(a, retryNotImplemented) then Adopted(name) else before
  }

  /** A refusal the path may answer by trying another provider. */
  predicate Retryable(a: Attempt, retryNotImplemented: bool) {
    ErrorOf(a) == Some(NotStarted) || (ErrorOf(a) == Some(NotImplemented) && retryNotImplemented)
  }

  class CompositePath {
    const selector: Selector
    var routing: Routing

    constructor (selector: Selector)
      ensures this.selector == selector && routing == Routing(None, None, None, false)
    {
      this.selector := selector;
      routing := Routing(None, None, None, false);
    }

    /** What `provider` can do now: its declared set narrowed by its cached probe. */
    method EffectiveCapabilities(p: Provider) returns (capabilities: set<string>)
      requires selector.Valid()
      modifies selector`probeCache
      ensures selector.Valid()
      ensures capabilities == EffectiveNow(selector.answer, selector.generation, selector.declined.Keys, p)
    {
      var probe := selector.ProbeOf(p);
      capabilities := Effective(p.capabilities, probe.capabilities);
    }

    /** Run one provider's part. A write or open adopts the provider before the call; a refusal that permits another
        provider puts the state of before back. */
    method Try(name: string, a: Attempt, pin: bool, retryNotImplemented: bool) returns (error: Option<Error>)
      modifies this`routing
      ensures error == ErrorOf(a) && routing == AfterTry(old(routing), name, a, pin, retryNotImplemented)
    {
      var before := routing;
      error := ErrorOf(a);
      if a.ConnectRaised? || a.BuildRaised? { return; }
      if pin { routing := Adopted(name); }
      if pin && Retryable(a, retryNotImplemented) { routing := before; }
    }

    /** Route one operation. `tried` names the providers called, in order. */
    method Dispatch(alternatives: set<string>, attempts: string -> Attempt, pin: bool, retryNotImplemented: bool)
      returns (result: Result, tried: seq<string>)
      requires selector.Valid()
      modifies this`routing, selector
      ensures selector.Valid() && selector.generation == old(selector.generation)
      ensures Atomic(old(routing), routing, result, tried, pin)
      ensures LastDecides(result, tried, attempts, retryNotImplemented)
      ensures RefusalsKept(old(selector.declined).Keys, tried, attempts, selector.declined.Keys)
      ensures old(routing.pinned) ==> forall i :: 0 <= i < |tried| ==> old(routing.provider) == Some(tried[i])
      ensures old(routing.pinned) ==> (tried == [] <==> !FixedServes(old(routing), selector.providers, selector.answer,
                                         selector.generation, old(selector.declined).Keys, alternatives))
      // In the providers' order: nothing that could serve is passed over, but for a refusal it gave before.
      ensures !old(routing.pinned) ==> TriedInOrder(selector.providers, old(selector.Answers()), alternatives,
                                                    old(selector.declined).Keys, tried)
      // It gives up only when every usable provider that supports the operation was tried in this very call.
      ensures !old(routing.pinned) && (result.Unsupported? || result.NoneImplements? || result.NoneCompleted?) ==>
                forall p :: p in selector.providers && CanServe(old(selector.Answers()), p, alternatives) ==> p.name in tried
    {
      hide Atomic, LastDecides, CanServe;
      if routing.pinned {
        result, tried := DispatchPinned(alternatives, attempts, pin, retryNotImplemented);
      } else {
        result, tried := DispatchFree(alternatives, attempts, pin, retryNotImplemented);
      }
    }

    /** Select providers in order until one does not refuse. */
    method DispatchFree(alternatives: set<string>, attempts: string -> Attempt, pin: bool, retryNotImplemented: bool)
      returns (result: Result, tried: seq<string>)
      requires selector.Valid() && !routing.pinned
      modifies this`routing, selector
      ensures selector.Valid() && selector.generation == old(selector.generation)
      ensures Atomic(old(routing), routing, result, tried, pin)
      ensures LastDecides(result, tried, attempts, retryNotImplemented)
      ensures RefusalsKept(old(selector.declined).Keys, tried, attempts, selector.declined.Keys)
      ensures TriedInOrder(selector.providers, old(selector.Answers()), alternatives, old(selector.declined).Keys, tried)
      ensures result.Unsupported? || result.NoneImplements? || result.NoneCompleted? ==>
                forall p :: p in selector.providers && CanServe(old(selector.Answers()), p, alternatives) ==> p.name in tried
    {
      hide Selected, DeclinedAfter, Distinct, InOrder, Traced, FirstBut, Supports, EffectiveNow, Atomic, LastDecides,
           AllRetryable, Retryable, ErrorOf, CanServe, Exhausted, RefusalsKept, TriedInOrder;
      tried := [];
      ghost var entry := routing;
      ghost var answers := selector.Answers();
      NothingTried(attempts, retryNotImplemented);
      NoRefusals(attempts, selector.declined.Keys);
      NoneTried(selector.providers, answers, alternatives, selector.declined.Keys);
      var excluded: seq<string> := [];
      var notImplemented := false;
      while true
        invariant selector.Valid() && selector.generation == old(selector.generation) && answers == selector.Answers()
        invariant routing == entry && AllRetryable(tried, attempts, retryNotImplemented, notImplemented)
        invariant Members(tried) <= Members(excluded) <= Names(selector.providers)
        invariant Exhausted(selector.providers, answers, alternatives, Members(excluded), tried)
        invariant RefusalsKept(old(selector.declined).Keys, tried, attempts, selector.declined.Keys)
        invariant TriedInOrder(selector.providers, answers, alternatives, old(selector.declined).Keys, tried)
        decreases Names(selector.providers) - Members(excluded)
      {
        ghost var declined := selector.declined.Keys;
        var choice := selector.Select(None, Members(excluded), pin);
        WhatSelectMeans(selector.providers, answers, declined, Members(excluded));
        RefusalsStay(old(selector.declined).Keys, tried, attempts, declined, selector.declined.Keys, Members(excluded));
        if choice.None? {
          result := if tried == [] then Unsupported else if notImplemented then NoneImplements else NoneCompleted;
          GaveUp(entry, result, tried, attempts, retryNotImplemented, notImplemented, pin);
          ExhaustedAll(selector.providers, answers, alternatives, Members(excluded), tried);
          return;
        }
        var p := choice.value;
        MembersPush(excluded, p.name);
        MembersPush(tried, p.name);
        var capabilities := EffectiveCapabilities(p);
        SupportsMeans(selector.answer, answers, selector.generation, selector.declined.Keys, p, alternatives, capabilities);
        ExhaustedStep(selector.providers, answers, alternatives, Members(excluded), tried, p);
        excluded := excluded + [p.name];
        if Supports(alternatives, capabilities) {
          NextInOrder(selector.providers, answers, alternatives, old(selector.declined).Keys, declined,
                      Members(excluded) - {p.name}, tried, attempts, p);
          var error := Try(p.name, attempts(p.name), pin, retryNotImplemented);
          Tried(entry, routing, tried, attempts, retryNotImplemented, notImplemented, p.name, pin);
          RefusalsMore(old(selector.declined).Keys, tried, attempts, selector.declined.Keys, p.name);
          NotRetryable(attempts(p.name), retryNotImplemented);
          tried := tried + [p.name];
          if error.None? { return Done(p.name), tried; }
          if !Retryable(attempts(p.name), retryNotImplemented) { return Raised(p.name, error.value), tried; }
          if error.value == NotImplemented {
            notImplemented := true;
          } else {
            ghost var kept := selector.declined.Keys;
            selector.Decline(p.name, "refused");
            assert selector.declined.Keys == kept + {p.name};
          }
        }
      }
    }

    /** A fixed path has one candidate: its provider, if it supports the operation. */
    method DispatchPinned(alternatives: set<string>, attempts: string -> Attempt, pin: bool, retryNotImplemented: bool)
      returns (result: Result, tried: seq<string>)
      requires selector.Valid() && routing.pinned
      modifies this`routing, selector
      ensures selector.Valid() && selector.generation == old(selector.generation)
      ensures Atomic(old(routing), routing, result, tried, pin)
      ensures LastDecides(result, tried, attempts, retryNotImplemented)
      ensures RefusalsKept(old(selector.declined).Keys, tried, attempts, selector.declined.Keys)
      ensures forall i :: 0 <= i < |tried| ==> old(routing.provider) == Some(tried[i])
      ensures tried == [] <==> !FixedServes(old(routing), selector.providers, selector.answer, selector.generation,
                                            old(selector.declined).Keys, alternatives)
    {
      hide Distinct, Supports, EffectiveNow, Effective, AllRetryable, Retryable, ErrorOf, LastDecides, Atomic, RefusalsKept;
      tried := [];
      ghost var entry := routing;
      NothingTried(attempts, retryNotImplemented);
      GaveUp(entry, Unsupported, [], attempts, retryNotImplemented, false, pin);
      NoRefusals(attempts, selector.declined.Keys);
      if routing.provider.None? { return Unsupported, tried; }
      var name := routing.provider.value;
      var found := Named(selector.providers, name);
      if found.None? { return Unsupported, tried; }
      var capabilities := EffectiveCapabilities(found.value);
      if !Supports(alternatives, capabilities) { return Unsupported, tried; }
      var error := Try(name, attempts(name), pin, retryNotImplemented);
      Tried(entry, routing, [], attempts, retryNotImplemented, false, name, pin);
      assert [] + [name] == [name];
      tried := [name];
      RefusalsMore(old(selector.declined).Keys, [], attempts, selector.declined.Keys, name);
      NotRetryable(attempts(name), retryNotImplemented);
      if error.None? { return Done(name), tried; }
      if !Retryable(attempts(name), retryNotImplemented) { return Raised(name, error.value), tried; }
      result := if error.value == NotImplemented then NoneImplements else NoneCompleted;
      GaveUp(entry, result, tried, attempts, retryNotImplemented, error.value == NotImplemented, pin);
      if error.value == NotStarted {
        ghost var kept := selector.declined.Keys;
        selector.Decline(name, "refused");
        assert selector.declined.Keys == kept + {name};
      }
    }
  }

  // ------------------------------------------------------------------------- what one dispatch promises

  /** The state is the one on entry, or fixed to the last provider tried - never anything between. It is the one on
      entry whenever no provider served; and a path that is fixed stays with its provider. */
  ghost predicate Atomic(before: Routing, after: Routing, result: Result, tried: seq<string>, pin: bool) {
    (after == before || (pin && tried != [] && after == Adopted(tried[|tried| - 1]))) &&
    (result.Unsupported? || result.NoneImplements? || result.NoneCompleted? ==> after == before) &&
    (result.Done? && pin ==> after == Adopted(result.name))
  }

  /** Each provider is tried once; only a refusal that permits it leads to the next, so an operation that may not be
      repeated calls nobody after a `NotImplemented`; and the last provider tried decides the result. */
  ghost predicate LastDecides(result: Result, tried: seq<string>, attempts: string -> Attempt, retryNotImplemented: bool) {
    Unique(tried) &&
    (forall i :: 0 <= i < |tried| - 1 ==> Retryable(attempts(tried[i]), retryNotImplemented)) &&
    match result
    case Done(name) => tried != [] && name == tried[|tried| - 1] && attempts(name).Succeeds?
    case Raised(name, error) =>
      tried != [] && name == tried[|tried| - 1] && ErrorOf(attempts(name)) == Some(error)
      && !Retryable(attempts(name), retryNotImplemented)
    case Unsupported => tried == []
    case NoneImplements =>
      tried != [] && Retryable(attempts(tried[|tried| - 1]), retryNotImplemented) && SomeNotImplemented(tried, attempts)
    case NoneCompleted =>
      tried != [] && Retryable(attempts(tried[|tried| - 1]), retryNotImplemented) && !SomeNotImplemented(tried, attempts)
  }

  /** So only a refusal leads on: one that proves nothing happened, or, where the operation may be repeated, one by a
      provider that cannot do it. Behind a success, or any other error, nobody is called. */
  lemma {:induction false} OnlyRefusalsLeadOn(result: Result, tried: seq<string>, attempts: string -> Attempt,
                                              retryNotImplemented: bool)
    requires LastDecides(result, tried, attempts, retryNotImplemented)
    ensures forall i :: 0 <= i < |tried| - 1 ==> !attempts(tried[i]).Succeeds?
    ensures forall i :: 0 <= i < |tried| - 1 ==> RaisesNotStarted(attempts(tried[i])) ||
                                                 (retryNotImplemented && RaisesNotImplemented(attempts(tried[i])))
    ensures result.Done? <==> tried != [] && attempts(tried[|tried| - 1]).Succeeds?
    ensures result.Raised? ==> tried != [] && var a := attempts(tried[|tried| - 1]);
              !a.Succeeds? && !RaisesNotStarted(a) && (retryNotImplemented ==> !RaisesNotImplemented(a))
  {
  }

  predicate RaisesNotStarted(a: Attempt) {
    a in {ConnectRaised(NotStarted), BuildRaised(NotStarted), CallRaised(NotStarted)}
  }

  predicate RaisesNotImplemented(a: Attempt) {
    a in {ConnectRaised(NotImplemented), BuildRaised(NotImplemented), CallRaised(NotImplemented)}
  }

  /** What an operation asks for, any of several capabilities, is covered by one of them, by the wildcard, or a read by
      `open`. */
  lemma {:induction false} SupportsIs(alternatives: set<string>, capabilities: set<string>)
    ensures Supports(alternatives, capabilities) <==>
      "path" in capabilities ||
      exists c :: c in alternatives && (c in capabilities || (c == "open_read" && "open" in capabilities))
  {
    if alternatives * capabilities != {} {
      var c :| c in alternatives * capabilities;
      assert c in alternatives && c in capabilities;
    }
    if exists c :: c in alternatives && c in capabilities {
      var c :| c in alternatives && c in capabilities;
      assert c in alternatives * capabilities;
    }
  }

  ghost predicate RefusedNow(tried: seq<string>, attempts: string -> Attempt, name: string) {
    name in tried && ErrorOf(attempts(name)) == Some(NotStarted)
  }

  /** A provider that refused as not started is remembered as refused; one that cannot do this operation is not. */
  ghost predicate RefusalsKept(before: set<string>, tried: seq<string>, attempts: string -> Attempt, declined: set<string>) {
    && (forall name :: RefusedNow(tried, attempts, name) ==> name in declined)
    && (forall name :: name in declined ==> name in before || RefusedNow(tried, attempts, name))
  }

  lemma {:induction false} NoRefusals(attempts: string -> Attempt, declined: set<string>)
    ensures RefusalsKept(declined, [], attempts, declined)
  {
  }

  lemma {:induction false} NotRetryable(a: Attempt, retryNotImplemented: bool)
    ensures !Retryable(a, retryNotImplemented) ==> ErrorOf(a) != Some(NotStarted)
    ensures Retryable(a, retryNotImplemented) && ErrorOf(a) != Some(NotImplemented) ==> ErrorOf(a) == Some(NotStarted)
  {
  }

  lemma {:induction false} RefusalsStay(before: set<string>, tried: seq<string>, attempts: string -> Attempt,
                                        declined: set<string>, left: set<string>, excluded: set<string>)
    requires RefusalsKept(before, tried, attempts, declined)
    requires left <= declined && declined * excluded <= left && Members(tried) <= excluded
    ensures RefusalsKept(before, tried, attempts, left)
  {
    forall name | RefusedNow(tried, attempts, name) ensures name in left {
      assert name in Members(tried);
    }
  }

  lemma {:induction false} RefusalsMore(before: set<string>, tried: seq<string>, attempts: string -> Attempt,
                                        declined: set<string>, name: string)
    requires RefusalsKept(before, tried, attempts, declined)
    ensures ErrorOf(attempts(name)) == Some(NotStarted) ==>
              RefusalsKept(before, tried + [name], attempts, declined + {name})
    ensures ErrorOf(attempts(name)) != Some(NotStarted) ==> RefusalsKept(before, tried + [name], attempts, declined)
  {
    var more := tried + [name];
    assert more[|tried|] == name;
    forall other ensures RefusedNow(more, attempts, other)
      <==> RefusedNow(tried, attempts, other) || (other == name && ErrorOf(attempts(name)) == Some(NotStarted))
    {
      if other in tried { assert other in more; }
    }
  }

  /** Each one tried can serve, and is the first in the providers' order that could, but for those tried before it and those that
      were refused before the call. */
  ghost predicate TriedInOrder(providers: seq<Provider>, answers: string -> Probe, alternatives: set<string>,
                               refused: set<string>, tried: seq<string>) {
    forall k :: 0 <= k < |tried| ==>
      FirstServing(providers, answers, alternatives, refused + Members(tried[..k]), tried[k])
  }

  ghost predicate FirstServing(providers: seq<Provider>, answers: string -> Probe, alternatives: set<string>,
                               skipped: set<string>, name: string) {
    exists i :: 0 <= i < |providers| && providers[i].name == name && CanServe(answers, providers[i], alternatives) &&
      forall j :: 0 <= j < i && CanServe(answers, providers[j], alternatives) ==> providers[j].name in skipped
  }

  lemma {:induction false} NoneTried(providers: seq<Provider>, answers: string -> Probe, alternatives: set<string>,
                                     refused: set<string>)
    ensures TriedInOrder(providers, answers, alternatives, refused, [])
  {
  }

  lemma {:induction false} NextInOrder(providers: seq<Provider>, answers: string -> Probe, alternatives: set<string>,
                                       refused: set<string>, declined: set<string>, excluded: set<string>,
                                       tried: seq<string>, attempts: string -> Attempt, p: Provider)
    requires CanServe(answers, p, alternatives)
    requires TriedInOrder(providers, answers, alternatives, refused, tried)
    requires FirstBut(providers, answers, declined + excluded, p) && RefusalsKept(refused, tried, attempts, declined)
    requires Exhausted(providers, answers, alternatives, excluded, tried)
    ensures TriedInOrder(providers, answers, alternatives, refused, tried + [p.name])
  {
    hide FirstServing;
    var more := tried + [p.name];
    assert more[..|tried|] == tried;
    FirstOfRest(providers, answers, alternatives, refused, declined, excluded, tried, attempts, p);
    forall k | 0 <= k < |more|
      ensures FirstServing(providers, answers, alternatives, refused + Members(more[..k]), more[k])
    {
      if k < |tried| { assert more[..k] == tried[..k]; }
    }
  }

  lemma {:induction false} FirstOfRest(providers: seq<Provider>, answers: string -> Probe, alternatives: set<string>,
                                       refused: set<string>, declined: set<string>, excluded: set<string>,
                                       tried: seq<string>, attempts: string -> Attempt, p: Provider)
    requires CanServe(answers, p, alternatives)
    requires FirstBut(providers, answers, declined + excluded, p) && RefusalsKept(refused, tried, attempts, declined)
    requires Exhausted(providers, answers, alternatives, excluded, tried)
    ensures FirstServing(providers, answers, alternatives, refused + Members(tried), p.name)
  {
    hide Supports, Effective;
    var i :| 0 <= i < |providers| && providers[i] == p &&
      forall k :: 0 <= k < i && answers(providers[k].name).Usable() ==> providers[k].name in declined + excluded;
    forall j | 0 <= j < i && CanServe(answers, providers[j], alternatives) ensures providers[j].name in refused + Members(tried) {
      assert providers[j].name in declined + excluded;
    }
  }

  /** A fixed path's provider can serve the operation. */
  predicate FixedServes(routing: Routing, providers: seq<Provider>, answer: (string, nat) -> Probe, generation: nat,
                        declined: set<string>, alternatives: set<string>) {
    && routing.provider.Some? && Named(providers, routing.provider.value).Some?
    && Supports(alternatives, EffectiveNow(answer, generation, declined, Named(providers, routing.provider.value).value))
  }

  ghost predicate SomeNotImplemented(tried: seq<string>, attempts: string -> Attempt) {
    exists i :: 0 <= i < |tried| && ErrorOf(attempts(tried[i])) == Some(NotImplemented)
  }

  ghost predicate AllRetryable(tried: seq<string>, attempts: string -> Attempt, retryNotImplemented: bool,
                               notImplemented: bool) {
    Unique(tried) && (forall i :: 0 <= i < |tried| ==> Retryable(attempts(tried[i]), retryNotImplemented)) &&
    notImplemented == SomeNotImplemented(tried, attempts)
  }

  lemma {:induction false} NothingTried(attempts: string -> Attempt, retryNotImplemented: bool)
    ensures AllRetryable([], attempts, retryNotImplemented, false) && Members([]) == {}
    ensures forall providers, answers, alternatives :: Exhausted(providers, answers, alternatives, {}, [])
  {
  }

  lemma {:induction false} GaveUp(entry: Routing, result: Result, tried: seq<string>, attempts: string -> Attempt,
                                  retryNotImplemented: bool, notImplemented: bool, pin: bool)
    requires AllRetryable(tried, attempts, retryNotImplemented, notImplemented)
    requires result == if tried == [] then Unsupported else if notImplemented then NoneImplements else NoneCompleted
    ensures Atomic(entry, entry, result, tried, pin) && LastDecides(result, tried, attempts, retryNotImplemented)
  {
  }

  /** One more provider tried: it served, or it raised, or it refused and the state is that of before. */
  lemma {:induction false} Tried(entry: Routing, after: Routing, tried: seq<string>, attempts: string -> Attempt,
                                 retryNotImplemented: bool, notImplemented: bool, name: string, pin: bool)
    requires AllRetryable(tried, attempts, retryNotImplemented, notImplemented) && name !in tried
    requires after == AfterTry(entry, name, attempts(name), pin, retryNotImplemented)
    ensures var error := ErrorOf(attempts(name)); var now := tried + [name];
            if error.None? then
              Atomic(entry, after, Done(name), now, pin) && LastDecides(Done(name), now, attempts, retryNotImplemented)
            else if !Retryable(attempts(name), retryNotImplemented) then
              Atomic(entry, after, Raised(name, error.value), now, pin)
              && LastDecides(Raised(name, error.value), now, attempts, retryNotImplemented)
            else
              error.value != Other && after == entry
              && AllRetryable(now, attempts, retryNotImplemented, notImplemented || error.value == NotImplemented)
  {
    var now := tried + [name];
    assert now[|tried|] == name && forall i :: 0 <= i < |tried| ==> now[i] == tried[i];
    if notImplemented {
      var i :| 0 <= i < |tried| && ErrorOf(attempts(tried[i])) == Some(NotImplemented);
      assert ErrorOf(attempts(now[i])) == Some(NotImplemented);
    }
    assert SomeNotImplemented(now, attempts) <==> notImplemented || ErrorOf(attempts(name)) == Some(NotImplemented);
  }

  /** Of the providers already excluded, every one that could serve was tried. */
  ghost predicate Exhausted(providers: seq<Provider>, answers: string -> Probe, alternatives: set<string>,
                            excluded: set<string>, tried: seq<string>) {
    forall p :: p in providers && p.name in excluded && CanServe(answers, p, alternatives) ==> p.name in tried
  }

  lemma {:induction false} ExhaustedAll(providers: seq<Provider>, answers: string -> Probe, alternatives: set<string>,
                                        excluded: set<string>, tried: seq<string>)
    requires Exhausted(providers, answers, alternatives, excluded, tried)
    requires forall p :: p in providers && answers(p.name).Usable() ==> p.name in excluded
    ensures forall p :: p in providers && CanServe(answers, p, alternatives) ==> p.name in tried
  {
  }

  lemma {:induction false} ExhaustedStep(providers: seq<Provider>, answers: string -> Probe, alternatives: set<string>,
                                         excluded: set<string>, tried: seq<string>, p: Provider)
    requires Distinct(providers) && p in providers && Exhausted(providers, answers, alternatives, excluded, tried)
    ensures Exhausted(providers, answers, alternatives, excluded + {p.name}, tried + [p.name])
    ensures !CanServe(answers, p, alternatives) ==>
              Exhausted(providers, answers, alternatives, excluded + {p.name}, tried)
  {
    assert forall q :: q in providers && q.name == p.name ==> q == p;
    assert forall name :: name in tried ==> name in tried + [p.name];
    assert (tried + [p.name])[|tried|] == p.name;
  }

  function Named(providers: seq<Provider>, name: string): Option<Provider> {
    if providers == [] then None
    else if providers[0].name == name then Some(providers[0])
    else Named(providers[1..], name)
  }

  function EffectiveNow(answer: (string, nat) -> Probe, generation: nat, declined: set<string>, p: Provider): set<string> {
    Effective(p.capabilities, (if p.name in declined then Probe(Unavailable, {}) else answer(p.name, generation)).capabilities)
  }

  /** The provider's probe calls it usable, and what it can do covers the operation. */
  predicate CanServe(answers: string -> Probe, p: Provider, alternatives: set<string>) {
    answers(p.name).Usable() && Supports(alternatives, Effective(p.capabilities, answers(p.name).capabilities))
  }

  lemma {:induction false} SupportsMeans(answer: (string, nat) -> Probe, answers: string -> Probe, generation: nat,
                                         declined: set<string>, p: Provider, alternatives: set<string>,
                                         capabilities: set<string>)
    requires p.name !in declined && answers(p.name) == answer(p.name, generation) && answers(p.name).Usable()
    requires capabilities == EffectiveNow(answer, generation, declined, p)
    ensures CanServe(answers, p, alternatives) == Supports(alternatives, capabilities)
  {
  }

  // --------------------------------------------------------------------------- any number of operations

  datatype Operation = Operation(alternatives: set<string>, attempts: string -> Attempt, pin: bool,
                                 retryNotImplemented: bool)

  /** Once fixed, for ever the same provider. */
  ghost predicate Steady(history: seq<Routing>) {
    forall i, j :: 0 <= i <= j < |history| && history[i].pinned ==>
      history[j].pinned && history[j].provider == history[i].provider
  }

  lemma {:induction false} PinnedStays(before: Routing, after: Routing, result: Result, tried: seq<string>, pin: bool)
    requires Atomic(before, after, result, tried, pin) && before.pinned
    requires forall i :: 0 <= i < |tried| ==> before.provider == Some(tried[i])
    ensures after.pinned && after.provider == before.provider
  {
  }

  /** Over any sequence of operations a path that became fixed keeps its provider. */
  method Operate(path: CompositePath, operations: seq<Operation>) returns (ghost history: seq<Routing>)
    requires path.selector.Valid()
    modifies path`routing, path.selector
    ensures path.selector.Valid() && |history| == |operations| + 1
    ensures history[0] == old(path.routing) && history[|operations|] == path.routing && Steady(history)
    ensures forall i :: 0 <= i < |operations| && !operations[i].pin ==> history[i + 1] == history[i]
  {
    history := [path.routing];
    for n := 0 to |operations|
      invariant path.selector.Valid() && |history| == n + 1
      invariant history[0] == old(path.routing) && history[n] == path.routing && Steady(history)
      invariant forall i :: 0 <= i < n && !operations[i].pin ==> history[i + 1] == history[i]
    {
      hide LastDecides, CanServe;
      var op := operations[n];
      ghost var before := path.routing;
      var result, tried := path.Dispatch(op.alternatives, op.attempts, op.pin, op.retryNotImplemented);
      if before.pinned { PinnedStays(before, path.routing, result, tried, op.pin); }
      ghost var grown := history + [path.routing];
      assert Steady(grown) by {
        forall i, j | 0 <= i <= j < |grown| && grown[i].pinned
          ensures grown[j].pinned && grown[j].provider == grown[i].provider
        {
          if i < j == n + 1 { assert history[n].pinned && history[n].provider == history[i].provider; }
        }
      }
      history := grown;
    }
  }
}
