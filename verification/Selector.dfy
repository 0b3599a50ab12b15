/** Ordered selection of providers, with refusals remembered for one connection generation. */
module Selection {
  import opened Options

  datatype Availability = Available | Degraded | Unavailable

  /** What a provider's probe answers: whether it can serve, and the capabilities it states. */
  datatype Probe = Probe(availability: Availability, capabilities: set<string>) {
    predicate Usable() { availability != Unavailable }
  }

  datatype Provider = Provider(name: string, capabilities: set<string>)

  /** One candidate a selection considered. */
  datatype Step = Step(provider: string, availability: Availability, capabilities: set<string>, chosen: bool,
                       generation: nat, pin: bool)

  /** A probe narrows the declared set; only under the `path` wildcard does what it states stand. */
  function Effective(declared: set<string>, stated: set<string>): set<string> {
    if stated == {} then declared else if "path" in declared then stated else declared * stated
  }

  /** A provider that declares the `path` wildcard declares everything. */
  predicate Declares(declared: set<string>, capability: string) { capability in declared || "path" in declared }

  /** A probe invents nothing and takes away nothing but by what it states: a provider can do exactly what it both
      declares and states, and without a statement exactly what its declaration names. */
  lemma {:induction false} EffectiveIs(declared: set<string>, stated: set<string>, capability: string)
    ensures capability in Effective(declared, stated) <==>
      if stated == {} then capability in declared else capability in stated && Declares(declared, capability)
  {
    if stated != {} && "path" !in declared { assert Effective(declared, stated) == declared * stated; }
  }

  predicate Allowed(p: Provider, answers: string -> Probe, capability: Option<string>) {
    answers(p.name).Usable() &&
    (capability.Some? ==> capability.value in Effective(p.capabilities, answers(p.name).capabilities))
  }

  predicate Candidate(p: Provider, answers: string -> Probe, capability: Option<string>,
                      declined: set<string>, excluded: set<string>) {
    p.name !in declined && p.name !in excluded && Allowed(p, answers, capability)
  }

  // ------------------------------------------------------------------------ the reference selection

  /** The first candidate in order. */
  function Choose(providers: seq<Provider>, answers: string -> Probe, capability: Option<string>,
                  declined: set<string>, excluded: set<string>): Option<Provider> {
    if providers == [] then None
    else if Candidate(providers[0], answers, capability, declined, excluded) then Some(providers[0])
    else Choose(providers[1..], answers, capability, declined, excluded)
  }

  /** The refusals that another operation recorded and this one may forget. */
  function Stale(providers: seq<Provider>, capability: Option<string>, declined: set<string>, excluded: set<string>)
    : set<string>
  {
    set p | p in providers && p.name in declined && p.name !in excluded
            && (capability.Some? ==> capability.value in p.capabilities) :: p.name
  }

  /** The first candidate, else the first one once the earlier refusals are forgotten. */
  function Selected(providers: seq<Provider>, answers: string -> Probe, capability: Option<string>,
                    declined: set<string>, excluded: set<string>): Option<Provider> {
    var first := Choose(providers, answers, capability, declined, excluded);
    if first.Some? then first
    else Choose(providers, answers, capability, declined - Stale(providers, capability, declined, excluded), excluded)
  }

  function DeclinedAfter(providers: seq<Provider>, answers: string -> Probe, capability: Option<string>,
                         declined: set<string>, excluded: set<string>): set<string> {
    if Choose(providers, answers, capability, declined, excluded).Some? then declined
    else declined - Stale(providers, capability, declined, excluded)
  }

  predicate Unique(names: seq<string>) { forall i, j :: 0 <= i < j < |names| ==> names[i] != names[j] }

  function Members(names: seq<string>): set<string> { set name | name in names }

  function Names(providers: seq<Provider>): set<string> { set p | p in providers :: p.name }

  lemma {:induction false} MembersAre(names: seq<string>)
    ensures forall name :: name in Members(names) <==> name in names
  {
  }

  lemma {:induction false} MembersPush(names: seq<string>, name: string)
    ensures Members(names + [name]) == Members(names) + {name}
    ensures Unique(names) && name !in Members(names) ==> Unique(names + [name])
  {
  }

  predicate Distinct(providers: seq<Provider>) {
    forall i, j :: 0 <= i < j < |providers| ==> providers[i].name != providers[j].name
  }

  ghost predicate IsFirstCandidate(providers: seq<Provider>, answers: string -> Probe, capability: Option<string>,
                                   declined: set<string>, excluded: set<string>, p: Provider) {
    exists i :: 0 <= i < |providers| && providers[i] == p &&
      forall k :: 0 <= k < i ==> !Candidate(providers[k], answers, capability, declined, excluded)
  }

  lemma {:induction false} ChooseIsFirst(providers: seq<Provider>, answers: string -> Probe, capability: Option<string>,
                                         declined: set<string>, excluded: set<string>)
    ensures var r := Choose(providers, answers, capability, declined, excluded);
            r.None? ==> forall p :: p in providers ==> !Candidate(p, answers, capability, declined, excluded)
    ensures var r := Choose(providers, answers, capability, declined, excluded);
            r.Some? ==> Candidate(r.value, answers, capability, declined, excluded)
                        && IsFirstCandidate(providers, answers, capability, declined, excluded, r.value)
  {
    hide Candidate;
    if providers != [] && !Candidate(providers[0], answers, capability, declined, excluded) {
      ChooseIsFirst(providers[1..], answers, capability, declined, excluded);
      var r := Choose(providers, answers, capability, declined, excluded);
      if r.Some? {
        var i :| 0 <= i < |providers[1..]| && providers[1..][i] == r.value
                 && forall k :: 0 <= k < i ==> !Candidate(providers[1..][k], answers, capability, declined, excluded);
        forall k | 0 <= k < i + 1 ensures !Candidate(providers[k], answers, capability, declined, excluded) {
          if k > 0 { assert providers[k] == providers[1..][k - 1]; }
        }
        assert providers[i + 1] == r.value;
      }
    }
  }

  lemma {:induction false} ChooseSkips(providers: seq<Provider>, answers: string -> Probe, capability: Option<string>,
                                       declined: set<string>, excluded: set<string>, n: nat)
    requires n <= |providers|
    requires forall k :: 0 <= k < n ==> !Candidate(providers[k], answers, capability, declined, excluded)
    ensures Choose(providers, answers, capability, declined, excluded)
            == Choose(providers[n..], answers, capability, declined, excluded)
  {
    hide Candidate;
    if n > 0 {
      assert providers[1..][n - 1..] == providers[n..];
      ChooseSkips(providers[1..], answers, capability, declined, excluded, n - 1);
    }
  }

  /** Without a capability, selection never bricks: it fails exactly when no provider outside `excluded` is usable,
      whatever was refused before. */
  lemma {:induction false} NeverBricks(providers: seq<Provider>, answers: string -> Probe, declined: set<string>,
                                       excluded: set<string>)
    ensures Selected(providers, answers, None, declined, excluded).None? <==>
            forall p :: p in providers && p.name !in excluded ==> !answers(p.name).Usable()
  {
    var left := declined - Stale(providers, None, declined, excluded);
    ChooseIsFirst(providers, answers, None, declined, excluded);
    ChooseIsFirst(providers, answers, None, left, excluded);
    forall p | p in providers && p.name !in excluded ensures p.name !in left {}
  }

  /** What one selection without a capability gives: a usable provider outside `excluded`, before which every usable
      one is excluded or was refused earlier; or nothing, when every usable one is excluded. */
  lemma {:induction false} WhatSelectMeans(providers: seq<Provider>, answers: string -> Probe, declined: set<string>,
                                           excluded: set<string>)
    ensures var r := Selected(providers, answers, None, declined, excluded);
            r.None? ==> forall p :: p in providers && answers(p.name).Usable() ==> p.name in excluded
    ensures var r := Selected(providers, answers, None, declined, excluded);
            r.Some? ==> r.value in providers && r.value.name !in excluded && answers(r.value.name).Usable()
                        && FirstBut(providers, answers, declined + excluded, r.value)
    ensures var left := DeclinedAfter(providers, answers, None, declined, excluded);
            var r := Selected(providers, answers, None, declined, excluded);
            left <= declined && declined * excluded <= left && (r.Some? ==> r.value.name !in left)
  {
    NeverBricks(providers, answers, declined, excluded);
    var left := declined - Stale(providers, None, declined, excluded);
    ChooseIsFirst(providers, answers, None, declined, excluded);
    ChooseIsFirst(providers, answers, None, left, excluded);
  }

  /** Every usable provider before `p` is in `skipped`. */
  ghost predicate FirstBut(providers: seq<Provider>, answers: string -> Probe, skipped: set<string>, p: Provider) {
    exists i :: 0 <= i < |providers| && providers[i] == p &&
      forall k :: 0 <= k < i && answers(providers[k].name).Usable() ==> providers[k].name in skipped
  }

  /** A provider selected for a capability is usable, not excluded, declares the capability, and states it if its probe
      states anything. */
  lemma {:induction false} SelectedOffers(providers: seq<Provider>, answers: string -> Probe, capability: string,
                                          declined: set<string>, excluded: set<string>)
    ensures var r := Selected(providers, answers, Some(capability), declined, excluded);
            r.Some? ==>
              var stated := answers(r.value.name).capabilities;
              r.value in providers && r.value.name !in excluded && answers(r.value.name).Usable()
              && Declares(r.value.capabilities, capability)
              && (if stated == {} then capability in r.value.capabilities else capability in stated)
  {
    hide Effective, Declares;
    var left := declined - Stale(providers, Some(capability), declined, excluded);
    ChooseIsFirst(providers, answers, Some(capability), declined, excluded);
    ChooseIsFirst(providers, answers, Some(capability), left, excluded);
    var r := Selected(providers, answers, Some(capability), declined, excluded);
    if r.Some? {
      EffectiveIs(r.value.capabilities, answers(r.value.name).capabilities, capability);
      NamedIsDeclared(r.value.capabilities, capability);
    }
  }

  lemma {:induction false} NamedIsDeclared(declared: set<string>, capability: string)
    ensures capability in declared ==> Declares(declared, capability)
  {
  }

  /** With a capability, it fails exactly when every provider outside `excluded` that could serve it was refused
      before and does not itself declare the capability: such a provider, which only states it under the `path`
      wildcard, is not given another chance. */
  lemma {:induction false} FailsWithCapability(providers: seq<Provider>, answers: string -> Probe, capability: string,
                                               declined: set<string>, excluded: set<string>)
    requires Distinct(providers)
    ensures Selected(providers, answers, Some(capability), declined, excluded).None? <==>
            forall p :: p in providers && p.name !in excluded && Allowed(p, answers, Some(capability)) ==>
              p.name in declined && capability !in p.capabilities
  {
    hide Allowed;
    var cap := Some(capability);
    var left := declined - Stale(providers, cap, declined, excluded);
    ChooseIsFirst(providers, answers, cap, declined, excluded);
    ChooseIsFirst(providers, answers, cap, left, excluded);
    forall p | p in providers && p.name !in excluded
      ensures p.name in left <==> p.name in declined && capability !in p.capabilities
    {
      if p.name in declined && p.name !in left {
        var q :| q in providers && q.name == p.name && capability in q.capabilities;
        assert q == p;
      }
    }
  }

  /** The case is real: one provider, refused once, is usable for `spawn` and yet selection fails for good. */
  lemma {:induction false} WildcardStaysRefused(providers: seq<Provider>, answers: string -> Probe)
    requires providers == [Provider("only", {"path"})] && answers("only") == Probe(Available, {"spawn"})
    ensures Allowed(providers[0], answers, Some("spawn"))
    ensures Selected(providers, answers, Some("spawn"), {"only"}, {}).None?
    ensures Selected(providers, answers, None, {"only"}, {}) == Some(providers[0])
  {
    FailsWithCapability(providers, answers, "spawn", {"only"}, {});
    NeverBricks(providers, answers, {"only"}, {});
    var left := {"only"} - Stale(providers, None, {"only"}, {});
    ChooseIsFirst(providers, answers, None, {"only"}, {});
    ChooseIsFirst(providers, answers, None, left, {});
  }

  // -------------------------------------------------------------------------------------- the trace

  /** The trace lists the first providers, in order, each once. */
  ghost predicate InOrder(trace: seq<Step>, providers: seq<Provider>) {
    |trace| <= |providers| && forall i :: 0 <= i < |trace| ==> trace[i].provider == providers[i].name
  }

  /** A later step for a provider takes the place of the earlier one. */
  function Recorded(trace: seq<Step>, step: Step): seq<Step> {
    if trace == [] then [step]
    else if trace[0].provider == step.provider then [step] + trace[1..]
    else [trace[0]] + Recorded(trace[1..], step)
  }

  lemma {:induction false} RecordInOrder(trace: seq<Step>, step: Step, providers: seq<Provider>, i: nat)
    requires Distinct(providers) && InOrder(trace, providers)
    requires i <= |trace| && i < |providers| && step.provider == providers[i].name
    ensures InOrder(Recorded(trace, step), providers)
    ensures |Recorded(trace, step)| == if i == |trace| then |trace| + 1 else |trace|
    ensures Recorded(trace, step)[i] == step
  {
    hide Distinct, InOrder;
    if trace == [] {
      OneInOrder(step, providers);
    } else if i == 0 {
      OtherHead(trace, step, providers);
    } else {
      TailInOrder(trace, providers, i);
      RecordInOrder(trace[1..], step, providers[1..], i - 1);
      HeadInOrder(trace[0], Recorded(trace[1..], step), providers);
    }
  }

  lemma {:induction false} OneInOrder(step: Step, providers: seq<Provider>)
    requires providers != [] && step.provider == providers[0].name
    ensures InOrder([step], providers)
  {
  }

  lemma {:induction false} OtherHead(trace: seq<Step>, step: Step, providers: seq<Provider>)
    requires trace != [] && InOrder(trace, providers) && providers != [] && step.provider == providers[0].name
    ensures trace[0].provider == step.provider && InOrder([step] + trace[1..], providers)
  {
    assert forall k :: 0 < k < |trace| ==> ([step] + trace[1..])[k] == trace[k];
  }

  lemma {:induction false} TailInOrder(trace: seq<Step>, providers: seq<Provider>, i: nat)
    requires Distinct(providers) && trace != [] && InOrder(trace, providers) && 0 < i < |providers|
    ensures Distinct(providers[1..]) && InOrder(trace[1..], providers[1..])
    ensures trace[0].provider == providers[0].name != providers[i].name
  {
  }

  lemma {:induction false} HeadInOrder(head: Step, tail: seq<Step>, providers: seq<Provider>)
    requires providers != [] && head.provider == providers[0].name && InOrder(tail, providers[1..])
    ensures InOrder([head] + tail, providers)
  {
    assert forall k :: 0 < k < |tail| + 1 ==> ([head] + tail)[k] == tail[k - 1];
  }

  /** What the trace says of a provider that one pass considers: refused earlier, or as its probe answers. */
  function StepOf(p: Provider, answers: string -> Probe, capability: Option<string>, declined: set<string>,
                  generation: nat, pin: bool): Step {
    if p.name in declined then Step(p.name, Unavailable, {}, false, generation, pin)
    else Step(p.name, answers(p.name).availability, answers(p.name).capabilities, Allowed(p, answers, capability), generation, pin)
  }

  /** The trace after one pass: each provider in turn, but those only excluded, until one is chosen. */
  function Scanned(trace: seq<Step>, providers: seq<Provider>, answers: string -> Probe, capability: Option<string>,
                   declined: set<string>, excluded: set<string>, generation: nat, pin: bool): seq<Step>
    decreases |providers|
  {
    if providers == [] then trace
    else
      var p := providers[0];
      if p.name in excluded && p.name !in declined then
        Scanned(trace, providers[1..], answers, capability, declined, excluded, generation, pin)
      else
        var step := StepOf(p, answers, capability, declined, generation, pin);
        if step.chosen then Recorded(trace, step)
        else Scanned(Recorded(trace, step), providers[1..], answers, capability, declined, excluded, generation, pin)
  }

  /** The step tells of the provider: why it was passed over before, or what its probe answers. */
  predicate Tells(step: Step, p: Provider, answers: string -> Probe, declined: set<string>) {
    && step.provider == p.name
    && (p.name in declined ==> step.availability == Unavailable && step.capabilities == {} && !step.chosen)
    && (p.name !in declined ==> Probe(step.availability, step.capabilities) == answers(p.name))
  }

  /** The first pass of an operation tells of every provider up to the one chosen, in order, and marks that one alone; if
      none is chosen it tells of all. */
  ghost predicate TellsAll(trace: seq<Step>, providers: seq<Provider>, answers: string -> Probe, capability: Option<string>,
                           declined: set<string>) {
    var choice := Choose(providers, answers, capability, declined, {});
    |trace| <= |providers| && (choice.None? ==> |trace| == |providers|)
    && forall k :: 0 <= k < |trace| ==>
         Tells(trace[k], providers[k], answers, declined) && (trace[k].chosen <==> choice == Some(providers[k]))
  }

  lemma {:induction false} RecordedNew(trace: seq<Step>, step: Step)
    requires forall k :: 0 <= k < |trace| ==> trace[k].provider != step.provider
    ensures Recorded(trace, step) == trace + [step]
  {
    if trace == [] {
      assert trace + [step] == [step];
    } else {
      RecordedNew(trace[1..], step);
      assert trace + [step] == [trace[0]] + (trace[1..] + [step]);
    }
  }

  lemma {:induction false} FirstPass(trace: seq<Step>, providers: seq<Provider>, i: nat, answers: string -> Probe,
                                     capability: Option<string>, declined: set<string>, generation: nat, pin: bool)
    requires Distinct(providers) && i == |trace| <= |providers|
    requires forall k :: 0 <= k < i ==> Tells(trace[k], providers[k], answers, declined) && !trace[k].chosen
    requires forall k :: 0 <= k < i ==> !Candidate(providers[k], answers, capability, declined, {})
    ensures TellsAll(Scanned(trace, providers[i..], answers, capability, declined, {}, generation, pin), providers, answers,
                     capability, declined)
    decreases |providers| - i
  {
    hide Allowed, Choose, Recorded;
    if i == |providers| {
      NothingScanned(trace, answers, capability, declined, {}, generation, pin);
      assert providers[i..] == [];
      NoneChosen(providers, answers, capability, declined, {});
    } else {
      var p := providers[i];
      var step := StepOf(p, answers, capability, declined, generation, pin);
      assert providers[i..][1..] == providers[i + 1..];
      RecordedNew(trace, step);
      if step.chosen {
        ChosenAt(providers, answers, capability, declined, {}, i);
      } else {
        FirstPass(trace + [step], providers, i + 1, answers, capability, declined, generation, pin);
      }
    }
  }

  /** What `trace` reports after the first pass of an operation. */
  lemma {:induction false} FirstPassTells(providers: seq<Provider>, answers: string -> Probe, capability: Option<string>,
                                          declined: set<string>, generation: nat, pin: bool)
    requires Distinct(providers)
    ensures TellsAll(Scanned([], providers, answers, capability, declined, {}, generation, pin), providers, answers,
                     capability, declined)
  {
    hide Scanned, TellsAll;
    assert providers[0..] == providers;
    FirstPass([], providers, 0, answers, capability, declined, generation, pin);
  }

  class Selector {
    const providers: seq<Provider>
    /** What each provider's probe answers in each generation; a probe that raises answers `Unavailable`. */
    const answer: (string, nat) -> Probe
    var probeCache: map<string, Probe>
    var declined: map<string, string>
    var trace: seq<Step>
    var generation: nat

    ghost predicate Valid()
      reads this
    {
      Distinct(providers) && forall name :: name in probeCache ==> probeCache[name] == answer(name, generation)
    }

    ghost function Answers(): string -> Probe
      reads this`generation
    {
      var now := generation;
      name => answer(name, now)
    }

    constructor (providers: seq<Provider>, answer: (string, nat) -> Probe)
      requires Distinct(providers)
      ensures Valid() && this.providers == providers && this.answer == answer
      ensures declined == map[] && trace == [] && generation == 0
    {
      this.providers := providers;
      this.answer := answer;
      probeCache, declined, trace, generation := map[], map[], [], 0;
    }

    /** Record that a provider refused before dispatch this generation. */
    method Decline(name: string, reason: string)
      requires Valid()
      modifies this`declined
      ensures Valid() && declined == old(declined)[name := reason]
    {
      declined := declined[name := reason];
    }

    /** A new generation: probes are asked again and no refusal is remembered. */
    method Invalidate()
      requires Valid()
      modifies this
      ensures Valid() && generation == old(generation) + 1 && declined == map[] && trace == []
      ensures probeCache == map[]
    {
      probeCache, declined, trace, generation := map[], map[], [], generation + 1;
    }

    /** The probe cached for this generation; a provider that declined reports as unavailable. */
    method ProbeOf(p: Provider) returns (probe: Probe)
      requires Valid()
      modifies this`probeCache
      ensures Valid()
      ensures probe == if p.name in declined then Probe(Unavailable, {}) else answer(p.name, generation)
      ensures probeCache == if p.name in declined then old(probeCache) else old(probeCache)[p.name := probe]
    {
      if p.name in declined { return Probe(Unavailable, {}); }
      if p.name in probeCache { return probeCache[p.name]; }
      probe := answer(p.name, generation);
      probeCache := probeCache[p.name := probe];
    }

    /** Forget the refusals that the running operation did not make. */
    method ReadmitEarlierDeclines(excluded: set<string>, capability: Option<string>) returns (any: bool)
      requires Valid()
      modifies this`declined
      ensures Valid()
      ensures var stale := Stale(providers, capability, old(declined).Keys, excluded);
              any == (stale != {}) && declined == old(declined) - stale && stale <= old(declined).Keys
              && declined.Keys == old(declined).Keys - stale
    {
      var stale := Stale(providers, capability, declined.Keys, excluded);
      declined := declined - stale;
      any := stale != {};
    }

    /** One pass over the providers in order, recording each one considered. */
    method Scan(capability: Option<string>, excluded: set<string>, pin: bool, ghost orderly: bool)
      returns (r: Option<Provider>)
      requires Valid() && (orderly ==> InOrder(trace, providers) && Traced(trace, excluded))
      modifies this`probeCache, this`trace
      ensures Valid() && r == Choose(providers, Answers(), capability, declined.Keys, excluded)
      ensures trace == Scanned(old(trace), providers, Answers(), capability, declined.Keys, excluded, generation, pin)
      ensures orderly ==> InOrder(trace, providers) && Traced(trace, excluded)
      ensures orderly ==> if r.None? then |trace| == |providers| else Traced(trace, excluded + {r.value.name})
    {
      hide Allowed, Choose, Distinct, InOrder, Traced, Scanned, StepOf, Recorded;
      var answers := Answers();
      assert providers[0..] == providers;
      ghost var whole := Scanned(trace, providers, answers, capability, declined.Keys, excluded, generation, pin);
      for i := 0 to |providers|
        invariant Valid() && answers == Answers()
        invariant forall k :: 0 <= k < i ==> !Candidate(providers[k], answers, capability, declined.Keys, excluded)
        invariant orderly ==> InOrder(trace, providers) && i <= |trace| && Traced(trace, excluded)
        invariant Scanned(trace, providers[i..], answers, capability, declined.Keys, excluded, generation, pin) == whole
      {
        var p := providers[i];
        StepIs(p, answers, capability, declined.Keys, generation, pin);
        ScanStep(trace, providers, i, answers, capability, declined.Keys, excluded, generation, pin);
        if p.name in declined {
          trace := Record(Step(p.name, Unavailable, {}, false, generation, pin), i, excluded, orderly);
          continue;
        }
        if p.name in excluded {
          if orderly { TracedIsBefore(trace, providers, excluded, i); }
          continue;
        }
        var probe := ProbeOf(p);
        var allowed := probe.Usable() &&
          (capability.None? || capability.value in Effective(p.capabilities, probe.capabilities));
        AllowedIs(p, answers, capability, probe);
        trace := Record(Step(p.name, probe.availability, probe.capabilities, allowed, generation, pin), i, excluded,
                        orderly);
        if allowed {
          ChosenAt(providers, answers, capability, declined.Keys, excluded, i);
          return Some(p);
        }
      }
      assert providers[|providers|..] == [];
      NothingScanned(trace, answers, capability, declined.Keys, excluded, generation, pin);
      NoneChosen(providers, answers, capability, declined.Keys, excluded);
      if orderly { WholeTrace(trace, providers); }
      return None;
    }

    /** Choose the provider for one operation, or for the next attempt of one; `None` is the refusal to go on. */
    method Select(capability: Option<string>, excluded: set<string>, pin: bool) returns (r: Option<Provider>)
      requires Valid()
      modifies this`probeCache, this`declined, this`trace
      ensures Valid()
      ensures r == Selected(providers, Answers(), capability, old(declined).Keys, excluded)
      ensures declined.Keys == DeclinedAfter(providers, Answers(), capability, old(declined).Keys, excluded)
      ensures forall name :: name in declined ==> name in old(declined) && declined[name] == old(declined)[name]
      // The trace accumulates over the attempts of one operation, always in provider order, and a failure has
      // listed every provider.
      ensures excluded == {} || (InOrder(old(trace), providers) && Traced(old(trace), excluded)) ==>
                InOrder(trace, providers) &&
                if r.None? then |trace| == |providers| else Traced(trace, excluded + {r.value.name})
      decreases |declined.Keys|
    {
      hide Allowed, Choose, Selected, DeclinedAfter, Distinct, Stale, InOrder, Traced;
      ghost var orderly := excluded == {} || (InOrder(trace, providers) && Traced(trace, excluded));
      ghost var before := declined.Keys;
      SelectedOnce(providers, Answers(), capability, before, excluded);
      if excluded == {} {
        NoTrace(providers);
        trace := [];
      }
      r := Scan(capability, excluded, pin, orderly);
      if r.Some? { return; }
      ghost var kept := declined;
      var stale := ReadmitEarlierDeclines(excluded, capability);
      if stale {
        Shrinks(kept, Stale(providers, capability, before, excluded));
        r := Select(capability, excluded, pin);
      }
    }

    method Record(step: Step, i: nat, ghost excluded: set<string>, ghost orderly: bool) returns (after: seq<Step>)
      requires Valid() && i < |providers| && step.provider == providers[i].name
      requires orderly ==> InOrder(trace, providers) && i <= |trace| && Traced(trace, excluded)
      ensures after == Recorded(trace, step)
      ensures orderly ==> InOrder(after, providers) && i + 1 <= |after|
      ensures orderly ==> Traced(after, excluded) && Traced(after, excluded + {step.provider})
    {
      after := Recorded(trace, step);
      if orderly {
        RecordInOrder(trace, step, providers, i);
        RecordKeeps(trace, step, excluded);
      }
    }
  }

  lemma {:induction false} ScanStep(trace: seq<Step>, providers: seq<Provider>, i: nat, answers: string -> Probe,
                                    capability: Option<string>, declined: set<string>, excluded: set<string>,
                                    generation: nat, pin: bool)
    requires i < |providers|
    ensures var p := providers[i];
            var step := StepOf(p, answers, capability, declined, generation, pin);
            Scanned(trace, providers[i..], answers, capability, declined, excluded, generation, pin)
            == if p.name in excluded && p.name !in declined
               then Scanned(trace, providers[i + 1..], answers, capability, declined, excluded, generation, pin)
               else if step.chosen then Recorded(trace, step)
               else Scanned(Recorded(trace, step), providers[i + 1..], answers, capability, declined, excluded, generation, pin)
  {
    hide Allowed, Recorded;
    assert providers[i..][0] == providers[i] && providers[i..][1..] == providers[i + 1..];
  }

  lemma {:induction false} StepIs(p: Provider, answers: string -> Probe, capability: Option<string>, declined: set<string>,
                                  generation: nat, pin: bool)
    ensures p.name in declined ==>
      StepOf(p, answers, capability, declined, generation, pin) == Step(p.name, Unavailable, {}, false, generation, pin)
    ensures p.name !in declined ==>
      StepOf(p, answers, capability, declined, generation, pin)
      == Step(p.name, answers(p.name).availability, answers(p.name).capabilities, Allowed(p, answers, capability), generation, pin)
  {
    hide Allowed;
  }

  lemma {:induction false} NothingScanned(trace: seq<Step>, answers: string -> Probe, capability: Option<string>,
                                          declined: set<string>, excluded: set<string>, generation: nat, pin: bool)
    ensures Scanned(trace, [], answers, capability, declined, excluded, generation, pin) == trace
  {
  }

  /** Every excluded provider was tried, so the trace has it. */
  ghost predicate Traced(trace: seq<Step>, excluded: set<string>) {
    forall name :: name in excluded ==> exists i :: 0 <= i < |trace| && trace[i].provider == name
  }

  lemma {:induction false} RecordKeeps(trace: seq<Step>, step: Step, excluded: set<string>)
    requires Traced(trace, excluded)
    ensures Traced(Recorded(trace, step), excluded + {step.provider})
  {
    forall name | name in excluded + {step.provider}
      ensures exists i :: 0 <= i < |Recorded(trace, step)| && Recorded(trace, step)[i].provider == name
    {
      if name == step.provider {
        RecordHas(trace, step);
      } else {
        var i :| 0 <= i < |trace| && trace[i].provider == name;
        RecordKeepsOne(trace, step, i);
      }
    }
  }

  lemma {:induction false} RecordHas(trace: seq<Step>, step: Step)
    ensures exists i :: 0 <= i < |Recorded(trace, step)| && Recorded(trace, step)[i].provider == step.provider
  {
    var after := Recorded(trace, step);
    if trace != [] && trace[0].provider != step.provider {
      RecordHas(trace[1..], step);
      var i :| 0 <= i < |Recorded(trace[1..], step)| && Recorded(trace[1..], step)[i].provider == step.provider;
      assert after[i + 1].provider == step.provider;
    } else {
      assert after[0] == step;
    }
  }

  lemma {:induction false} RecordKeepsOne(trace: seq<Step>, step: Step, i: nat)
    requires i < |trace|
    ensures i < |Recorded(trace, step)| && Recorded(trace, step)[i].provider == trace[i].provider
  {
    if i > 0 && trace[0].provider != step.provider { RecordKeepsOne(trace[1..], step, i - 1); }
  }

  lemma {:induction false} TracedIsBefore(trace: seq<Step>, providers: seq<Provider>, excluded: set<string>, i: nat)
    requires Distinct(providers) && InOrder(trace, providers) && Traced(trace, excluded)
    requires i < |providers| && providers[i].name in excluded
    ensures i < |trace|
  {
    var k :| 0 <= k < |trace| && trace[k].provider == providers[i].name;
    assert providers[k].name == providers[i].name;
  }

  lemma {:induction false} NoTrace(providers: seq<Provider>)
    ensures InOrder([], providers) && Traced([], {})
  {
  }

  lemma {:induction false} WholeTrace(trace: seq<Step>, providers: seq<Provider>)
    requires InOrder(trace, providers) && |providers| <= |trace|
    ensures |trace| == |providers|
  {
  }

  lemma {:induction false} Shrinks(declined: map<string, string>, stale: set<string>)
    requires stale != {} && stale <= declined.Keys
    ensures |(declined - stale).Keys| < |declined.Keys|
  {
    assert (declined - stale).Keys == declined.Keys - stale;
    var name :| name in stale;
    assert declined.Keys - stale <= declined.Keys - {name};
    Smaller(declined.Keys - stale, declined.Keys - {name});
  }

  lemma {:induction false} Smaller(a: set<string>, b: set<string>)
    requires a <= b
    ensures |a| <= |b|
  {
    if a != {} {
      var x :| x in a;
      Smaller(a - {x}, b - {x});
    }
  }

  lemma {:induction false} AllowedIs(p: Provider, answers: string -> Probe, capability: Option<string>, probe: Probe)
    requires probe == answers(p.name)
    ensures Allowed(p, answers, capability) <==>
            probe.Usable() && (capability.None? || capability.value in Effective(p.capabilities, probe.capabilities))
  {
  }

  lemma {:induction false} ChosenAt(providers: seq<Provider>, answers: string -> Probe, capability: Option<string>,
                                    declined: set<string>, excluded: set<string>, i: nat)
    requires i < |providers| && Candidate(providers[i], answers, capability, declined, excluded)
    requires forall k :: 0 <= k < i ==> !Candidate(providers[k], answers, capability, declined, excluded)
    ensures Choose(providers, answers, capability, declined, excluded) == Some(providers[i])
  {
    ChooseSkips(providers, answers, capability, declined, excluded, i);
  }

  lemma {:induction false} NoneChosen(providers: seq<Provider>, answers: string -> Probe, capability: Option<string>,
                                      declined: set<string>, excluded: set<string>)
    requires forall k :: 0 <= k < |providers| ==> !Candidate(providers[k], answers, capability, declined, excluded)
    ensures Choose(providers, answers, capability, declined, excluded) == None
  {
    ChooseSkips(providers, answers, capability, declined, excluded, |providers|);
  }

  /** After one forgetting there is nothing left to forget. */
  lemma {:induction false} SelectedOnce(providers: seq<Provider>, answers: string -> Probe,
                                        capability: Option<string>, declined: set<string>, excluded: set<string>)
    ensures var first := Choose(providers, answers, capability, declined, excluded);
            var stale := Stale(providers, capability, declined, excluded);
            var left := declined - stale;
            if first.Some? then
              Selected(providers, answers, capability, declined, excluded) == first
              && DeclinedAfter(providers, answers, capability, declined, excluded) == declined
            else
              Selected(providers, answers, capability, declined, excluded)
                == Selected(providers, answers, capability, left, excluded)
              && DeclinedAfter(providers, answers, capability, declined, excluded)
                == DeclinedAfter(providers, answers, capability, left, excluded)
              && (stale == {} ==> left == declined && Selected(providers, answers, capability, declined, excluded) == None
                                  && DeclinedAfter(providers, answers, capability, declined, excluded) == declined)
  {
    hide Choose;
    var stale := Stale(providers, capability, declined, excluded);
    var left := declined - stale;
    assert Stale(providers, capability, left, excluded) == {};
    assert left - {} == left;
    if stale == {} { assert left == declined; }
  }
}
