/** Which transports a host has open, over connects, replaced providers and closes.

    Two providers may share a transport, and one provider may be in both sets. A
    connect that declines opens nothing; no connect and no session initializer fails otherwise. */
module Lifecycle {
  import opened Options

  /** A transport, by its identity. */
  type Target = nat

  /** A provider, by its identity, and its transport. */
  datatype Provider = Provider(id: nat, target: Target)

  datatype Event = Opened(t: Target) | Closed(t: Target)

  /** The last thing that happened to a transport was that it was opened. */
  predicate LastOpened(log: seq<Event>, t: Target) {
    log != [] && (if log[|log| - 1].t == t then log[|log| - 1].Opened? else LastOpened(log[..|log| - 1], t))
  }

  predicate LastClosed(log: seq<Event>, t: Target) {
    log != [] && (if log[|log| - 1].t == t then log[|log| - 1].Closed? else LastClosed(log[..|log| - 1], t))
  }

  /** Between two opens a transport is closed at most once. */
  predicate ClosedOnce(log: seq<Event>) {
    forall n :: 0 <= n < |log| && log[n].Closed? ==> !LastClosed(log[..n], log[n].t)
  }

  function TargetsOf(providers: seq<Provider>): set<Target> { set p | p in providers :: p.target }

  predicate Distinct<T(==)>(items: seq<T>) { forall i, j :: 0 <= i < j < |items| ==> items[i] != items[j] }

  /** What one connect attempt does. */
  datatype Attempt = Attempt(provider: Provider, declines: bool)

  /** The provider that a selector's attempts end with. */
  function Chosen(attempts: seq<Attempt>): seq<Provider> {
    if attempts == [] then [] else if attempts[0].declines then Chosen(attempts[1..]) else [attempts[0].provider]
  }

  /** It is the first that does not decline; there is none if all of them do. */
  lemma {:induction false} ChosenIsFirst(attempts: seq<Attempt>)
    ensures Chosen(attempts) == [] <==> forall i :: 0 <= i < |attempts| ==> attempts[i].declines
    ensures forall i :: FirstToConnect(attempts, i) ==> Chosen(attempts) == [attempts[i].provider]
  {
    if attempts != [] {
      ChosenIsFirst(attempts[1..]);
      if attempts[0].declines {
        forall i | FirstToConnect(attempts, i) ensures Chosen(attempts) == [attempts[i].provider] {
          assert FirstToConnect(attempts[1..], i - 1);
        }
        assert forall i :: 0 < i < |attempts| ==> attempts[i] == attempts[1..][i - 1];
      } else {
        assert FirstToConnect(attempts, 0);
      }
    }
  }

  predicate FirstToConnect(attempts: seq<Attempt>, i: int) {
    0 <= i < |attempts| && !attempts[i].declines && forall k :: 0 <= k < i ==> attempts[k].declines
  }

  lemma {:induction false} LogMore(log: seq<Event>, e: Event, t: Target)
    ensures LastOpened(log + [e], t) == if e.t == t then e.Opened? else LastOpened(log, t)
    ensures LastClosed(log + [e], t) == if e.t == t then e.Closed? else LastClosed(log, t)
  {
    assert (log + [e])[..|log|] == log;
  }

  lemma {:induction false} ClosedOnceMore(log: seq<Event>, e: Event)
    requires ClosedOnce(log) && (e.Closed? ==> !LastClosed(log, e.t))
    ensures ClosedOnce(log + [e])
  {
    hide LastClosed;
    var more := log + [e];
    forall n | 0 <= n < |more| && more[n].Closed? ensures !LastClosed(more[..n], more[n].t) {
      if n < |log| {
        assert more[..n] == log[..n];
      } else {
        assert more[..n] == log;
      }
    }
  }

  lemma {:induction false} NotBoth(log: seq<Event>, t: Target)
    ensures !(LastOpened(log, t) && LastClosed(log, t))
    decreases |log|
  {
    if log != [] { NotBoth(log[..|log| - 1], t); }
  }

  /** The transports in order, each once. */
  function Unique(providers: seq<Provider>): (r: seq<Target>)
    ensures Distinct(r) && (forall t :: t in r <==> t in TargetsOf(providers))
  {
    if providers == [] then []
    else
      var n := |providers| - 1;
      var before := Unique(providers[..n]);
      assert providers == providers[..n] + [providers[n]];
      if providers[n].target in before then before else before + [providers[n].target]
  }

  /** Since `before` only these were closed, and nothing was opened. */
  predicate OnlyCloses(before: seq<Event>, log: seq<Event>, targets: set<Target>) {
    && |before| <= |log| && log[..|before|] == before
    && forall n :: |before| <= n < |log| ==> log[n].Closed? && log[n].t in targets
  }

  lemma {:induction false} NothingClosed(log: seq<Event>)
    ensures OnlyCloses(log, log, {})
  {
  }

  lemma {:induction false} OnlyClosesMore(before: seq<Event>, log: seq<Event>, targets: set<Target>, t: Target)
    requires OnlyCloses(before, log, targets)
    ensures OnlyCloses(before, log + [Closed(t)], targets + {t})
  {
    assert (log + [Closed(t)])[..|before|] == log[..|before|];
  }

  lemma {:induction false} ChosenIsTried(attempts: seq<Attempt>)
    ensures forall p :: p in Chosen(attempts) ==> exists a :: a in attempts && a.provider == p
  {
    if attempts != [] {
      ChosenIsTried(attempts[1..]);
      assert attempts[0] in attempts;
      forall p | p in Chosen(attempts[1..]) ensures exists a :: a in attempts && a.provider == p {
        var a :| a in attempts[1..] && a.provider == p;
        assert a in attempts;
      }
    }
  }

  function Both(executorAttempts: seq<Attempt>, pathAttempts: seq<Attempt>): seq<Provider> {
    Chosen(executorAttempts) + Chosen(pathAttempts)
  }

  /** Something was there to connect, and all of it declined. */
  predicate NoneConnects(executorAttempts: seq<Attempt>, pathAttempts: seq<Attempt>) {
    Both(executorAttempts, pathAttempts) == [] && executorAttempts + pathAttempts != []
  }

  lemma {:induction false} ChosenFit(chosen: seq<Provider>, current: seq<Provider>)
    requires forall p :: p in chosen ==> p in current
    ensures TargetsOf(chosen + current) == TargetsOf(current) && TargetsOf(chosen) <= TargetsOf(current)
  {
  }

  lemma {:induction false} AtMostOne(attempts: seq<Attempt>)
    ensures |Chosen(attempts)| <= 1
  {
    if attempts != [] { AtMostOne(attempts[1..]); }
  }

  lemma {:induction false} TargetsAppend(a: seq<Provider>, b: seq<Provider>)
    ensures TargetsOf(a + b) == TargetsOf(a) + TargetsOf(b)
  {
  }

  function AsSet(targets: seq<Target>): set<Target> { set t | t in targets }

  function StillOpen(targets: seq<Target>, closed: set<Target>): set<Target> { AsSet(targets) - closed }

  lemma {:induction false} NothingLeft(open: set<Target>, found: set<Target>)
    ensures open - found == {} <==> open <= found
  {
    assert open <= found ==> open - found == {};
    assert open - found == {} ==> forall t :: t in open ==> t in found || t in open - found;
  }

  lemma {:induction false} Hits(a: set<Target>, t: Target, raising: set<Target>)
    ensures (a + {t}) * raising != {} <==> a * raising != {} || t in raising
    ensures a + {} == a
  {
    assert (a + {t}) * raising == a * raising + {t} * raising;
    assert t in raising <==> t in {t} * raising;
  }

  lemma {:induction false} OneMoreTarget(targets: seq<Target>, i: nat, closed: set<Target>)
    requires Distinct(targets) && i < |targets|
    ensures AsSet(targets[i..]) == AsSet(targets[i + 1..]) + {targets[i]} && targets[i] !in AsSet(targets[i + 1..])
    ensures StillOpen(targets[i..], closed)
            == StillOpen(targets[i + 1..], closed) + (if targets[i] in closed then {} else {targets[i]})
  {
    assert targets[i..] == [targets[i]] + targets[i + 1..];
  }

  /** The providers that are not among `others`. */
  function Without(providers: seq<Provider>, others: seq<Provider>): (r: seq<Provider>)
    ensures forall p :: p in r <==> p in providers && p !in others
    ensures Distinct(providers) ==> Distinct(r)
    ensures |r| <= |providers|
  {
    if providers == [] then []
    else
      var n := |providers| - 1;
      var before := Without(providers[..n], others);
      assert providers == providers[..n] + [providers[n]];
      if providers[n] in others then before else before + [providers[n]]
  }

  /** A connected provider stays listed unless it was the host's and is no more. */
  ghost predicate Remaining(before: seq<Provider>, after: seq<Provider>, formerly: seq<Provider>, now: seq<Provider>) {
    forall p :: p in after <==> (p in before && (p in formerly ==> p in now))
  }

  /** The transports of replaced providers that nothing kept shares and that are not closed yet. */
  function ToClose(replaced: seq<Provider>, kept: seq<Provider>, closed: set<Target>): (r: seq<Target>)
    ensures Distinct(r)
    ensures AsSet(r) == TargetsOf(replaced) - TargetsOf(kept) - closed
  {
    if replaced == [] then []
    else
      var n := |replaced| - 1;
      var t := replaced[n].target;
      var before := ToClose(replaced[..n], kept, closed);
      assert replaced == replaced[..n] + [replaced[n]];
      assert TargetsOf(replaced) == TargetsOf(replaced[..n]) + {t};
      assert AsSet(before + [t]) == AsSet(before) + {t};
      if t in before || t in TargetsOf(kept) || t in closed then before else before + [t]
  }

  /** The replaced providers are those of the host that are not kept. */
  ghost predicate IsReplaced(replaced: seq<Provider>, formerly: seq<Provider>, kept: seq<Provider>) {
    forall p :: p in replaced <==> p in formerly && p !in kept
  }

  lemma {:induction false} ReplacedAre(executors: seq<Provider>, paths: seq<Provider>, executor: Option<seq<Provider>>, path: Option<seq<Provider>>)
    ensures var given := (if executor.Some? then executors else []) + (if path.Some? then paths else []);
            var kept := (if executor.Some? then executor.value else executors) + (if path.Some? then path.value else paths);
            IsReplaced(Without(given, kept), executors + paths, kept)
  {
  }

  lemma {:induction false} SwapTargets(formerly: seq<Provider>, kept: seq<Provider>, replaced: seq<Provider>)
    requires IsReplaced(replaced, formerly, kept)
    ensures TargetsOf(replaced) - TargetsOf(kept) == TargetsOf(formerly) - TargetsOf(kept)
  {
  }

  lemma {:induction false} SwapConnected(connected: seq<Provider>, formerly: seq<Provider>, kept: seq<Provider>, replaced: seq<Provider>)
    requires IsReplaced(replaced, formerly, kept)
    ensures Remaining(connected, Without(connected, replaced), formerly, kept)
    ensures (forall p :: p in connected ==> p in formerly) ==> forall p :: p in Without(connected, replaced) ==> p in kept
  {
  }

  lemma {:induction false} Disjoint(open: set<Target>, closed: set<Target>, gone: set<Target>)
    requires forall t :: t in open ==> t !in closed
    ensures open - (gone - closed) == open - gone && (gone - closed) - closed == gone - closed
  {
  }

  lemma {:induction false} SwapCovered(open: set<Target>, connected: seq<Provider>, formerly: seq<Provider>, kept: seq<Provider>, replaced: seq<Provider>)
    requires IsReplaced(replaced, formerly, kept) && open <= TargetsOf(connected + formerly)
    ensures open - (TargetsOf(formerly) - TargetsOf(kept)) <= TargetsOf(Without(connected, replaced) + kept)
  {
    forall t | t in open && t !in TargetsOf(formerly) - TargetsOf(kept) ensures t in TargetsOf(Without(connected, replaced) + kept) {
      var p :| p in connected + formerly && p.target == t;
      if p in Without(connected, replaced) || p in kept {
        assert p in Without(connected, replaced) + kept;
      } else {
        assert p in formerly;
        var q :| q in kept && q.target == t;
        assert q in Without(connected, replaced) + kept;
      }
    }
  }

  class SystemHost {
    var executors: seq<Provider>
    var paths: seq<Provider>
    var connectedProviders: seq<Provider>
    var closedTargets: set<Target>
    var connected: bool
    ghost var open: set<Target>
    ghost var log: seq<Event>

    /** The books agree with what happened. */
    ghost predicate Valid()
      reads this`closedTargets, this`open, this`log
    {
      && (forall t: Target :: t in open <==> LastOpened(log, t))
      && (forall t: Target :: t in closedTargets <==> LastClosed(log, t))
      && ClosedOnce(log)
    }

    function Current(): seq<Provider>
      reads this`executors, this`paths
    {
      executors + paths
    }

    /** Every connected provider is one of the host's present ones. */
    ghost predicate InPlace()
      reads this`executors, this`paths, this`connectedProviders
    {
      forall p :: p in connectedProviders ==> p in Current()
    }

    /** A close would find every open transport. */
    ghost predicate Covered()
      reads this`executors, this`paths, this`connectedProviders, this`open
    {
      open <= TargetsOf(connectedProviders + Current())
    }

    constructor (executors: seq<Provider>, paths: seq<Provider>)
      ensures Valid() && InPlace() && Covered() && connectedProviders == [] && Distinct(connectedProviders)
      ensures open == {} && closedTargets == {} && !connected
      ensures this.executors == executors && this.paths == paths
    {
      this.executors, this.paths := executors, paths;
      connectedProviders, closedTargets, connected := [], {}, false;
      open, log := {}, [];
    }

    /** `provider.connect()` returned. */
    method Open(p: Provider)
      requires Valid()
      modifies this`closedTargets, this`open, this`log
      ensures Valid() && open == old(open) + {p.target} && closedTargets == old(closedTargets) - {p.target}
    {
      forall t { LogMore(log, Opened(p.target), t); }
      ClosedOnceMore(log, Opened(p.target));
      open := open + {p.target};
      log := log + [Opened(p.target)];
      closedTargets := closedTargets - {p.target};
    }

    /** `target.close()`, whether or not it raised. */
    method CloseTarget(target: Target)
      requires Valid() && target !in closedTargets
      modifies this`closedTargets, this`open, this`log
      ensures Valid() && open == old(open) - {target} && closedTargets == old(closedTargets) + {target}
      ensures log == old(log) + [Closed(target)]
    {
      forall t { LogMore(log, Closed(target), t); }
      ClosedOnceMore(log, Closed(target));
      open := open - {target};
      log := log + [Closed(target)];
      closedTargets := closedTargets + {target};
    }

    /** Connect one provider, unless it already is. */
    method EnsureProviderConnected(p: Provider, declines: bool) returns (declined: bool)
      requires Valid()
      modifies this`connectedProviders, this`closedTargets, this`open, this`log
      ensures Valid()
      ensures declined == (declines && p !in old(connectedProviders))
      ensures declined || p in old(connectedProviders) ==>
        connectedProviders == old(connectedProviders) && open == old(open) && log == old(log)
      ensures !declined ==> p in connectedProviders
      ensures !declined && p !in old(connectedProviders) ==>
        connectedProviders == old(connectedProviders) + [p] && open == old(open) + {p.target}
      ensures old(Distinct(connectedProviders)) ==> Distinct(connectedProviders)
      ensures old(InPlace()) && p in Current() ==> InPlace()
      ensures old(Covered()) ==> Covered()
    {
      if p in connectedProviders { return false; }
      if declines { return true; }
      Open(p);
      connectedProviders := connectedProviders + [p];
      declined := false;
      assert p in connectedProviders + Current();
    }

    /** One selector's part of a connect. */
    method ConnectOne(attempts: seq<Attempt>) returns (chosen: seq<Provider>)
      requires Valid()
      modifies this`closedTargets, this`open, this`log
      ensures Valid() && chosen == Chosen(attempts) && |chosen| <= 1
      ensures open == old(open) + TargetsOf(chosen)
    {
      for i := 0 to |attempts|
        invariant Valid() && open == old(open) && log == old(log)
        invariant Chosen(attempts) == Chosen(attempts[i..])
      {
        assert attempts[i..][1..] == attempts[i + 1..];
        if !attempts[i].declines {
          Open(attempts[i].provider);
          assert TargetsOf([attempts[i].provider]) == {attempts[i].provider.target};
          return [attempts[i].provider];
        }
      }
      assert attempts[|attempts|..] == [];
      return [];
    }

    /** `connect`: from each selector the first provider that does not decline. */
    method Connect(executorAttempts: seq<Attempt>, pathAttempts: seq<Attempt>) returns (raised: bool)
      requires Valid()
      requires forall a :: a in executorAttempts ==> a.provider in executors
      requires forall a :: a in pathAttempts ==> a.provider in paths
      modifies this`connectedProviders, this`connected, this`closedTargets, this`open, this`log
      ensures Valid()
      ensures raised <==> !old(connected) && NoneConnects(executorAttempts, pathAttempts)
      ensures connected == (old(connected) || !raised)
      ensures old(connected) || raised ==> connectedProviders == old(connectedProviders) && open == old(open)
      ensures !old(connected) && !raised ==> connectedProviders == Both(executorAttempts, pathAttempts)
      ensures !old(connected) && !raised ==> open == old(open) + TargetsOf(connectedProviders)
      // Exactly when nothing is left over from providers that are gone, everything stays within a close's reach.
      ensures !old(connected) && !raised ==> InPlace() && (Covered() <==> old(open) <= TargetsOf(Current()))
    {
      hide Valid;
      if connected { return false; }
      var first := ConnectOne(executorAttempts);
      var second := ConnectOne(pathAttempts);
      TargetsAppend(first, second);
      ChosenIsTried(executorAttempts);
      ChosenIsTried(pathAttempts);
      ChosenFit(first + second, Current());
      if first + second == [] && executorAttempts + pathAttempts != [] { return true; }
      connectedProviders := first + second;
      connected := true;
      raised := false;
    }

    /** Close what `targets` names, last first; an error of one does not spare the others. */
    method CloseAll(targets: seq<Target>, raising: set<Target>) returns (raised: bool)
      requires Valid() && Distinct(targets)
      modifies this`closedTargets, this`open, this`log
      ensures Valid()
      ensures open == old(open) - StillOpen(targets, old(closedTargets))
      ensures closedTargets == old(closedTargets) + AsSet(targets)
      ensures OnlyCloses(old(log), log, StillOpen(targets, old(closedTargets)))
      ensures raised <==> StillOpen(targets, old(closedTargets)) * raising != {}
    {
      hide Valid, OnlyCloses;
      raised := false;
      var i := |targets|;
      assert targets[|targets|..] == [];
      NothingClosed(log);
      assert StillOpen([], closedTargets) == {};
      while i > 0
        invariant 0 <= i <= |targets| && Valid()
        invariant open == old(open) - StillOpen(targets[i..], old(closedTargets))
        invariant closedTargets == old(closedTargets) + AsSet(targets[i..])
        invariant OnlyCloses(old(log), log, StillOpen(targets[i..], old(closedTargets)))
        invariant raised <==> StillOpen(targets[i..], old(closedTargets)) * raising != {}
      {
        i := i - 1;
        OneMoreTarget(targets, i, old(closedTargets));
        Hits(StillOpen(targets[i + 1..], old(closedTargets)), targets[i], raising);
        if targets[i] !in closedTargets {
          OnlyClosesMore(old(log), log, StillOpen(targets[i + 1..], old(closedTargets)), targets[i]);
          CloseTarget(targets[i]);
          if targets[i] in raising { raised := true; }
        }
      }
      assert targets[0..] == targets;
    }

    method Close(raising: set<Target>) returns (raised: bool)
      requires Valid()
      modifies this`connectedProviders, this`connected, this`closedTargets, this`open, this`log
      ensures Valid() && InPlace() && connectedProviders == [] && !connected
      ensures open == old(open) - TargetsOf(old(connectedProviders) + Current())
      ensures open == {} <==> old(Covered())
      ensures closedTargets == old(closedTargets) + TargetsOf(old(connectedProviders) + Current())
      ensures OnlyCloses(old(log), log, TargetsOf(old(connectedProviders) + Current()) - old(closedTargets))
      ensures raised <==> (TargetsOf(old(connectedProviders) + Current()) - old(closedTargets)) * raising != {}
      ensures Distinct(connectedProviders)
    {
      NeverBoth();
      ghost var found := TargetsOf(connectedProviders + Current());
      NothingLeft(open, found);
      raised := CloseAll(Unique(connectedProviders + Current()), raising);
      assert open == old(open) - found;
      connected := false;
      connectedProviders := [];
    }

    lemma {:induction false} NeverBoth()
      requires Valid()
      ensures forall t :: t in open ==> t !in closedTargets
    {
      forall t { NotBoth(log, t); }
    }

    method Install(executors: seq<Provider>, paths: seq<Provider>, connectedProviders: seq<Provider>)
      requires Valid()
      modifies this`executors, this`paths, this`connectedProviders, this`connected
      ensures Valid() && !connected && this.executors == executors && this.paths == paths
      ensures this.connectedProviders == connectedProviders
    {
      this.connectedProviders := connectedProviders;
      this.executors, this.paths, connected := executors, paths, false;
    }

    /** Swap either set of providers, or both. */
    method ReplaceProviders(executor: Option<seq<Provider>>, path: Option<seq<Provider>>, raising: set<Target>)
      returns (raised: bool)
      requires Valid()
      modifies this
      ensures Valid() && !connected
      ensures executors == (if executor.Some? then executor.value else old(executors))
      ensures paths == (if path.Some? then path.value else old(paths))
      ensures Remaining(old(connectedProviders), connectedProviders, old(Current()), Current())
      ensures |connectedProviders| <= |old(connectedProviders)|
      // What a kept provider shares stays open; everything else the replaced ones had is closed, once.
      ensures open == old(open) - (TargetsOf(old(Current())) - TargetsOf(Current()))
      ensures OnlyCloses(old(log), log, TargetsOf(old(Current())) - TargetsOf(Current()) - old(closedTargets))
      ensures raised <==> (TargetsOf(old(Current())) - TargetsOf(Current()) - old(closedTargets)) * raising != {}
      ensures old(Distinct(connectedProviders)) ==> Distinct(connectedProviders)
      ensures old(InPlace()) ==> InPlace()
      ensures old(Covered()) ==> Covered()
    {
      hide Valid, TargetsOf, AsSet, OnlyCloses, Distinct, Remaining;
      NeverBoth();
      var newExecutors := if executor.Some? then executor.value else executors;
      var newPaths := if path.Some? then path.value else paths;
      var given := (if executor.Some? then executors else []) + (if path.Some? then paths else []);
      var kept := newExecutors + newPaths;
      var replaced := Without(given, kept);
      var targets := ToClose(replaced, kept, closedTargets);
      ReplacedAre(executors, paths, executor, path);
      SwapTargets(Current(), kept, replaced);
      SwapConnected(connectedProviders, Current(), kept, replaced);
      Disjoint(open, closedTargets, TargetsOf(Current()) - TargetsOf(kept));
      if Covered() { SwapCovered(open, connectedProviders, Current(), kept, replaced); }
      Install(newExecutors, newPaths, Without(connectedProviders, replaced));
      raised := CloseAll(targets, raising);
    }
  }

  // ---------------------------------------------------------------------------------------- whole runs

  datatype Step = Use(provider: Provider, declines: bool)
                | Connect(executorAttempts: seq<Attempt>, pathAttempts: seq<Attempt>)
                | Replace(executor: Option<seq<Provider>>, path: Option<seq<Provider>>)
                | Close

  /** Whether a step goes to the host's providers of the moment. */
  predicate Fits(step: Step, executors: seq<Provider>, paths: seq<Provider>) {
    match step
    case Use(p, _) => p in executors + paths
    case Connect(e, p) => (forall a :: a in e ==> a.provider in executors) && (forall a :: a in p ==> a.provider in paths)
    case Replace(_, _) => true
    case Close => true
  }

  /** No provider is in both sets. */
  predicate Apart(executors: seq<Provider>, paths: seq<Provider>) {
    forall q :: q in executors ==> q !in paths
  }

  /** Whatever the selectors choose, a connect lists no provider twice exactly when the two sets share none. */
  lemma {:induction false} TwiceWhenShared(executors: seq<Provider>, paths: seq<Provider>)
    ensures (forall e, p :: Fits(Connect(e, p), executors, paths) ==> Distinct(Both(e, p))) <==> Apart(executors, paths)
  {
    if Apart(executors, paths) {
      forall e, p | Fits(Connect(e, p), executors, paths) ensures Distinct(Both(e, p)) {
        ApartIsDistinct(e, p, executors, paths);
      }
    } else {
      var q :| q in executors && q in paths;
      var once := [Attempt(q, false)];
      SharedChosenTwice(q);
      assert Fits(Connect(once, once), executors, paths);
    }
  }

  lemma {:induction false} ApartIsDistinct(e: seq<Attempt>, p: seq<Attempt>, executors: seq<Provider>, paths: seq<Provider>)
    requires Apart(executors, paths) && Fits(Connect(e, p), executors, paths)
    ensures Distinct(Both(e, p))
  {
    ChosenIsTried(e);
    ChosenIsTried(p);
    AtMostOne(e);
    AtMostOne(p);
    var both := Both(e, p);
    if |both| == 2 {
      assert both[0] in Chosen(e) && both[1] in Chosen(p);
    }
  }

  lemma {:induction false} SharedChosenTwice(q: Provider)
    ensures Both([Attempt(q, false)], [Attempt(q, false)]) == [q, q] && !Distinct([q, q])
  {
    var both := [q, q];
    assert both[0] == both[1];
  }

  /** The two sets after some steps. */
  function SetsAfter(steps: seq<Step>, executors: seq<Provider>, paths: seq<Provider>): (seq<Provider>, seq<Provider>) {
    if steps == [] then (executors, paths)
    else
      var before := SetsAfter(steps[..|steps| - 1], executors, paths);
      match steps[|steps| - 1]
      case Replace(executor, path) =>
        (if executor.Some? then executor.value else before.0, if path.Some? then path.value else before.1)
      case _ => before
  }

  /** The host starts with, and every replacement leaves, two sets that share no provider. */
  predicate AlwaysApart(steps: seq<Step>, executors: seq<Provider>, paths: seq<Provider>) {
    forall n :: 0 <= n <= |steps| ==>
      Apart(SetsAfter(steps[..n], executors, paths).0, SetsAfter(steps[..n], executors, paths).1)
  }

  /** Any steps in any order, each on the providers of its moment, errors of single closes included: no provider is
      listed twice if the sets never share one, nothing open is out of a close's reach, no transport is closed twice
      between two opens, and closing leaves nothing open. A step that does not fit is not taken. */
  method Run(host: SystemHost, steps: seq<Step>, raising: set<Target>)
    requires host.Valid() && host.InPlace() && host.Covered() && Distinct(host.connectedProviders)
    modifies host
    ensures host.Valid() && host.InPlace() && host.Covered() && ClosedOnce(host.log)
    ensures (host.executors, host.paths) == SetsAfter(steps, old(host.executors), old(host.paths))
    ensures AlwaysApart(steps, old(host.executors), old(host.paths)) ==> Distinct(host.connectedProviders)
    ensures steps != [] && steps[|steps| - 1] == Close ==> host.open == {}
  {
    ghost var apart := AlwaysApart(steps, host.executors, host.paths);
    for i := 0 to |steps|
      invariant host.Valid() && host.InPlace() && host.Covered()
      invariant (host.executors, host.paths) == SetsAfter(steps[..i], old(host.executors), old(host.paths))
      invariant apart ==> Distinct(host.connectedProviders)
      invariant i > 0 && steps[i - 1] == Close ==> host.open == {}
    {
      assert steps[..i + 1][..i] == steps[..i];
      if Fits(steps[i], host.executors, host.paths) { Take(host, steps[i], raising); }
    }
    assert steps[..|steps|] == steps;
  }

  method Take(host: SystemHost, step: Step, raising: set<Target>)
    requires host.Valid() && host.InPlace() && host.Covered() && Fits(step, host.executors, host.paths)
    modifies host
    ensures host.Valid() && host.InPlace() && host.Covered()
    ensures step.Replace? ==> host.executors == (if step.executor.Some? then step.executor.value else old(host.executors))
    ensures step.Replace? ==> host.paths == (if step.path.Some? then step.path.value else old(host.paths))
    ensures !step.Replace? ==> host.executors == old(host.executors) && host.paths == old(host.paths)
    ensures old(Distinct(host.connectedProviders) && Apart(host.executors, host.paths)) ==>
      Distinct(host.connectedProviders)
    ensures step == Close ==> host.open == {}
  {
    hide Distinct, Apart, OnlyCloses, Remaining, ClosedOnce;
    match step {
      case Use(p, declines) =>
        var _ := host.EnsureProviderConnected(p, declines);
      case Connect(e, p) =>
        OpenIsCurrent(host);
        if Apart(host.executors, host.paths) { ApartIsDistinct(e, p, host.executors, host.paths); }
        var _ := host.Connect(e, p);
      case Replace(executor, path) =>
        var _ := host.ReplaceProviders(executor, path, raising);
      case Close =>
        var _ := host.Close(raising);
    }
  }

  lemma {:induction false} OpenIsCurrent(host: SystemHost)
    requires host.InPlace() && host.Covered()
    ensures host.open <= TargetsOf(host.Current())
  {
    assert forall p :: p in host.connectedProviders + host.Current() ==> p in host.Current();
  }

  // ------------------------------------------------------------------------------ runs with late uses

  function Listed(providers: seq<Provider>): set<Provider> { set p | p in providers }

  function Transports(providers: set<Provider>): set<Target> { set p | p in providers :: p.target }

  /** What a host's books hold, and the transports that are open. */
  datatype Books = Books(executors: seq<Provider>, paths: seq<Provider>, listed: set<Provider>, connected: bool, open: set<Target>) {
    function Current(): seq<Provider> { executors + paths }

    /** What a close would find. */
    function Reach(): set<Target> { Transports(listed) + TargetsOf(Current()) }

    /** Open, but out of a close's reach. */
    function Lost(): set<Target> { open - Reach() }
  }

  /** The connect goes to the present providers, and is neither a repeated one nor declined by all. */
  predicate Succeeds(b: Books, step: Step) {
    step.Connect? && Fits(step, b.executors, b.paths) && !b.connected && !NoneConnects(step.executorAttempts, step.pathAttempts)
  }

  function Replaced(b: Books, step: Step): Books
    requires step.Replace?
  {
    var now := b.(executors := if step.executor.Some? then step.executor.value else b.executors,
                  paths := if step.path.Some? then step.path.value else b.paths);
    now.(listed := (set q | q in b.listed && (q in b.Current() ==> q in now.Current())),
         connected := false,
         open := b.open - (TargetsOf(b.Current()) - TargetsOf(now.Current())))
  }

  /** The books after one step. A use may come late: it names any provider, of the present or not. */
  function Next(b: Books, step: Step): Books {
    match step
    case Use(p, declines) =>
      if declines || p in b.listed then b else b.(listed := b.listed + {p}, open := b.open + {p.target})
    case Connect(e, p) =>
      if !Succeeds(b, step) then b
      else b.(listed := Listed(Both(e, p)), connected := true, open := b.open + TargetsOf(Both(e, p)))
    case Replace(_, _) => Replaced(b, step)
    case Close => b.(listed := {}, connected := false, open := b.open - b.Reach())
  }

  function After(b: Books, steps: seq<Step>): Books {
    if steps == [] then b else Next(After(b, steps[..|steps| - 1]), steps[|steps| - 1])
  }

  /** A connect lists anew, and so forgets an open transport that only providers of an earlier set have. */
  predicate Forgets(b: Books, step: Step, t: Target) {
    Succeeds(b, step) && t in b.open && t !in TargetsOf(b.Current())
  }

  /** The transport comes within reach: a provider that has it is connected, or becomes the host's. */
  predicate Regains(b: Books, step: Step, t: Target) {
    match step
    case Use(p, declines) => p.target == t && !declines && p !in b.listed
    case Replace(_, _) => t in TargetsOf(Replaced(b, step).Current())
    case _ => false
  }

  lemma {:induction false} UseLoses(b: Books, p: Provider, t: Target)
    ensures t in b.(listed := b.listed + {p}, open := b.open + {p.target}).Lost() <==> t in b.Lost() && p.target != t
  {
    assert Transports(b.listed + {p}) == Transports(b.listed) + {p.target};
  }

  lemma {:induction false} ConnectLoses(b: Books, step: Step, t: Target)
    requires Succeeds(b, step)
    ensures t in Next(b, step).Lost() <==> t in b.open && t !in TargetsOf(b.Current())
  {
    hide NoneConnects, TargetsOf, Chosen;
    var both := Both(step.executorAttempts, step.pathAttempts);
    SameTransports(both);
    ChosenAreCurrent(b, step);
  }

  lemma {:induction false} SameTransports(providers: seq<Provider>)
    ensures Transports(Listed(providers)) == TargetsOf(providers)
  {
    forall t | t in TargetsOf(providers) ensures t in Transports(Listed(providers)) {
      var p :| p in providers && p.target == t;
      assert p in Listed(providers);
    }
  }

  lemma {:induction false} ChosenAreCurrent(b: Books, step: Step)
    requires step.Connect? && Fits(step, b.executors, b.paths)
    ensures TargetsOf(Both(step.executorAttempts, step.pathAttempts)) <= TargetsOf(b.Current())
  {
    ChosenIsTried(step.executorAttempts);
    ChosenIsTried(step.pathAttempts);
    ChosenFit(Both(step.executorAttempts, step.pathAttempts), b.Current());
  }

  lemma {:induction false} ReplaceLoses(b: Books, step: Step, t: Target)
    requires step.Replace?
    ensures t in Next(b, step).Lost() <==> t in b.Lost() && t !in TargetsOf(Replaced(b, step).Current())
  {
    var now := Replaced(b, step);
    if t in Transports(now.listed) {
      var p :| p in now.listed && p.target == t;
      assert p in b.listed;
    }
    if t in Transports(b.listed) && t !in Transports(now.listed) && t !in TargetsOf(now.Current()) {
      var p :| p in b.listed && p.target == t;
      assert p in b.Current();
    }
  }

  lemma {:induction false} CloseLoses(b: Books)
    ensures Next(b, Close).Lost() == b.Lost() == Next(b, Close).open
  {
    assert Transports({}) == {};
  }

  /** What one step does to what is out of reach: exactly this. */
  lemma {:induction false} StepLoses(b: Books, step: Step, t: Target)
    ensures t in Next(b, step).Lost() <==> (t in b.Lost() && !Regains(b, step, t)) || Forgets(b, step, t)
  {
    hide TargetsOf, Transports, Replaced, NoneConnects, Fits;
    match step
    case Use(p, declines) => UseLoses(b, p, t);
    case Connect(_, _) => if Succeeds(b, step) { ConnectLoses(b, step, t); }
    case Replace(_, _) => ReplaceLoses(b, step, t);
    case Close => CloseLoses(b);
  }

  /** No step from the `n`-th on brings the transport within reach again. */
  predicate StaysLost(b: Books, steps: seq<Step>, n: nat, t: Target) {
    forall m :: n <= m < |steps| ==> !Regains(After(b, steps[..m]), steps[m], t)
  }

  /** The `n`-th step loses the transport for good. */
  predicate LosesForGood(b: Books, steps: seq<Step>, n: nat, t: Target) {
    n < |steps| && Forgets(After(b, steps[..n]), steps[n], t) && StaysLost(b, steps, n + 1, t)
  }

  lemma {:induction false} StaysLostMore(b: Books, steps: seq<Step>, step: Step, n: nat, t: Target)
    requires n <= |steps|
    ensures StaysLost(b, steps + [step], n, t) <==> StaysLost(b, steps, n, t) && !Regains(After(b, steps), step, t)
  {
    hide Regains, After;
    var more := steps + [step];
    assert more[..|steps|] == steps;
    forall m | n <= m < |steps| ensures more[..m] == steps[..m] && more[m] == steps[m] {}
    if StaysLost(b, more, n, t) {
      assert !Regains(After(b, more[..|steps|]), more[|steps|], t);
      forall m | n <= m < |steps| ensures !Regains(After(b, steps[..m]), steps[m], t) {
        assert !Regains(After(b, more[..m]), more[m], t);
      }
    }
  }

  lemma {:induction false} LosesMore(b: Books, steps: seq<Step>, step: Step, n: nat, t: Target)
    ensures n < |steps| ==>
      (LosesForGood(b, steps + [step], n, t) <==> LosesForGood(b, steps, n, t) && !Regains(After(b, steps), step, t))
    ensures n == |steps| ==> (LosesForGood(b, steps + [step], n, t) <==> Forgets(After(b, steps), step, t))
  {
    hide Regains, Forgets, After, StaysLost;
    var more := steps + [step];
    if n < |steps| {
      assert more[..n] == steps[..n] && more[n] == steps[n];
      StaysLostMore(b, steps, step, n + 1, t);
    } else if n == |steps| {
      assert more[..n] == steps;
      NothingAfter(b, more, t);
    }
  }

  lemma {:induction false} NothingAfter(b: Books, steps: seq<Step>, t: Target)
    ensures StaysLost(b, steps, |steps|, t)
  {
  }

  /** Over any steps, a transport ends out of reach exactly if some connect forgot it, or it was so before, and no later
      step regained it. */
  lemma {:induction false} LostIs(b: Books, steps: seq<Step>, t: Target)
    ensures t in After(b, steps).Lost() <==>
      (t in b.Lost() && StaysLost(b, steps, 0, t)) || exists n: nat :: LosesForGood(b, steps, n, t)
    decreases |steps|
  {
    hide Regains, Forgets, StaysLost, LosesForGood, Next;
    if steps == [] {
      NothingAfter(b, steps, t);
      NoneLose(b, t);
    } else {
      var last := |steps| - 1;
      var before, step := steps[..last], steps[last];
      assert before + [step] == steps;
      LostIs(b, before, t);
      StepLoses(After(b, before), step, t);
      StaysLostMore(b, before, step, 0, t);
      ExistsMore(b, before, step, t);
    }
  }

  lemma {:induction false} NoneLose(b: Books, t: Target)
    ensures !exists n: nat :: LosesForGood(b, [], n, t)
  {
  }

  lemma {:induction false} ExistsMore(b: Books, steps: seq<Step>, step: Step, t: Target)
    ensures (exists n: nat :: LosesForGood(b, steps + [step], n, t)) <==>
      ((exists n: nat :: LosesForGood(b, steps, n, t)) && !Regains(After(b, steps), step, t))
      || Forgets(After(b, steps), step, t)
  {
    hide Regains, Forgets, LosesForGood, After;
    if exists n: nat :: LosesForGood(b, steps + [step], n, t) {
      var n: nat :| LosesForGood(b, steps + [step], n, t);
      LosesWithin(b, steps + [step], n, t);
      LosesMore(b, steps, step, n, t);
    }
    if exists n: nat :: LosesForGood(b, steps, n, t) {
      var n: nat :| LosesForGood(b, steps, n, t);
      LosesWithin(b, steps, n, t);
      LosesMore(b, steps, step, n, t);
    }
    LosesMore(b, steps, step, |steps|, t);
  }

  lemma {:induction false} LosesWithin(b: Books, steps: seq<Step>, n: nat, t: Target)
    requires LosesForGood(b, steps, n, t)
    ensures n < |steps|
  {
  }

  /** After a final close exactly what is out of reach is open: so nothing is open exactly if every transport that a
      connect forgot was regained later. */
  lemma {:induction false} FinalClose(b: Books, steps: seq<Step>)
    requires b.Lost() == {} && steps != [] && steps[|steps| - 1] == Close
    ensures After(b, steps).open == {} <==> forall n: nat, t :: !LosesForGood(b, steps, n, t)
  {
    hide Next, LosesForGood, StaysLost;
    CloseLoses(After(b, steps[..|steps| - 1]));
    var end := After(b, steps);
    if end.open == {} {
      forall n: nat, t ensures !LosesForGood(b, steps, n, t) { LostIs(b, steps, t); }
    } else {
      var t :| t in end.open;
      LostIs(b, steps, t);
    }
  }

  ghost function BooksOf(host: SystemHost): Books
    reads host
  {
    Books(host.executors, host.paths, Listed(host.connectedProviders), host.connected, host.open)
  }

  /** Any steps in any order, uses of providers that are gone included, keep a host to these books; and on a host that
      starts with nothing out of reach, a final close leaves something open exactly if a connect forgot it for good. */
  method RunAny(host: SystemHost, steps: seq<Step>, raising: set<Target>)
    requires host.Valid()
    modifies host
    ensures host.Valid() && ClosedOnce(host.log)
    ensures BooksOf(host) == After(old(BooksOf(host)), steps)
    ensures steps != [] && steps[|steps| - 1] == Close && old(BooksOf(host).Lost()) == {} ==>
      (host.open == {} <==> forall n: nat, t :: !LosesForGood(old(BooksOf(host)), steps, n, t))
  {
    hide Next, LosesForGood, ClosedOnce, Books.Lost;
    ghost var start := BooksOf(host);
    for i := 0 to |steps|
      invariant host.Valid() && BooksOf(host) == After(start, steps[..i])
    {
      assert steps[..i + 1][..i] == steps[..i];
      TakeAny(host, steps[i], raising);
    }
    assert steps[..|steps|] == steps;
    if steps != [] && steps[|steps| - 1] == Close && start.Lost() == {} { FinalClose(start, steps); }
    ValidMeansOnce(host);
  }

  lemma {:induction false} ValidMeansOnce(host: SystemHost)
    requires host.Valid()
    ensures ClosedOnce(host.log)
  {
  }

  method TakeAny(host: SystemHost, step: Step, raising: set<Target>)
    requires host.Valid()
    modifies host
    ensures host.Valid() && BooksOf(host) == Next(old(BooksOf(host)), step)
  {
    hide SystemHost.Valid, SystemHost.InPlace, SystemHost.Covered, Distinct, OnlyCloses, Remaining, ClosedOnce, NoneConnects, TargetsOf, Chosen;
    match step {
      case Use(p, declines) =>
        var _ := host.EnsureProviderConnected(p, declines);
      case Connect(e, p) =>
        if Fits(step, host.executors, host.paths) { var _ := host.Connect(e, p); }
      case Replace(executor, path) =>
        ghost var before, formerly := host.connectedProviders, host.Current();
        var _ := host.ReplaceProviders(executor, path, raising);
        RemainingListed(before, host.connectedProviders, formerly, host.Current());
      case Close =>
        TargetsAppend(host.connectedProviders, host.Current());
        SameTransports(host.connectedProviders);
        var _ := host.Close(raising);
    }
  }

  lemma {:induction false} RemainingListed(before: seq<Provider>, after: seq<Provider>, formerly: seq<Provider>, now: seq<Provider>)
    requires Remaining(before, after, formerly, now)
    ensures Listed(after) == set q | q in Listed(before) && (q in formerly ==> q in now)
  {
  }

  /** A provider selected before a replacement and connected after it is out of place, and the next connect forgets
      it: its transport then stays open through a close. */
  method LateConnectLeaks() returns (host: SystemHost)
    ensures host.Valid() && host.open == {1}
  {
    hide SystemHost.Valid, SystemHost.InPlace, SystemHost.Covered, Distinct, OnlyCloses, Remaining, ClosedOnce;
    var early, later := Provider(1, 1), Provider(2, 2);
    host := new SystemHost([early], []);
    assert host.connectedProviders == [];
    var _ := host.ReplaceProviders(Some([later]), None, {});
    assert host.open == {} && host.connectedProviders == [];
    var _ := host.EnsureProviderConnected(early, false);
    assert host.open == {1};
    OnlyOne(later);
    var _ := host.Connect([Attempt(later, false)], []);
    assert host.connectedProviders == [later];
    assert host.open == {1, 2};
    var _ := host.Close({});
  }

  /** One provider in both sets: a connect lists it twice. */
  method SharedIsListedTwice() returns (host: SystemHost)
    ensures host.Valid() && host.connectedProviders == [Provider(1, 1), Provider(1, 1)]
    ensures !Distinct(host.connectedProviders)
  {
    hide SystemHost.Valid, Distinct, ClosedOnce;
    var q := Provider(1, 1);
    host := new SystemHost([q], [q]);
    SharedChosenTwice(q);
    var _ := host.Connect([Attempt(q, false)], [Attempt(q, false)]);
  }

  lemma {:induction false} OnlyOne(p: Provider)
    ensures Chosen([Attempt(p, false)]) + Chosen([]) == [p] && TargetsOf([p]) == {p.target}
    ensures TargetsOf([p] + ([p] + [])) == {p.target}
  {
  }
}
