/** Which installed distributions a bundle carries: a worklist over requirements that may be cyclic, where a
    distribution reached with other extras is another node. */
module Closure {
  import opened Options

  /** A requirement's marker, in the target's environment, as a function of the extra it is asked for. */
  datatype Requirement = Requirement(name: string, extras: seq<string>, marker: Option<string -> bool>)

  datatype Distribution = Distribution(id: nat, requirements: seq<Requirement>)

  /** The installed distributions, by the name the index knows them by. */
  type Index = map<string, Distribution>

  datatype Node = Node(key: string, wanted: seq<string>)

  function Plain(c: char): char {
    if c == '_' || c == '.' then '-' else if 'A' <= c <= 'Z' then c - 'A' + 'a' else c
  }

  /** The program's normal form of a name. */
  function Canonical(name: string): string { seq(|name|, i requires 0 <= i < |name| => Plain(name[i])) }

  /** The index's own normal form (PEP 503) also folds runs of separators into one. */
  function Folded(name: string): string {
    if name == [] then []
    else if |name| > 1 && name[0] == '-' && name[1] == '-' then Folded(name[1..])
    else [name[0]] + Folded(name[1..])
  }

  function Find(index: Index, name: string): Option<Distribution> {
    var known := Folded(Canonical(name));
    if known in index then Some(index[known]) else None
  }

  lemma {:induction false} CanonicalTwice(name: string)
    ensures Canonical(Canonical(name)) == Canonical(name)
  {
  }

  const UPPER := "ABCDEFGHIJKLMNOPQRSTUVWXYZ"
  const LOWER := "abcdefghijklmnopqrstuvwxyz"

  predicate Separator(c: char) { c == '-' || c == '_' || c == '.' }

  /** The character is the `k`-th letter, of either case. */
  predicate IsLetter(c: char, k: nat) { k < 26 && (c == UPPER[k] || c == LOWER[k]) }

  predicate OneLetter(a: char, b: char) { exists k :: 0 <= k < 26 && IsLetter(a, k) && IsLetter(b, k) }

  predicate SameChar(a: char, b: char) { a == b || (Separator(a) && Separator(b)) || OneLetter(a, b) }

  /** The two differ in case and in their separators only. */
  predicate SameName(a: string, b: string) { |a| == |b| && forall i :: 0 <= i < |a| ==> SameChar(a[i], b[i]) }

  lemma {:induction false} LetterAt(k: nat)
    requires k < 26
    ensures UPPER[k] == 'A' + k as char && LOWER[k] == 'a' + k as char
  {
  }

  lemma {:induction false} PlainLetter(c: char, k: nat)
    requires k < 26
    ensures IsLetter(c, k) ==> Plain(c) == 'a' + k as char
  {
    LetterAt(k);
  }

  lemma {:induction false} PlainSplits(a: char, b: char) returns (k: nat)
    requires Plain(a) == Plain(b) && a != b && !(Separator(a) && Separator(b))
    ensures k < 26
    ensures (a == 'A' + k as char && b == 'a' + k as char) || (b == 'A' + k as char && a == 'a' + k as char)
  {
    var upper := if 'A' <= a <= 'Z' then a else b;
    k := upper as int - 'A' as int;
  }

  lemma {:induction false} LettersAreOne(a: char, b: char)
    ensures Plain(a) == Plain(b) ==> SameChar(a, b)
  {
    if Plain(a) == Plain(b) && a != b && !(Separator(a) && Separator(b)) {
      var k := PlainSplits(a, b);
      LetterAt(k);
      assert IsLetter(a, k) && IsLetter(b, k);
    }
  }

  lemma {:induction false} OneLetterIs(a: char, b: char)
    requires OneLetter(a, b)
    ensures Plain(a) == Plain(b)
  {
    hide IsLetter, Plain;
    var k :| 0 <= k < 26 && IsLetter(a, k) && IsLetter(b, k);
    PlainLetter(a, k);
    PlainLetter(b, k);
  }

  lemma {:induction false} SameCharIs(a: char, b: char)
    ensures Plain(a) == Plain(b) <==> SameChar(a, b)
  {
    hide OneLetter;
    LettersAreOne(a, b);
    if OneLetter(a, b) { OneLetterIs(a, b); }
  }

  /** Exactly the names that differ in case and separators only have one normal form. */
  lemma {:induction false} CanonicalIsOne(a: string, b: string)
    ensures Canonical(a) == Canonical(b) <==> SameName(a, b)
  {
    hide Plain, SameChar;
    forall i | 0 <= i < |a| && i < |b| ensures Plain(a[i]) == Plain(b[i]) <==> SameChar(a[i], b[i]) { SameCharIs(a[i], b[i]); }
    if Canonical(a) == Canonical(b) {
      assert |Canonical(a)| == |a| && |Canonical(b)| == |b|;
      forall i | 0 <= i < |a| ensures Plain(a[i]) == Plain(b[i]) {
        assert Canonical(a)[i] == Plain(a[i]) && Canonical(b)[i] == Plain(b[i]);
      }
    }
  }

  /** And of these it is the one in lower case with hyphens. */
  lemma {:induction false} CanonicalIsPlain(name: string)
    ensures SameName(name, Canonical(name))
    ensures forall i :: 0 <= i < |name| ==> var c := Canonical(name)[i]; c != '_' && c != '.' && c !in UPPER
  {
    CanonicalTwice(name);
    CanonicalIsOne(name, Canonical(name));
    forall i | 0 <= i < |name| ensures Canonical(name)[i] !in UPPER { NotUpper(name[i]); }
  }

  lemma {:induction false} NotUpper(c: char)
    ensures Plain(c) !in UPPER
  {
    if Plain(c) in UPPER {
      var k :| 0 <= k < |UPPER| && UPPER[k] == Plain(c);
      LetterAt(k);
      assert false;
    }
  }

  predicate NoRuns(name: string) { forall i :: 0 <= i < |name| - 1 ==> !(name[i] == '-' && name[i + 1] == '-') }

  /** Folding takes one hyphen of two neighbours away, and nothing where there are none. */
  lemma {:induction false} FoldedTakesRuns(a: string, b: string)
    ensures Folded(a + "-" + "-" + b) == Folded(a + "-" + b)
    ensures NoRuns(a) ==> Folded(a) == a
    decreases |a|
  {
    if a == "" {
      assert a + "-" + "-" + b == "--" + b && a + "-" + b == "-" + b;
      assert ("--" + b)[1..] == "-" + b;
    } else {
      FoldedTakesRuns(a[1..], b);
      var two, one := a + "-" + "-" + b, a + "-" + b;
      assert two[1..] == a[1..] + "-" + "-" + b && one[1..] == a[1..] + "-" + b;
      assert two[1] == one[1];
      if NoRuns(a) { TailHasNoRuns(a); }
    }
  }

  lemma {:induction false} TailHasNoRuns(a: string)
    requires NoRuns(a) && a != ""
    ensures NoRuns(a[1..])
  {
    forall i | 0 <= i < |a[1..]| - 1 ensures !(a[1..][i] == '-' && a[1..][i + 1] == '-') {
      assert a[1..][i] == a[i + 1] && a[1..][i + 1] == a[i + 2];
    }
  }

  const NEVER_BUNDLE := {"pip", "setuptools", "wheel", "pkg-resources"}

  /** A marker holds for one of the wanted extras or for none. */
  predicate Active(r: Requirement, wanted: seq<string>) {
    r.marker.Some? ==> r.marker.value("") || exists e :: e in wanted && r.marker.value(e)
  }

  /** A name as it was written, with the extras asked for. */
  datatype Request = Request(name: string, wanted: seq<string>)

  function NodeOf(r: Request): Node { Node(Canonical(r.name), r.wanted) }

  function Target(r: Requirement): Node { NodeOf(Request(r.name, r.extras)) }

  // ---------------------------------------------------------------------------------- what should be found

  /** A node that is installed and may be bundled; only such a node's requirements are followed. */
  predicate Expands(index: Index, n: Node) { n.key !in NEVER_BUNDLE && Find(index, n.key).Some? }

  predicate Asks(requirements: seq<Requirement>, wanted: seq<string>, m: Node) {
    exists i :: 0 <= i < |requirements| && Active(requirements[i], wanted) && Target(requirements[i]) == m
  }

  predicate Edge(index: Index, n: Node, m: Node) {
    Expands(index, n) &&
    Asks(Find(index, n.key).value.requirements, n.wanted, m)
  }

  /** A requirement that holds for one extra alone. */
  ghost predicate GatedBy(r: Requirement, extra: string) {
    extra != "" && r.marker.Some? && forall e :: r.marker.value(e) <==> e == extra
  }

  /** A requirement of the environment, whatever the extra. */
  ghost predicate Ungated(r: Requirement, holds: bool) {
    r.marker.Some? && forall e :: r.marker.value(e) == holds
  }

  /** A requirement gated by an extra is followed exactly from a node reached with that extra; any other exactly when
      it has no marker or its marker holds in the environment. */
  lemma {:induction false} GatedIsFollowed(index: Index, n: Node, i: nat, extra: string)
    requires Expands(index, n) && i < |Find(index, n.key).value.requirements|
    ensures var r := Find(index, n.key).value.requirements[i];
            (GatedBy(r, extra) ==> (Active(r, n.wanted) <==> extra in n.wanted))
            && (r.marker.None? || Ungated(r, true) ==> Active(r, n.wanted)) && (Ungated(r, false) ==> !Active(r, n.wanted))
            && (Active(r, n.wanted) ==> Edge(index, n, Target(r)))
            && (OnlyFor(Find(index, n.key).value.requirements, i) ==> (Edge(index, n, Target(r)) ==> Active(r, n.wanted)))
  {
    hide Find;
    var all := Find(index, n.key).value.requirements;
    var r := all[i];
    if GatedBy(r, extra) && extra in n.wanted { assert r.marker.value(extra); }
    if GatedBy(r, extra) { assert !r.marker.value(""); }
    if Active(r, n.wanted) { assert Asks(all, n.wanted, Target(r)); }
  }

  /** No other of these requirements asks for the same node. */
  predicate OnlyFor(requirements: seq<Requirement>, i: nat)
    requires i < |requirements|
  {
    forall j :: 0 <= j < |requirements| && Target(requirements[j]) == Target(requirements[i]) ==> j == i
  }

  predicate IsPath(index: Index, path: seq<Node>) {
    forall i :: 0 < i < |path| ==> Edge(index, path[i - 1], path[i])
  }

  ghost predicate Reachable(index: Index, root: Node, n: Node) {
    exists path: seq<Node> :: path != [] && path[0] == root && path[|path| - 1] == n && IsPath(index, path)
  }

  lemma {:induction false} ReachRoot(index: Index, root: Node)
    ensures Reachable(index, root, root)
  {
    var path := [root];
    assert path[0] == root && path[|path| - 1] == root && IsPath(index, path);
  }

  lemma {:induction false} ReachNext(index: Index, root: Node, n: Node, m: Node)
    requires Reachable(index, root, n) && Edge(index, n, m)
    ensures Reachable(index, root, m)
  {
    hide Edge;
    var path :| path != [] && path[0] == root && path[|path| - 1] == n && IsPath(index, path);
    var longer := path + [m];
    assert longer[0] == root && longer[|longer| - 1] == m;
    assert IsPath(index, longer);
  }

  /** A set with the root in it that is closed under the edges. */
  ghost predicate Closed(index: Index, root: Node, nodes: iset<Node>) {
    root in nodes && forall n, m :: n in nodes && Edge(index, n, m) ==> m in nodes
  }

  /** The reachable nodes are the least such set. */
  lemma {:induction false} ReachableIsLeast(index: Index, root: Node, nodes: iset<Node>, n: Node)
    requires Closed(index, root, nodes) && Reachable(index, root, n)
    ensures n in nodes
  {
    hide Edge;
    var path :| path != [] && path[0] == root && path[|path| - 1] == n && IsPath(index, path);
    PathStays(index, root, nodes, path);
  }

  lemma {:induction false} PathStays(index: Index, root: Node, nodes: iset<Node>, path: seq<Node>)
    requires Closed(index, root, nodes) && path != [] && path[0] == root && IsPath(index, path)
    ensures path[|path| - 1] in nodes
    decreases |path|
  {
    hide Edge;
    var n := |path| - 1;
    if n > 0 {
      assert IsPath(index, path[..n]);
      PathStays(index, root, nodes, path[..n]);
      assert path[..n][n - 1] == path[n - 1];
    }
  }

  lemma {:induction false} ReachableIsClosed(index: Index, root: Node)
    ensures Closed(index, root, iset n | Reachable(index, root, n))
  {
    hide Edge, Reachable;
    ReachRoot(index, root);
    forall n, m | Reachable(index, root, n) && Edge(index, n, m) ensures Reachable(index, root, m) {
      ReachNext(index, root, n, m);
    }
  }

  // --------------------------------------------------------------------------------------- the worklist

  /** Every node that can ever be pending. */
  ghost function Universe(index: Index, root: Node): set<Node> {
    {root} + set k, i | k in index && 0 <= i < |index[k].requirements| :: Target(index[k].requirements[i])
  }

  ghost predicate Bounded(index: Index, root: Node, pending: seq<Node>) {
    forall i :: 0 <= i < |pending| ==> pending[i] in Universe(index, root) && Reachable(index, root, pending[i])
  }

  ghost predicate AllReachable(index: Index, root: Node, nodes: set<Node>) {
    forall n :: n in nodes ==> Reachable(index, root, n)
  }

  /** Already handled, waiting to be, or never to be. */
  predicate Known(seen: set<Node>, pending: seq<Node>, n: Node) {
    n in seen || n in pending || n.key in NEVER_BUNDLE
  }

  ghost predicate Followed(index: Index, seen: set<Node>, pending: seq<Node>) {
    forall n, m :: n in seen && Edge(index, n, m) ==> Known(seen, pending, m)
  }

  ghost predicate FoundIs(index: Index, seen: set<Node>, found: map<string, Distribution>) {
    && (forall n :: n in seen && Expands(index, n) ==> n.key in found)
    && (forall k :: k in found ==> k !in NEVER_BUNDLE && Find(index, k) == Some(found[k])
                                   && exists w :: Node(k, w) in seen)
  }

  ghost function NodesOf(pending: seq<Request>): seq<Node> {
    seq(|pending|, i requires 0 <= i < |pending| => NodeOf(pending[i]))
  }

  lemma {:induction false} NodesMore(pending: seq<Request>, r: Request)
    ensures NodesOf(pending + [r]) == NodesOf(pending) + [NodeOf(r)]
  {
  }

  method Evaluate(r: Requirement, wanted: seq<string>) returns (active: bool)
    ensures active == Active(r, wanted)
  {
    if r.marker.None? { return true; }
    for i := 0 to |wanted|
      invariant forall j :: 0 <= j < i ==> !r.marker.value(wanted[j])
    {
      if r.marker.value(wanted[i]) { return true; }
    }
    return r.marker.value("");
  }

  ghost predicate EdgesPushed(requirements: seq<Requirement>, wanted: seq<string>, pending: seq<Node>) {
    forall m :: Asks(requirements, wanted, m) ==> m in pending
  }

  lemma {:induction false} NothingPushed(wanted: seq<string>, pending: seq<Node>)
    ensures EdgesPushed([], wanted, pending)
  {
  }

  lemma {:induction false} AsksMore(requirements: seq<Requirement>, i: nat, wanted: seq<string>, m: Node)
    requires i < |requirements|
    ensures Asks(requirements[..i + 1], wanted, m)
            <==> Asks(requirements[..i], wanted, m) || (Active(requirements[i], wanted) && Target(requirements[i]) == m)
  {
    hide Active;
    var more := requirements[..i + 1];
    assert more[i] == requirements[i] && forall j :: 0 <= j < i ==> more[j] == requirements[..i][j];
  }

  /** One distribution's requirements, pushed in order. */
  method Push(index: Index, ghost root: Node, n: Node, dist: Distribution, before: seq<Request>) returns (pending: seq<Request>)
    requires Expands(index, n) && Find(index, n.key) == Some(dist)
    requires Reachable(index, root, n) && Bounded(index, root, NodesOf(before))
    ensures Bounded(index, root, NodesOf(pending))
    ensures forall m :: m in NodesOf(before) || Edge(index, n, m) ==> m in NodesOf(pending)
  {
    hide Reachable, Universe, Active, NodeOf, NodesOf, Asks, Find;
    pending := before;
    NothingPushed(n.wanted, NodesOf(pending));
    assert dist.requirements[..0] == [];
    for i := 0 to |dist.requirements|
      invariant Bounded(index, root, NodesOf(pending))
      invariant forall m :: m in NodesOf(before) ==> m in NodesOf(pending)
      invariant EdgesPushed(dist.requirements[..i], n.wanted, NodesOf(pending))
    {
      var r := dist.requirements[i];
      forall m { AsksMore(dist.requirements, i, n.wanted, m); }
      var active := Evaluate(r, n.wanted);
      if active {
        TargetBounded(index, root, n, i);
        NodesMore(pending, Request(r.name, r.extras));
        pending := pending + [Request(r.name, r.extras)];
      }
    }
    assert dist.requirements[..|dist.requirements|] == dist.requirements;
  }

  lemma {:induction false} TargetBounded(index: Index, root: Node, n: Node, i: nat)
    requires Expands(index, n)
    requires i < |Find(index, n.key).value.requirements|
    requires Active(Find(index, n.key).value.requirements[i], n.wanted) && Reachable(index, root, n)
    ensures var r := Find(index, n.key).value.requirements[i];
            Target(r) in Universe(index, root) && Reachable(index, root, Target(r))
  {
    hide Reachable, Active;
    var r := Find(index, n.key).value.requirements[i];
    assert Edge(index, n, Target(r));
    ReachNext(index, root, n, Target(r));
  }

  /** What the loop has established between two rounds. */
  ghost predicate Progress(index: Index, root: Node, seen: set<Node>, pending: seq<Node>, found: map<string, Distribution>) {
    && Bounded(index, root, pending) && seen <= Universe(index, root) && AllReachable(index, root, seen)
    && Known(seen, pending, root) && Followed(index, seen, pending) && FoundIs(index, seen, found)
  }

  /** A pending node that needs nothing more. */
  lemma {:induction false} Dropped(index: Index, root: Node, seen: set<Node>, pending: seq<Node>, n: Node, found: map<string, Distribution>)
    requires Progress(index, root, seen, pending + [n], found) && (n in seen || n.key in NEVER_BUNDLE)
    ensures Progress(index, root, seen, pending, found)
  {
    hide Universe, Reachable, Edge, FoundIs, AllReachable;
    Shorter(index, root, pending, n);
    forall m ensures Known(seen, pending + [n], m) ==> Known(seen, pending, m) {}
  }

  lemma {:induction false} Shorter(index: Index, root: Node, pending: seq<Node>, n: Node)
    requires Bounded(index, root, pending + [n])
    ensures Bounded(index, root, pending) && n in Universe(index, root) && Reachable(index, root, n)
  {
    hide Universe, Reachable;
    assert (pending + [n])[|pending|] == n;
    forall i | 0 <= i < |pending| ensures pending[i] in Universe(index, root) && Reachable(index, root, pending[i]) {
      assert (pending + [n])[i] == pending[i];
    }
  }

  /** A node that is handled now: its edges are pushed and its distribution is recorded. */
  lemma {:induction false} Handled(index: Index, root: Node, seen: set<Node>, before: seq<Node>, n: Node, pending: seq<Node>, found: map<string, Distribution>)
    requires Progress(index, root, seen, before + [n], found) && n.key !in NEVER_BUNDLE
    requires Bounded(index, root, pending)
    requires forall m :: m in before || Edge(index, n, m) ==> m in pending
    ensures var dist := Find(index, n.key);
            Progress(index, root, seen + {n}, pending,
                     if dist.None? || n.key in found then found else found[n.key := dist.value])
  {
    hide Universe, Reachable, Edge, Find;
    Shorter(index, root, before, n);
    assert AllReachable(index, root, seen + {n});
    forall m ensures Known(seen, before + [n], m) ==> Known(seen + {n}, pending, m) {}
    Recorded(index, seen, n, found);
  }

  lemma {:induction false} Recorded(index: Index, seen: set<Node>, n: Node, found: map<string, Distribution>)
    requires FoundIs(index, seen, found) && n.key !in NEVER_BUNDLE
    ensures var dist := Find(index, n.key);
            FoundIs(index, seen + {n}, if dist.None? || n.key in found then found else found[n.key := dist.value])
  {
    hide Find;
    var dist := Find(index, n.key);
    var more := if dist.None? || n.key in found then found else found[n.key := dist.value];
    forall k | k in more
      ensures k !in NEVER_BUNDLE && Find(index, k) == Some(more[k]) && exists w :: Node(k, w) in seen + {n}
    {
      if k in found {
        var w :| Node(k, w) in seen;
        assert Node(k, w) in seen + {n};
      } else {
        assert Node(k, n.wanted) in seen + {n};
      }
    }
  }

  /** The keys a bundle should have: installed, bundled, and reachable with some extras. */
  ghost predicate InClosure(index: Index, root: Node, key: string) {
    key !in NEVER_BUNDLE && Find(index, key).Some? && exists wanted :: Reachable(index, root, Node(key, wanted))
  }

  /** The program's worklist, last in first out. */
  method Requirements(index: Index, root: string, extras: seq<string>) returns (found: map<string, Distribution>)
    ensures forall key :: key in found <==> InClosure(index, Node(Canonical(root), extras), key)
    ensures forall key :: key in found ==> Find(index, key) == Some(found[key])
  {
    hide Universe, Reachable, Edge, Find, Canonical, Progress;
    ghost var start := NodeOf(Request(root, extras));
    found := map[];
    var pending := [Request(root, extras)];
    var seen: set<Node> := {};
    Started(index, start);
    assert NodesOf(pending) == [start];
    while pending != []
      invariant Progress(index, start, seen, NodesOf(pending), found)
      decreases |Universe(index, start) - seen|, |pending|
    {
      var last := pending[|pending| - 1];
      var rest := pending[..|pending| - 1];
      var n := NodeOf(last);
      assert pending == rest + [last];
      NodesMore(rest, last);
      ghost var found0 := found;
      if n in seen || n.key in NEVER_BUNDLE {
        Dropped(index, start, seen, NodesOf(rest), n, found);
        pending := rest;
        continue;
      }
      Fresh(index, start, seen, NodesOf(rest), n, found);
      CanonicalFind(index, last.name);
      var dist := Find(index, last.name);
      if dist.None? {
        NoEdges(index, n);
        pending := rest;
      } else {
        pending := Push(index, start, n, dist.value, rest);
        if n.key !in found { found := found[n.key := dist.value]; }
      }
      Handled(index, start, seen, NodesOf(rest), n, NodesOf(pending), found0);
      seen := seen + {n};
    }
    assert NodesOf(pending) == [];
    Complete(index, start, seen, found);
  }

  lemma {:induction false} NoEdges(index: Index, n: Node)
    requires Find(index, n.key).None?
    ensures forall m :: !Edge(index, n, m)
  {
  }

  lemma {:induction false} Started(index: Index, root: Node)
    ensures Progress(index, root, {}, [root], map[])
  {
    hide Reachable, Edge;
    ReachRoot(index, root);
  }

  lemma {:induction false} CanonicalFind(index: Index, name: string)
    ensures Find(index, name) == Find(index, Canonical(name))
  {
    CanonicalTwice(name);
  }

  lemma {:induction false} Fresh(index: Index, root: Node, seen: set<Node>, rest: seq<Node>, n: Node, found: map<string, Distribution>)
    requires Progress(index, root, seen, rest + [n], found) && n !in seen
    ensures Bounded(index, root, rest) && Reachable(index, root, n)
    ensures |Universe(index, root) - (seen + {n})| < |Universe(index, root) - seen|
  {
    hide Universe, Reachable, Edge;
    Shorter(index, root, rest, n);
    assert Universe(index, root) - seen == (Universe(index, root) - (seen + {n})) + {n};
  }

  /** With nothing pending, what was seen is closed, so it has everything reachable. */
  lemma {:induction false} Complete(index: Index, root: Node, seen: set<Node>, found: map<string, Distribution>)
    requires Progress(index, root, seen, [], found)
    ensures forall key :: key in found <==> InClosure(index, root, key)
    ensures forall key :: key in found ==> Find(index, key) == Some(found[key])
  {
    hide Reachable, Find, Universe;
    var nodes := iset n | n in seen || n.key in NEVER_BUNDLE;
    SeenIsClosed(index, root, seen, nodes);
    forall key | key in found ensures InClosure(index, root, key) {
      var w :| Node(key, w) in seen;
      assert Reachable(index, root, Node(key, w));
    }
    forall key | InClosure(index, root, key) ensures key in found {
      var w :| Reachable(index, root, Node(key, w));
      ReachableIsLeast(index, root, nodes, Node(key, w));
      assert Expands(index, Node(key, w));
    }
  }

  lemma {:induction false} SeenIsClosed(index: Index, root: Node, seen: set<Node>, nodes: iset<Node>)
    requires Known(seen, [], root) && Followed(index, seen, [])
    requires nodes == iset n | n in seen || n.key in NEVER_BUNDLE
    ensures Closed(index, root, nodes)
  {
    hide Asks, Find;
    forall n, m | n in nodes && Edge(index, n, m) ensures m in nodes {
      assert Known(seen, [], m);
    }
  }

  /** What the target lacks: the closure without what it has and what is never to be shipped. */
  method MissingOn(installed: seq<string>, index: Index, root: string, extras: seq<string>, skip: seq<string>)
    returns (missing: map<string, Distribution>)
    ensures forall key :: key in missing <==>
      InClosure(index, Node(Canonical(root), extras), key) && forall name :: name in installed + skip ==> Canonical(name) != key
    ensures forall key :: key in missing ==> Find(index, key) == Some(missing[key])
  {
    hide InClosure, Find, Canonical;
    var have := set name | name in installed :: Canonical(name);
    have := have + set name | name in skip :: Canonical(name);
    var found := Requirements(index, root, extras);
    missing := map key | key in found && key !in have :: found[key];
  }
}
