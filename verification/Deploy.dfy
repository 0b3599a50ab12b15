/** Installing a directory tree by two renames, so that an interruption at any moment leaves the last good
    tree or the new one, and the next run can tell which. */
module Deploy {
  import opened Chars
  import opened Options

  const DIGEST_NAME := ".digest"

  type Files = map<string, string>

  /** What a path names: nothing, a directory with the files below it, or something else. */
  datatype Node = Absent | Tree(files: Files) | Other

  /** The staging file: none, a complete payload (given by what it extracts to), or a torn one. */
  datatype Blob = NoFile | Payload(files: Files) | Torn

  /** The four paths a deploy touches: the target and its `.new`, `.old` and `.incoming.tar` siblings. */
  datatype Disk = Disk(target: Node, incoming: Node, previous: Node, staging: Blob)

  datatype Place = Target | Incoming | Previous

  /** How one step on the target ends. `Fails` may have done part of its work: for a removal `keep` are the
      files still there, for an extraction those already there, and `junk` is whatever a half-done write
      left. `Lost` did all of its work, but the answer never arrived. Only `Works` returns normally. */
  datatype Fault = Works | Fails(touched: bool, keep: set<string>, junk: Files) | Lost

  datatype Outcome = Wrote | Current | Refused | Crashed

  function At(disk: Disk, place: Place): Node {
    match place case Target => disk.target case Incoming => disk.incoming case Previous => disk.previous
  }

  function Put(disk: Disk, place: Place, node: Node): Disk {
    match place
    case Target => disk.(target := node)
    case Incoming => disk.(incoming := node)
    case Previous => disk.(previous := node)
  }

  predicate Marked(node: Node) { node.Tree? && DIGEST_NAME in node.files }

  // ------------------------------------------------------------------------------------ the marker

  function StripLeft(text: string): string {
    if text != "" && IsSpace(text[0]) then StripLeft(text[1..]) else text
  }

  function StripRight(text: string): string {
    if text != "" && IsSpace(text[|text| - 1]) then StripRight(text[..|text| - 1]) else text
  }

  function Strip(text: string): string { StripRight(StripLeft(text)) }

  /** A SHA-256 digest in hexadecimal. */
  predicate IsDigest(text: string) {
    |text| == 64 && forall i :: 0 <= i < |text| ==> '0' <= text[i] <= '9' || 'a' <= text[i] <= 'f'
  }

  /** The marker a deploy writes is read back as its digest. */
  lemma {:induction false} MarkerReadsBack(digest: string)
    requires IsDigest(digest)
    ensures Strip(digest + "\n") == digest
  {
    assert (digest + "\n")[0] == digest[0];
    assert (digest + "\n")[..|digest|] == digest;
    assert StripRight(digest) == digest;
  }

  /** The tree that deploying this payload under this digest puts in place. */
  function Installed(payload: Files, digest: string): Node {
    Tree(payload[DIGEST_NAME := digest + "\n"])
  }

  /** A complete deployed tree: its marker names a digest, and its files are the extraction of the payload
      with that digest. `catalog` gives each digest's extraction: a digest identifies its payload. */
  ghost predicate Good(catalog: string -> Files, node: Node) {
    Marked(node) &&
    (var d := Strip(node.files[DIGEST_NAME]); IsDigest(d) && node == Installed(catalog(d), d))
  }

  /** A marker in the target, or in `.old` while the target is missing, tells the truth. */
  ghost predicate Sound(catalog: string -> Files, disk: Disk) {
    (Marked(disk.target) ==> Good(catalog, disk.target)) &&
    (disk.target == Absent && Marked(disk.previous) ==> Good(catalog, disk.previous))
  }

  /** The tree in service: the target, or `.old` while the target is missing. */
  function Live(disk: Disk): Node {
    if disk.target != Absent then disk.target else disk.previous
  }

  /** A complete marked tree is in service. So a partial `.old` can exist only beside a complete target. */
  ghost predicate Recoverable(catalog: string -> Files, disk: Disk) {
    Good(catalog, Live(disk))
  }

  lemma {:induction false} InstalledIsGood(catalog: string -> Files, payload: Files, digest: string)
    requires IsDigest(digest) && payload == catalog(digest)
    ensures Good(catalog, Installed(payload, digest))
  {
    MarkerReadsBack(digest);
  }

  // ----------------------------------------------------------------------- what one step does at worst

  function Kept(files: Files, keep: set<string>): Files {
    map name | name in files && name in keep :: files[name]
  }

  function AfterRemove(node: Node, fault: Fault): Node {
    match fault
    case Works => Absent
    case Lost => Absent
    case Fails(touched, keep, _) => if touched && node.Tree? then Tree(Kept(node.files, keep)) else node
  }

  /** The disk once a tree that an interrupted run left at `.old`, beside a missing target, is put back. */
  function AfterRestore(disk: Disk): Disk {
    if disk.target == Absent && Marked(disk.previous) then disk.(target := disk.previous, previous := Absent) else disk
  }

  /** A step that meets no fault works, and leaves none behind. */
  predicate Calm(before: seq<Fault>, after: seq<Fault>, ok: bool) {
    before == [] ==> after == [] && ok
  }

  /** The target machine: its disk, and the faults that its next steps meet (none when they run out). */
  class Machine {
    var disk: Disk
    var faults: seq<Fault>

    method NextFault() returns (fault: Fault)
      modifies this`faults
      ensures Calm(old(faults), faults, fault.Works?)
    {
      if faults == [] { return Works; }
      fault := faults[0];
      faults := faults[1..];
    }

    method Exists(place: Place) returns (ok: bool, found: bool)
      modifies this`faults
      ensures Calm(old(faults), faults, ok)
      ensures ok ==> found == (At(disk, place) != Absent)
    {
      var fault := NextFault();
      return fault.Works?, At(disk, place) != Absent;
    }

    method MarkerExists(place: Place) returns (ok: bool, found: bool)
      modifies this`faults
      ensures Calm(old(faults), faults, ok)
      ensures ok ==> found == Marked(At(disk, place))
    {
      var fault := NextFault();
      return fault.Works?, Marked(At(disk, place));
    }

    /** The digest a previous deploy recorded; an unreadable marker counts as none. */
    method CurrentDigest() returns (digest: Option<string>)
      modifies this`faults
      ensures Calm(old(faults), faults, true)
      ensures old(faults) == [] && Marked(disk.target) && Strip(disk.target.files[DIGEST_NAME]) != "" ==> digest.Some?
      ensures digest.Some? ==> Marked(disk.target) && digest.value == Strip(disk.target.files[DIGEST_NAME]) != ""
    {
      var ok, found := MarkerExists(Target);
      if !ok || !found { return None; }
      var fault := NextFault();
      if !fault.Works? { return None; }
      var text := Strip(disk.target.files[DIGEST_NAME]);
      return if text == "" then None else Some(text);
    }

    method Remove(place: Place) returns (ok: bool)
      modifies this
      ensures Calm(old(faults), faults, ok)
      ensures exists fault :: disk == Put(old(disk), place, AfterRemove(At(old(disk), place), fault)) && ok == fault.Works?
    {
      var fault := NextFault();
      disk := Put(disk, place, AfterRemove(At(disk, place), fault));
      ok := fault.Works?;
    }

    /** `mv` onto an existing directory would move into it, so the destination must not exist. */
    method Move(from: Place, to: Place) returns (ok: bool)
      requires At(disk, from) != Absent && At(disk, to) == Absent
      modifies this
      ensures Calm(old(faults), faults, ok)
      ensures var moved := Put(Put(old(disk), to, At(old(disk), from)), from, Absent);
              disk == moved || (!ok && disk == old(disk))
    {
      var fault := NextFault();
      if !fault.Fails? { disk := Put(Put(disk, to, At(disk, from)), from, Absent); }
      ok := fault.Works?;
    }

    method EnsureParent() returns (ok: bool)
      modifies this`faults
      ensures Calm(old(faults), faults, ok)
    {
      var fault := NextFault();
      ok := fault.Works?;
    }

    method WriteStaging(payload: Files) returns (ok: bool)
      modifies this
      ensures Calm(old(faults), faults, ok)
      ensures disk == old(disk).(staging := disk.staging)
      ensures ok ==> disk.staging == Payload(payload)
    {
      var fault := NextFault();
      if !fault.Fails? { disk := disk.(staging := Payload(payload)); }
      else if fault.touched { disk := disk.(staging := Torn); }
      ok := fault.Works?;
    }

    method MakeIncoming() returns (ok: bool)
      modifies this
      ensures Calm(old(faults), faults, ok)
      ensures disk == old(disk).(incoming := disk.incoming)
      ensures ok && old(disk.incoming) == Absent ==> disk.incoming == Tree(map[])
    {
      var fault := NextFault();
      if !fault.Fails? && disk.incoming == Absent { disk := disk.(incoming := Tree(map[])); }
      ok := fault.Works?;
    }

    /** Extract the staging file into `.new`, over whatever is there. */
    method Untar() returns (ok: bool)
      requires disk.incoming.Tree?
      modifies this
      ensures Calm(old(faults), faults, ok || !disk.staging.Payload?)
      ensures disk == old(disk).(incoming := disk.incoming) && disk.incoming.Tree?
      ensures ok ==> disk.staging.Payload? && disk.incoming == Tree(old(disk.incoming.files) + disk.staging.files)
    {
      var fault := NextFault();
      if disk.staging.Payload? && !fault.Fails? {
        disk := disk.(incoming := Tree(disk.incoming.files + disk.staging.files));
      } else if fault.Fails? && fault.touched {
        var part := if disk.staging.Payload? then Kept(disk.staging.files, fault.keep) else map[];
        disk := disk.(incoming := Tree(disk.incoming.files + part + fault.junk));
      }
      ok := fault.Works? && disk.staging.Payload?;
    }

    method WriteMarker(digest: string) returns (ok: bool)
      requires disk.incoming.Tree?
      modifies this
      ensures Calm(old(faults), faults, ok)
      ensures disk == old(disk).(incoming := disk.incoming)
      ensures ok ==> disk.incoming == Tree(old(disk.incoming.files)[DIGEST_NAME := digest + "\n"])
    {
      var fault := NextFault();
      if !fault.Fails? {
        disk := disk.(incoming := Tree(disk.incoming.files[DIGEST_NAME := digest + "\n"]));
      } else if fault.touched && DIGEST_NAME in fault.junk {
        disk := disk.(incoming := Tree(disk.incoming.files[DIGEST_NAME := fault.junk[DIGEST_NAME]]));
      }
      ok := fault.Works?;
    }

    /** The last step, one `rm` over both operands. */
    method RemoveLeftovers() returns (ok: bool)
      modifies this
      ensures Calm(old(faults), faults, ok)
      ensures disk == old(disk).(previous := disk.previous, staging := disk.staging)
      ensures ok ==> disk.previous == Absent && disk.staging == NoFile
    {
      var fault := NextFault();
      disk := disk.(previous := AfterRemove(disk.previous, fault),
                    staging := if fault.Fails? && !fault.touched then disk.staging else NoFile);
      ok := fault.Works?;
    }

    /** Put back the last good tree, when an interrupted run left it beside a missing target. */
    method Restore() returns (ok: bool)
      modifies this
      ensures Calm(old(faults), faults, ok)
      ensures disk == old(disk) || disk == AfterRestore(old(disk))
      ensures ok ==> disk == AfterRestore(old(disk))
    {
      var here, found := Exists(Target);
      if !here { return false; }
      if found { return true; }
      var there, marked := MarkerExists(Previous);
      if !there || !marked { return there; }
      ok := Move(Previous, Target);
    }

    /** Upload, unpack and mark the new tree beside the target. Nothing in service is touched. */
    method Prepare(payload: Files, digest: string) returns (ok: bool)
      modifies this
      ensures Calm(old(faults), faults, ok)
      ensures disk == old(disk).(incoming := disk.incoming, staging := disk.staging)
      ensures ok ==> disk.incoming == Installed(payload, digest)
    {
      ok := EnsureParent();
      if !ok { return; }
      ok := WriteStaging(payload);
      if !ok { return; }
      ok := Remove(Incoming);
      if !ok { return; }
      ok := MakeIncoming();
      if !ok { return; }
      ok := Untar();
      if !ok { return; }
      assert map[] + payload == payload;
      ok := WriteMarker(digest);
    }

    /** Replace the target by the prepared tree with two renames. */
    method Swap() returns (ok: bool)
      requires disk.incoming != Absent
      modifies this
      ensures Calm(old(faults), faults, ok)
      ensures disk.staging == old(disk.staging)
      ensures ok ==> disk.target == old(disk.incoming) && disk.incoming == Absent
      ensures SwapStage(old(disk), disk)
    {
      var here, found := Exists(Target);
      if !here { return false; }
      if found {
        ok := Remove(Previous);
        if !ok { return; }
        ok := Move(Target, Previous);
        if !ok { return; }
      }
      ok := Move(Incoming, Target);
    }

    /** Install a tree from a payload; say whether anything was written. */
    method InstallTree(payload: Files, digest: string, force: bool, ghost catalog: string -> Files)
      returns (outcome: Outcome)
      requires IsDigest(digest) && payload == catalog(digest)
      modifies this
      // Whatever goes wrong, a truthful disk stays truthful, and the tree in service is the old one or the new
      // one, whole.
      ensures Sound(catalog, old(disk)) ==> Sound(catalog, disk)
      ensures Recoverable(catalog, old(disk)) ==> Recoverable(catalog, disk)
      ensures old(Recoverable(catalog, disk)) ==> Live(disk) == Live(old(disk)) || Live(disk) == Installed(payload, digest)
      // Both ways of returning normally leave exactly this payload in place.
      ensures outcome == Wrote ==> disk == Disk(Installed(payload, digest), Absent, Absent, NoFile)
      ensures outcome == Current && Sound(catalog, old(disk)) ==> disk.target == Installed(payload, digest)
      ensures outcome == Current ==> !force && disk == AfterRestore(old(disk))
      // A target no deploy created is never changed, forced or not.
      ensures old(disk.target) != Absent && !Marked(old(disk.target)) ==>
                disk == old(disk) && (outcome == Refused || outcome == Crashed)
      ensures outcome == Refused ==> old(disk.target) != Absent && !Marked(old(disk.target))
      // A missing target is put back before anything else happens to the last good tree.
      ensures old(disk.target) == Absent && Marked(old(disk.previous)) ==>
                outcome != Refused && (disk == old(disk) || Restored(old(disk), disk, payload, digest))
      // A run that meets no fault completes; on a truthful disk that is not foreign it deploys, or has nothing to do
      // exactly when this digest is the one in service and it was not forced.
      ensures old(faults) == [] ==> outcome != Crashed
      ensures old(faults) == [] && Sound(catalog, old(disk)) && outcome != Refused ==>
                (outcome == Current <==> !force && Live(old(disk)) == Installed(payload, digest))
    {
      var ok := Restore();
      if !ok { return Crashed; }
      if !force {
        var current := CurrentDigest();
        if current == Some(digest) { return Current; }
      }
      var here, found := Exists(Target);
      if !here { return Crashed; }
      if found {
        var there, marked := MarkerExists(Target);
        if !there { return Crashed; }
        if !marked { return Refused; }
      }
      ghost var before := disk;
      InstalledIsGood(catalog, payload, digest);
      ok := Write(payload, digest);
      RestoreKeeps(catalog, old(disk));
      WriteKeeps(catalog, before, disk, payload, digest);
      return if ok then Wrote else Crashed;
    }

    /** Prepare the new tree, swap it in, and clean up. */
    method Write(payload: Files, digest: string) returns (ok: bool)
      modifies this
      ensures Calm(old(faults), faults, ok)
      ensures ok ==> disk == Disk(Installed(payload, digest), Absent, Absent, NoFile)
      ensures Written(old(disk), disk, payload, digest)
    {
      hide Installed;
      NotAbsent(payload, digest);
      ok := Prepare(payload, digest);
      if !ok { return; }
      ok := Swap();
      if !ok { return; }
      ok := RemoveLeftovers();
    }
  }

  lemma {:induction false} NotAbsent(payload: Files, digest: string)
    ensures Installed(payload, digest) != Absent
  {
  }

  /** Where an interrupted write can stand: the target as before (and `.old` too if there was no target), or the target at
      `.old`, or the new tree in place. */
  ghost predicate Written(before: Disk, after: Disk, payload: Files, digest: string) {
    (after.target == before.target && (before.target == Absent ==> after.previous == before.previous)) ||
    (before.target != Absent && after.target == Absent && after.previous == before.target) ||
    after.target == Installed(payload, digest)
  }

  lemma {:induction false} WriteKeeps(catalog: string -> Files, before: Disk, after: Disk, payload: Files, digest: string)
    requires Good(catalog, Installed(payload, digest)) && Written(before, after, payload, digest)
    requires before.target == Absent || Marked(before.target)
    ensures Sound(catalog, before) ==> Sound(catalog, after)
    ensures Recoverable(catalog, before) ==> Recoverable(catalog, after)
    ensures Marked(before.target) || Recoverable(catalog, before) ==>
              Live(after) == Live(before) || Live(after) == Installed(payload, digest)
  {
    hide Good;
  }

  lemma {:induction false} RestoreKeeps(catalog: string -> Files, disk: Disk)
    ensures Sound(catalog, disk) ==> Sound(catalog, AfterRestore(disk))
    ensures Recoverable(catalog, disk) ==> Recoverable(catalog, AfterRestore(disk))
    ensures Live(AfterRestore(disk)) == Live(disk)
  {
    hide Good;
  }

  /** Where an interrupted swap can stand: nothing happened yet (but `.old` may be partly gone, beside a present
      target), the old tree is at `.old`, or the new one is in place. */
  ghost predicate SwapStage(before: Disk, after: Disk) {
    (after.target == before.target && after.incoming == before.incoming
     && (before.target == Absent ==> after.previous == before.previous)) ||
    (before.target != Absent && after.target == Absent && after.previous == before.target
     && after.incoming == before.incoming) ||
    (after.target == before.incoming && after.incoming == Absent
     && after.previous == (if before.target == Absent then before.previous else before.target))
  }

  /** From a missing target with a marked `.old`: every later state has that tree, or the new one, in service. */
  ghost predicate Restored(before: Disk, after: Disk, payload: Files, digest: string) {
    Live(after) == before.previous || Live(after) == Installed(payload, digest)
  }

  /** One call of `install_tree`, and the faults its steps meet. */
  datatype Run = Run(payload: Files, digest: string, force: bool, faults: seq<Fault>)

  /** Any number of runs, each interrupted anywhere. The disk stays truthful; once one run has succeeded a
      complete marked tree is in service for ever after; and what is in service is always, whole, the tree that
      was there first or the one of some run. */
  method Deploys(machine: Machine, runs: seq<Run>, ghost catalog: string -> Files) returns (outcomes: seq<Outcome>)
    requires forall i :: 0 <= i < |runs| ==> IsDigest(runs[i].digest) && runs[i].payload == catalog(runs[i].digest)
    requires Sound(catalog, machine.disk)
    modifies machine
    ensures |outcomes| == |runs| && Sound(catalog, machine.disk)
    ensures Recoverable(catalog, old(machine.disk)) || Wrote in outcomes || Current in outcomes
            ==> Recoverable(catalog, machine.disk)
    ensures Recoverable(catalog, old(machine.disk)) ==>
              Live(machine.disk) == Live(old(machine.disk)) || FromSomeRun(runs, Live(machine.disk))
  {
    outcomes := [];
    for n := 0 to |runs|
      invariant |outcomes| == n && Sound(catalog, machine.disk)
      invariant Recoverable(catalog, old(machine.disk)) || Wrote in outcomes || Current in outcomes
                ==> Recoverable(catalog, machine.disk)
      invariant Recoverable(catalog, old(machine.disk)) ==>
                  Live(machine.disk) == Live(old(machine.disk)) || FromSomeRun(runs, Live(machine.disk))
    {
      hide Good, Sound, Installed;
      machine.faults := runs[n].faults;
      var outcome := machine.InstallTree(runs[n].payload, runs[n].digest, runs[n].force, catalog);
      InstalledIsGood(catalog, runs[n].payload, runs[n].digest);
      SucceededIsRecoverable(catalog, machine.disk, runs[n].payload, runs[n].digest);
      outcomes := outcomes + [outcome];
    }
  }

  ghost predicate FromSomeRun(runs: seq<Run>, node: Node) {
    exists i :: 0 <= i < |runs| && node == Installed(runs[i].payload, runs[i].digest)
  }

  lemma {:induction false} SucceededIsRecoverable(catalog: string -> Files, disk: Disk, payload: Files, digest: string)
    requires Good(catalog, Installed(payload, digest))
    ensures disk.target == Installed(payload, digest) ==> Recoverable(catalog, disk)
  {
  }
}
