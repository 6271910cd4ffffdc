/**
 * The crash-safe installer (scripts/install-shell-registration.py:27-64 and
 * 127-174): a manifest with the originals goes to disk first, then each target
 * is replaced; a failure undoes what was applied, and rollback puts the
 * originals back. Replacing, or removing, one file is one atomic effect; what
 * happens around each effect is a schedule.
 */
module Installer {
  import opened Options

  type Path = string
  type Content = string

  datatype Node = File(content: Content, mode: nat) | Link
  type Files = map<Path, Node>

  /** snapshot(): an absent file reads as an empty one that does not exist. */
  datatype Snapshot = Snapshot(exists_: bool, content: Content, mode: nat)

  /** 0o600 */
  const Private: nat := 384

  /** One target: what it was, and what is installed. The digest of the installed content stands for it. */
  datatype Change = Change(path: Path, original: Snapshot, installed: Content)

  datatype Phase = Prepared | Applied
  datatype Manifest = Manifest(phase: Phase, changes: seq<Change>)

  datatype Disk = Disk(files: Files, manifest: Option<Manifest>, receipt: Option<Manifest>)

  /**
   * Around one effect: it happens; it fails without effect; it happens and
   * then an interrupt is raised; or the process dies before it.
   */
  datatype Event = Go | Fail | Interrupted | Crash
  datatype Signal = Continue | Throw | Stop
  datatype End = Done | Refused | Raised | Dead

  function Head(schedule: seq<Event>): Event {
    if schedule == [] then Go else schedule[0]
  }

  function Tail(schedule: seq<Event>): seq<Event> {
    if schedule == [] then [] else schedule[1..]
  }

  function Happens(e: Event): Signal {
    match e
    case Go => Continue
    case Fail => Throw
    case Interrupted => Throw
    case Crash => Stop
  }

  function Effect(disk: Disk, after: Disk, e: Event): Disk {
    if e == Go || e == Interrupted then after else disk
  }

  /** None: a symbolic link, which snapshot refuses by raising. */
  function Snap(files: Files, path: Path): Option<Snapshot> {
    if path !in files then Some(Snapshot(false, "", Private))
    else match files[path]
      case Link => None
      case File(content, mode) => Some(Snapshot(true, content, mode))
  }

  function NodeOf(s: Snapshot): Option<Node> {
    if s.exists_ then Some(File(s.content, s.mode)) else None
  }

  function Installed(c: Change): Node {
    File(c.installed, Private)
  }

  function InstallOne(disk: Disk, c: Change): Disk {
    disk.(files := disk.files[c.path := Installed(c)])
  }

  function RestoreOne(disk: Disk, c: Change): Disk {
    disk.(files := Put(disk.files, c.path, NodeOf(c.original)))
  }

  // ------------------------------------------------------------------ apply

  /** How far the settings writes came. */
  datatype Progress = Progress(disk: Disk, applied: nat, signal: Signal, schedule: seq<Event>)

  function Install(disk: Disk, cs: seq<Change>, i: nat, schedule: seq<Event>): (p: Progress)
    requires i <= |cs|
    ensures i <= p.applied <= |cs|
    ensures p.signal == Continue ==> p.applied == |cs|
    decreases |cs| - i
  {
    if i == |cs| then Progress(disk, i, Continue, schedule)
    else if Snap(disk.files, cs[i].path) != Some(cs[i].original) then Progress(disk, i, Throw, schedule)
    else
      var e := Head(schedule);
      var after := Effect(disk, InstallOne(disk, cs[i]), e);
      if Happens(e) == Continue then Install(after, cs, i + 1, Tail(schedule))
      else Progress(after, i, Happens(e), Tail(schedule))
  }

  /** The except branch: undo the first n changes backwards, then drop the manifest. */
  function Recover(disk: Disk, cs: seq<Change>, n: nat, schedule: seq<Event>): (r: (Disk, End))
    requires n <= |cs|
    ensures r.1 == Raised || r.1 == Dead
    decreases n
  {
    var e := Head(schedule);
    if n == 0 then
      (Effect(disk, disk.(manifest := None), e), if Happens(e) == Stop then Dead else Raised)
    else
      var c := cs[n - 1];
      var now := Snap(disk.files, c.path);
      if now == None || now.value.content != c.installed then (disk, Raised)
      else
        var after := Effect(disk, RestoreOne(disk, c), e);
        if Happens(e) == Continue then Recover(after, cs, n - 1, Tail(schedule))
        else (after, if Happens(e) == Stop then Dead else Raised)
  }

  function SaveManifest(disk: Disk, phase: Phase, cs: seq<Change>): Disk {
    disk.(manifest := Some(Manifest(phase, cs)))
  }

  predicate Unchanged(files: Files, cs: seq<Change>) {
    forall i :: 0 <= i < |cs| ==> Snap(files, cs[i].path) == Some(cs[i].original)
  }

  function Finish(disk: Disk, cs: seq<Change>, schedule: seq<Event>): (Disk, End) {
    var e := Head(schedule);
    var after := Effect(disk, SaveManifest(disk, Applied, cs), e);
    match Happens(e)
    case Continue => (after, Done)
    case Throw => Recover(after, cs, |cs|, Tail(schedule))
    case Stop => (after, Dead)
  }

  function Apply(disk: Disk, cs: seq<Change>, schedule: seq<Event>): (Disk, End) {
    if disk.manifest.Some? || !Unchanged(disk.files, cs) then (disk, Refused) else
    var e := Head(schedule);
    var saved := Effect(disk, SaveManifest(disk, Prepared, cs), e);
    match Happens(e)
    case Throw => (saved, Raised)
    case Stop => (saved, Dead)
    case Continue =>
      var p := Install(saved, cs, 0, Tail(schedule));
      match p.signal
      case Continue => Finish(p.disk, cs, p.schedule)
      case Throw => Recover(p.disk, cs, p.applied, p.schedule)
      case Stop => (p.disk, Dead)
  }

  // --------------------------------------------------------------- rollback

  predicate IsInstalled(files: Files, c: Change) {
    Lookup(files, c.path) == Some(Installed(c))
  }

  /** A target rollback may touch. */
  predicate Acceptable(files: Files, phase: Phase, c: Change) {
    IsInstalled(files, c) || (phase == Prepared && Snap(files, c.path) == Some(c.original))
  }

  predicate AllAcceptable(files: Files, m: Manifest) {
    forall i :: 0 <= i < |m.changes| ==> Acceptable(files, m.phase, m.changes[i])
  }

  function RestoreFrom(disk: Disk, cs: seq<Change>, i: nat, schedule: seq<Event>): (Disk, End)
    requires i <= |cs|
    decreases |cs| - i
  {
    var e := Head(schedule);
    if i == |cs| then
      (Effect(disk, disk.(manifest := None, receipt := disk.manifest), e),
       match Happens(e) case Continue => Done case Throw => Raised case Stop => Dead)
    else
      var after := Effect(disk, RestoreOne(disk, cs[i]), e);
      match Happens(e)
      case Continue => RestoreFrom(after, cs, i + 1, Tail(schedule))
      case Throw => (after, Raised)
      case Stop => (after, Dead)
  }

  function Rollback(disk: Disk, schedule: seq<Event>): (Disk, End) {
    match disk.manifest
    case None => (disk, Refused)
    case Some(m) =>
      if AllAcceptable(disk.files, m) then RestoreFrom(disk, m.changes, 0, schedule) else (disk, Refused)
  }

  // ------------------------------------------------ the script's own loops

  class Script {
    var disk: Disk
    var schedule: seq<Event>

    constructor (disk: Disk, schedule: seq<Event>)
      ensures this.disk == disk && this.schedule == schedule
    {
      this.disk, this.schedule := disk, schedule;
    }

    /** One atomic effect, under the next event of the schedule. */
    method Perform(after: Disk) returns (signal: Signal)
      modifies this
      ensures signal == Happens(Head(old(schedule))) && schedule == Tail(old(schedule))
      ensures disk == Effect(old(disk), after, Head(old(schedule)))
    {
      var e := Head(schedule);
      schedule := Tail(schedule);
      disk := Effect(disk, after, e);
      signal := Happens(e);
    }

    method UndoApplied(cs: seq<Change>, n: nat) returns (end: End)
      requires n <= |cs|
      modifies this
      ensures (disk, end) == Recover(old(disk), cs, n, old(schedule))
    {
      var k: nat := n;
      while k > 0
        invariant k <= n
        invariant Recover(disk, cs, k, schedule) == Recover(old(disk), cs, n, old(schedule))
      {
        var c := cs[k - 1];
        var now := Snap(disk.files, c.path);
        if now == None || now.value.content != c.installed { return Raised; }
        var signal := Perform(RestoreOne(disk, c));
        if signal != Continue { return if signal == Stop then Dead else Raised; }
        k := k - 1;
      }
      var signal := Perform(disk.(manifest := None));
      return if signal == Stop then Dead else Raised;
    }

    method ApplyChanges(cs: seq<Change>) returns (end: End)
      modifies this
      ensures (disk, end) == Apply(old(disk), cs, old(schedule))
    {
      if disk.manifest.Some? { return Refused; }
      if exists i :: 0 <= i < |cs| && Snap(disk.files, cs[i].path) != Some(cs[i].original) { return Refused; }
      var signal := Perform(SaveManifest(disk, Prepared, cs));
      if signal != Continue { return if signal == Stop then Dead else Raised; }
      ghost var goal := Install(disk, cs, 0, schedule);
      var applied := 0;
      while applied < |cs|
        invariant applied <= |cs|
        invariant signal == Continue
        invariant Install(disk, cs, applied, schedule) == goal
      {
        if Snap(disk.files, cs[applied].path) != Some(cs[applied].original) { signal := Throw; break; }
        signal := Perform(InstallOne(disk, cs[applied]));
        if signal != Continue { break; }
        applied := applied + 1;
      }
      assert Progress(disk, applied, signal, schedule) == goal;
      if signal == Continue {
        signal := Perform(SaveManifest(disk, Applied, cs));
        if signal == Continue { return Done; }
      }
      if signal == Stop { return Dead; }
      end := UndoApplied(cs, applied);
    }

    method RollBack() returns (end: End)
      modifies this
      ensures (disk, end) == Rollback(old(disk), old(schedule))
    {
      if disk.manifest == None { return Refused; }
      var phase, cs := disk.manifest.value.phase, disk.manifest.value.changes;
      if exists i :: 0 <= i < |cs| && !Acceptable(disk.files, phase, cs[i]) { return Refused; }
      var i := 0;
      while i < |cs|
        invariant i <= |cs| && disk.manifest == old(disk.manifest)
        invariant RestoreFrom(disk, cs, i, schedule) == RestoreFrom(old(disk), cs, 0, old(schedule))
      {
        var signal := Perform(RestoreOne(disk, cs[i]));
        if signal != Continue { return if signal == Stop then Dead else Raised; }
        i := i + 1;
      }
      var signal := Perform(disk.(manifest := None, receipt := disk.manifest));
      return match signal case Continue => Done case Throw => Raised case Stop => Dead;
    }
  }

  // -------------------------------------------------------------- properties

  ghost predicate Distinct(cs: seq<Change>) {
    forall i, j :: 0 <= i < j < |cs| ==> cs[i].path != cs[j].path
  }

  ghost predicate IsTarget(cs: seq<Change>, p: Path) {
    exists i :: 0 <= i < |cs| && cs[i].path == p
  }

  ghost predicate SameElsewhere(files: Files, files0: Files, cs: seq<Change>) {
    forall p :: !IsTarget(cs, p) ==> Lookup(files, p) == Lookup(files0, p)
  }

  /** Errors come before their effect; no interrupt strikes right after one. */
  ghost predicate Synchronous(schedule: seq<Event>) {
    forall i :: 0 <= i < |schedule| ==> schedule[i] != Interrupted
  }

  /** The first k targets installed, the others as in files0. */
  ghost predicate InstalledUpTo(files: Files, files0: Files, cs: seq<Change>, k: nat) {
    && k <= |cs|
    && (forall i :: 0 <= i < k ==> IsInstalled(files, cs[i]))
    && (forall i :: k <= i < |cs| ==> Lookup(files, cs[i].path) == Lookup(files0, cs[i].path))
    && SameElsewhere(files, files0, cs)
  }

  /** The first k targets as in files0, each other one either way. */
  ghost predicate RestoredUpTo(files: Files, files0: Files, cs: seq<Change>, k: nat) {
    && k <= |cs|
    && (forall i :: 0 <= i < k ==> Lookup(files, cs[i].path) == Lookup(files0, cs[i].path))
    && (forall i :: k <= i < |cs| ==> IsInstalled(files, cs[i]) || Lookup(files, cs[i].path) == Lookup(files0, cs[i].path))
    && SameElsewhere(files, files0, cs)
  }

  lemma SameLookups(files: Files, files0: Files)
    requires forall p :: Lookup(files, p) == Lookup(files0, p)
    ensures files == files0
  {
    forall p ensures p in files <==> p in files0 {
      assert Lookup(files, p) == Lookup(files0, p);
    }
    forall p | p in files ensures files[p] == files0[p] {
      assert Lookup(files, p) == Lookup(files0, p);
    }
  }

  lemma UpToNothing(files: Files, files0: Files, cs: seq<Change>)
    requires InstalledUpTo(files, files0, cs, 0) || RestoredUpTo(files, files0, cs, |cs|)
    ensures files == files0
  {
    forall p ensures Lookup(files, p) == Lookup(files0, p) {
      if IsTarget(cs, p) {
        var i :| 0 <= i < |cs| && cs[i].path == p;
      }
    }
    SameLookups(files, files0);
  }

  lemma SnapshotsRestore(files0: Files, cs: seq<Change>, i: nat)
    requires Unchanged(files0, cs) && i < |cs|
    ensures NodeOf(cs[i].original) == Lookup(files0, cs[i].path)
  {
    assert Snap(files0, cs[i].path) == Some(cs[i].original);
  }

  lemma InstallOneUpTo(disk: Disk, files0: Files, cs: seq<Change>, k: nat)
    requires Distinct(cs) && k < |cs| && InstalledUpTo(disk.files, files0, cs, k)
    ensures InstalledUpTo(InstallOne(disk, cs[k]).files, files0, cs, k + 1)
  {
    assert IsTarget(cs, cs[k].path);
  }

  lemma {:induction false} InstallUpTo(disk: Disk, files0: Files, cs: seq<Change>, i: nat, schedule: seq<Event>)
    requires Distinct(cs) && InstalledUpTo(disk.files, files0, cs, i) && Synchronous(schedule)
    ensures var p := Install(disk, cs, i, schedule);
            && InstalledUpTo(p.disk.files, files0, cs, p.applied)
            && p.disk == disk.(files := p.disk.files) && Synchronous(p.schedule)
    decreases |cs| - i
  {
    if i < |cs| && Snap(disk.files, cs[i].path) == Some(cs[i].original) && Head(schedule) == Go {
      InstallOneUpTo(disk, files0, cs, i);
      InstallUpTo(InstallOne(disk, cs[i]), files0, cs, i + 1, Tail(schedule));
    }
  }

  /** What was recorded of the first n targets is what files0 holds. */
  ghost predicate Recorded(files0: Files, cs: seq<Change>, n: nat) {
    forall i :: 0 <= i < n && i < |cs| ==> NodeOf(cs[i].original) == Lookup(files0, cs[i].path)
  }

  lemma UnchangedIsRecorded(files0: Files, cs: seq<Change>, n: nat)
    requires Unchanged(files0, cs)
    ensures Recorded(files0, cs, n)
  {
    forall i | 0 <= i < n && i < |cs| ensures NodeOf(cs[i].original) == Lookup(files0, cs[i].path) {
      SnapshotsRestore(files0, cs, i);
    }
  }

  lemma UndoOneUpTo(disk: Disk, files0: Files, cs: seq<Change>, k: nat)
    requires Distinct(cs) && k < |cs| && InstalledUpTo(disk.files, files0, cs, k + 1) && Recorded(files0, cs, k + 1)
    ensures var now := Snap(disk.files, cs[k].path); now.Some? && now.value.content == cs[k].installed
    ensures InstalledUpTo(RestoreOne(disk, cs[k]).files, files0, cs, k)
  {
    assert IsTarget(cs, cs[k].path);
    assert IsInstalled(disk.files, cs[k]);
  }

  lemma FewerRecorded(files0: Files, cs: seq<Change>, n: nat)
    requires n > 0 && Recorded(files0, cs, n)
    ensures Recorded(files0, cs, n - 1)
  {
  }

  /** Recovery, stopped anywhere, leaves a prefix installed, and drops the manifest only when nothing is. */
  lemma {:induction false} RecoverUpTo(disk: Disk, files0: Files, cs: seq<Change>, n: nat, schedule: seq<Event>) returns (m: nat)
    requires Distinct(cs) && InstalledUpTo(disk.files, files0, cs, n) && Recorded(files0, cs, n) && Synchronous(schedule)
    ensures var (d, end) := Recover(disk, cs, n, schedule);
            && m <= n && InstalledUpTo(d.files, files0, cs, m)
            && (d.manifest == disk.manifest || (d.manifest == None && m == 0))
            && d.receipt == disk.receipt
            && (schedule == [] ==> m == 0 && d.manifest == None && end == Raised)
    decreases n
  {
    m := n;
    assert n <= |cs|;
    hide InstalledUpTo, Snap, Recorded, Distinct;
    if n > 0 {
      FewerRecorded(files0, cs, n);
      UndoOneUpTo(disk, files0, cs, n - 1);
      if Head(schedule) == Go {
        m := RecoverUpTo(RestoreOne(disk, cs[n - 1]), files0, cs, n - 1, Tail(schedule));
      }
    }
  }

  lemma RestoreOneUpTo(disk: Disk, files0: Files, cs: seq<Change>, k: nat)
    requires Distinct(cs) && k < |cs| && RestoredUpTo(disk.files, files0, cs, k) && Unchanged(files0, cs)
    ensures RestoredUpTo(RestoreOne(disk, cs[k]).files, files0, cs, k + 1)
  {
    SnapshotsRestore(files0, cs, k);
    assert IsTarget(cs, cs[k].path);
    var after := RestoreOne(disk, cs[k]).files;
    forall i | 0 <= i < |cs| && i != k ensures Lookup(after, cs[i].path) == Lookup(disk.files, cs[i].path) {}
  }

  /** Rollback, stopped anywhere, leaves each target restored or installed, and drops the manifest only at the end. */
  lemma {:induction false} RestoreUpTo(disk: Disk, files0: Files, cs: seq<Change>, i: nat, schedule: seq<Event>) returns (m: nat)
    requires Distinct(cs) && RestoredUpTo(disk.files, files0, cs, i) && Unchanged(files0, cs)
    ensures var (d, end) := RestoreFrom(disk, cs, i, schedule);
            && i <= m && RestoredUpTo(d.files, files0, cs, m)
            && ((d.manifest == disk.manifest && d.receipt == disk.receipt) ||
                (d.manifest == None && d.receipt == disk.manifest && d.files == files0))
            && (schedule == [] ==> end == Done && d == Disk(files0, None, disk.manifest))
            && (end == Done ==> d == Disk(files0, None, disk.manifest))
    decreases |cs| - i
  {
    m := i;
    if i == |cs| {
      UpToNothing(disk.files, files0, cs);
    } else {
      RestoreOneUpTo(disk, files0, cs, i);
      var next := RestoreOne(disk, cs[i]);
      if Head(schedule) == Go {
        m := RestoreUpTo(next, files0, cs, i + 1, Tail(schedule));
      } else {
        m := if Head(schedule) == Interrupted then i + 1 else i;
      }
    }
  }

  /** A disk from which rollback can restore files0. */
  ghost predicate Recoverable(d: Disk, files0: Files, cs: seq<Change>) {
    || (d.manifest == Some(Manifest(Prepared, cs)) && RestoredUpTo(d.files, files0, cs, 0))
    || (d.manifest == Some(Manifest(Applied, cs)) && InstalledUpTo(d.files, files0, cs, |cs|))
  }

  lemma PrefixIsMixed(files: Files, files0: Files, cs: seq<Change>, m: nat)
    requires InstalledUpTo(files, files0, cs, m) || RestoredUpTo(files, files0, cs, m)
    ensures RestoredUpTo(files, files0, cs, 0)
  {
  }

  lemma MixedIsAcceptable(files: Files, files0: Files, cs: seq<Change>, i: nat)
    requires RestoredUpTo(files, files0, cs, 0) && Unchanged(files0, cs) && i < |cs|
    ensures Acceptable(files, Prepared, cs[i])
  {
    assert Snap(files0, cs[i].path) == Some(cs[i].original);
  }

  /** Rolling back a recoverable disk restores every file, and keeps the manifest as a receipt. */
  lemma RollbackRestores(d: Disk, files0: Files, cs: seq<Change>)
    requires Distinct(cs) && Unchanged(files0, cs) && Recoverable(d, files0, cs)
    ensures Rollback(d, []) == (Disk(files0, None, d.manifest), Done)
  {
    if d.manifest.value.phase == Prepared {
      forall i | 0 <= i < |cs| ensures Acceptable(d.files, Prepared, cs[i]) { MixedIsAcceptable(d.files, files0, cs, i); }
    } else {
      PrefixIsMixed(d.files, files0, cs, |cs|);
    }
    var m := RestoreUpTo(d, files0, cs, 0, []);
  }

  /**
   * Crash safety. Wherever an apply stops (a crash, an error, an error in its
   * own recovery), either the manifest is gone or was never written, and every
   * file is as before, or rolling back makes it so: existence, content, mode.
   */
  lemma ApplyCanAlwaysBeUndone(disk: Disk, cs: seq<Change>, schedule: seq<Event>)
    requires disk.manifest == None && Distinct(cs) && Synchronous(schedule)
    ensures var (d, end) := Apply(disk, cs, schedule);
            && (d.manifest == None ==> d == disk)
            && (d.manifest.Some? ==> Rollback(d, []) == (Disk(disk.files, None, d.manifest), Done))
            && (end == Done ==> d.manifest == Some(Manifest(Applied, cs)) &&
                                forall i :: 0 <= i < |cs| ==> IsInstalled(d.files, cs[i]))
            && (end == Refused <==> !Unchanged(disk.files, cs))
  {
    var (d, end) := Apply(disk, cs, schedule);
    if Unchanged(disk.files, cs) && Head(schedule) == Go {
      ApplyStops(disk, cs, schedule);
      if d.manifest.Some? { RollbackRestores(d, disk.files, cs); }
    }
  }

  /** Nothing happens around the next n effects. */
  predicate AllGo(schedule: seq<Event>, n: nat) {
    n == 0 || (Head(schedule) == Go && AllGo(Tail(schedule), n - 1))
  }

  function After(schedule: seq<Event>, n: nat): seq<Event> {
    if n == 0 then schedule else After(Tail(schedule), n - 1)
  }

  /** The writes of the targets come through exactly if nothing happens around any of them. */
  lemma {:induction false} InstallComesThroughIff(disk: Disk, files0: Files, cs: seq<Change>, i: nat, schedule: seq<Event>)
    requires Distinct(cs) && InstalledUpTo(disk.files, files0, cs, i) && Unchanged(files0, cs)
    ensures var p := Install(disk, cs, i, schedule);
            && (p.signal == Continue <==> AllGo(schedule, |cs| - i))
            && (p.signal == Continue ==>
                  p.schedule == After(schedule, |cs| - i) && InstalledUpTo(p.disk.files, files0, cs, |cs|) &&
                  p.disk == disk.(files := p.disk.files))
    decreases |cs| - i
  {
    if i < |cs| {
      SnapshotsAgree(disk.files, files0, cs, i);
      InstallOneUpTo(disk, files0, cs, i);
      hide Snap, InstalledUpTo, Distinct, Unchanged;
      if Head(schedule) == Go { InstallComesThroughIff(InstallOne(disk, cs[i]), files0, cs, i + 1, Tail(schedule)); }
    }
  }

  /**
   * An apply succeeds exactly if there is no manifest, every target is still
   * what was planned on, and nothing happens around any of its effects; then
   * every target is installed and nothing else has changed.
   */
  lemma ApplySucceedsIff(disk: Disk, cs: seq<Change>, schedule: seq<Event>)
    requires Distinct(cs)
    ensures var (d, end) := Apply(disk, cs, schedule);
            && (end == Done <==> disk.manifest == None && Unchanged(disk.files, cs) && AllGo(schedule, |cs| + 2))
            && (end == Refused <==> disk.manifest.Some? || !Unchanged(disk.files, cs))
            && (end == Refused ==> d == disk)
            && (end == Done ==> d == Disk(d.files, Some(Manifest(Applied, cs)), disk.receipt) &&
                                InstalledUpTo(d.files, disk.files, cs, |cs|))
  {
    if disk.manifest == None && Unchanged(disk.files, cs) {
      var saved, rest := SaveManifest(disk, Prepared, cs), Tail(schedule);
      InstallComesThroughIff(saved, disk.files, cs, 0, rest);
      AllGoSplits(rest, |cs|);
      hide Install, InstalledUpTo, Unchanged, Distinct;
    }
  }

  lemma {:induction false} AllGoSplits(schedule: seq<Event>, n: nat)
    ensures AllGo(schedule, n + 1) <==> AllGo(schedule, n) && Head(After(schedule, n)) == Go
  {
    if n > 0 { AllGoSplits(Tail(schedule), n - 1); }
  }

  /** A target that is no longer as planned stops the apply there; one that is not as installed stops recovery there. Neither is touched. */
  lemma ForeignTargetsAreLeftAlone(disk: Disk, cs: seq<Change>, i: nat, schedule: seq<Event>)
    requires i < |cs|
    ensures Snap(disk.files, cs[i].path) != Some(cs[i].original) ==> Install(disk, cs, i, schedule) == Progress(disk, i, Throw, schedule)
    ensures Lookup(disk.files, cs[i].path) == None && cs[i].installed != "" ==> Recover(disk, cs, i + 1, schedule) == (disk, Raised)
    ensures Lookup(disk.files, cs[i].path) == Some(Link) ==> Recover(disk, cs, i + 1, schedule) == (disk, Raised)
    ensures cs[i].path in disk.files && disk.files[cs[i].path].File? && disk.files[cs[i].path].content != cs[i].installed ==>
              Recover(disk, cs, i + 1, schedule) == (disk, Raised)
  {
  }

  lemma FailureGoesToRecovery(disk: Disk, cs: seq<Change>, k: nat)
    requires disk.manifest == None && Distinct(cs) && Unchanged(disk.files, cs) && k <= |cs|
    ensures var p := Install(SaveManifest(disk, Prepared, cs), cs, 0, Goes(k) + [Fail]);
            && p.applied == k && InstalledUpTo(p.disk.files, disk.files, cs, k) && p.disk.receipt == disk.receipt
            && Apply(disk, cs, Goes(k + 1) + [Fail]) == Recover(p.disk, cs, k, [])
  {
    assert InstalledUpTo(disk.files, disk.files, cs, 0);
    hide InstalledUpTo, Recover, Install, Distinct, Goes, Snap, Head, Tail;
    GoesThen(k + 1, Fail);
    InstallFails(SaveManifest(disk, Prepared, cs), disk.files, cs, 0, k);
    hide Unchanged;
    FinishFails(Install(SaveManifest(disk, Prepared, cs), cs, 0, Goes(k) + [Fail]).disk, cs);
  }

  lemma FinishFails(disk: Disk, cs: seq<Change>)
    ensures Finish(disk, cs, [Fail]) == Recover(disk, cs, |cs|, [])
  {
  }

  /** An error anywhere, with nothing happening to its recovery, leaves everything as it was. */
  lemma FailedApplyCleansUp(disk: Disk, cs: seq<Change>, k: nat)
    requires disk.manifest == None && Distinct(cs) && Unchanged(disk.files, cs) && k <= |cs| + 1
    ensures Apply(disk, cs, Goes(k) + [Fail]) == (disk, Raised)
  {
    hide Install, InstalledUpTo, Recover, Goes, Distinct;
    GoesThen(k, Fail);
    if k > 0 {
      FailureGoesToRecovery(disk, cs, k - 1);
      var p := Install(SaveManifest(disk, Prepared, cs), cs, 0, Goes(k - 1) + [Fail]);
      UnchangedIsRecorded(disk.files, cs, k - 1);
      hide Apply, Unchanged;
      var m := RecoverUpTo(p.disk, disk.files, cs, k - 1, []);
      UpToNothing(Recover(p.disk, cs, k - 1, []).0.files, disk.files, cs);
    }
  }

  lemma {:induction false} InstallFails(disk: Disk, files0: Files, cs: seq<Change>, i: nat, n: nat)
    requires Distinct(cs) && i + n <= |cs| && InstalledUpTo(disk.files, files0, cs, i) && Unchanged(files0, cs)
    ensures var p := Install(disk, cs, i, Goes(n) + [Fail]);
            && p.applied == i + n && InstalledUpTo(p.disk.files, files0, cs, i + n) && p.disk == disk.(files := p.disk.files)
            && (if i + n == |cs| then p.signal == Continue && p.schedule == [Fail] else p.signal == Throw && p.schedule == [])
    decreases n
  {
    GoesThen(n, Fail);
    if n == 0 { assert Goes(0) + [Fail] == [Fail]; }
    hide Snap, InstalledUpTo, Goes, Distinct, Unchanged, Head, Tail;
    if i < |cs| {
      SnapshotsAgree(disk.files, files0, cs, i);
      InstallOneUpTo(disk, files0, cs, i);
      if n > 0 { InstallFails(InstallOne(disk, cs[i]), files0, cs, i + 1, n - 1); }
    }
  }

  lemma AllInstalled(files: Files, files0: Files, cs: seq<Change>)
    requires InstalledUpTo(files, files0, cs, |cs|)
    ensures forall i :: 0 <= i < |cs| ==> IsInstalled(files, cs[i])
  {
  }

  lemma ApplyStops(disk: Disk, cs: seq<Change>, schedule: seq<Event>)
    requires disk.manifest == None && Distinct(cs) && Synchronous(schedule)
    requires Unchanged(disk.files, cs) && Head(schedule) == Go
    ensures var (d, end) := Apply(disk, cs, schedule);
            && (Recoverable(d, disk.files, cs) || d == disk)
            && (end == Done ==> d.manifest == Some(Manifest(Applied, cs)) &&
                                forall i :: 0 <= i < |cs| ==> IsInstalled(d.files, cs[i]))
            && end != Refused
  {
    var files0 := disk.files;
    var saved := SaveManifest(disk, Prepared, cs);
    InstallUpTo(saved, files0, cs, 0, Tail(schedule));
    hide InstalledUpTo, RestoredUpTo, Snap, Unchanged;
    var p := Install(saved, cs, 0, Tail(schedule));
    var (d, end) := Apply(disk, cs, schedule);
    if p.signal == Stop {
      PrefixIsMixed(d.files, files0, cs, p.applied);
    } else if p.signal == Continue && Head(p.schedule) != Fail {
      PrefixIsMixed(p.disk.files, files0, cs, |cs|);
      AllInstalled(p.disk.files, files0, cs);
    } else {
      var left := if p.signal == Continue then Tail(p.schedule) else p.schedule;
      UnchangedIsRecorded(files0, cs, p.applied);
      var m := RecoverUpTo(p.disk, files0, cs, p.applied, left);
      PrefixIsMixed(d.files, files0, cs, m);
      if d.manifest == None { UpToNothing(d.files, files0, cs); }
    }
  }

  /** A rollback goes ahead exactly when every target is installed or, before completion, original; else it changes nothing. */
  lemma RefusedRollbackChangesNothing(d: Disk, schedule: seq<Event>)
    ensures var (after, end) := Rollback(d, schedule);
            && (end == Refused ==> after == d)
            && (end != Refused <==> d.manifest.Some? && AllAcceptable(d.files, d.manifest.value))
  {
    if d.manifest.Some? { RestoreNeverRefuses(d, d.manifest.value.changes, 0, schedule); }
  }

  lemma {:induction false} RestoreNeverRefuses(disk: Disk, cs: seq<Change>, i: nat, schedule: seq<Event>)
    requires i <= |cs|
    ensures RestoreFrom(disk, cs, i, schedule).1 != Refused
    decreases |cs| - i
  {
    if i < |cs| && Head(schedule) == Go { RestoreNeverRefuses(RestoreOne(disk, cs[i]), cs, i + 1, Tail(schedule)); }
  }

  /** A rollback of a prepared manifest, stopped anywhere by anything, can be run again and then restores every file. */
  lemma PreparedRollbackCanBeRerun(d: Disk, files0: Files, cs: seq<Change>, schedule: seq<Event>)
    requires Distinct(cs) && Unchanged(files0, cs)
    requires d.manifest == Some(Manifest(Prepared, cs)) && RestoredUpTo(d.files, files0, cs, 0)
    ensures var d1 := Rollback(d, schedule).0;
            if d1.manifest == None then d1.files == files0
            else Recoverable(d1, files0, cs) && Rollback(d1, []) == (Disk(files0, None, d.manifest), Done)
  {
    forall i | 0 <= i < |cs| ensures Acceptable(d.files, Prepared, cs[i]) { MixedIsAcceptable(d.files, files0, cs, i); }
    var m := RestoreUpTo(d, files0, cs, 0, schedule);
    var d1 := Rollback(d, schedule).0;
    if d1.manifest.Some? {
      PrefixIsMixed(d1.files, files0, cs, m);
      RollbackRestores(d1, files0, cs);
    }
  }

  function Goes(n: nat): (g: seq<Event>)
    ensures |g| == n && forall i :: 0 <= i < n ==> g[i] == Go
  {
    if n == 0 then [] else [Go] + Goes(n - 1)
  }

  /** The first k targets as recorded, the others installed. */
  ghost predicate HalfRestored(files: Files, files0: Files, cs: seq<Change>, k: nat) {
    && k <= |cs|
    && (forall i :: 0 <= i < k ==> Lookup(files, cs[i].path) == NodeOf(cs[i].original))
    && (forall i :: k <= i < |cs| ==> IsInstalled(files, cs[i]))
    && SameElsewhere(files, files0, cs)
  }

  lemma HalfRestoreOne(disk: Disk, files0: Files, cs: seq<Change>, k: nat)
    requires Distinct(cs) && k < |cs| && HalfRestored(disk.files, files0, cs, k)
    ensures HalfRestored(RestoreOne(disk, cs[k]).files, files0, cs, k + 1)
  {
    assert IsTarget(cs, cs[k].path);
    var after := RestoreOne(disk, cs[k]).files;
    forall i | 0 <= i < |cs| && i != k ensures Lookup(after, cs[i].path) == Lookup(disk.files, cs[i].path) {}
  }

  lemma {:induction false} RestoreDies(disk: Disk, files0: Files, cs: seq<Change>, i: nat, n: nat)
    requires Distinct(cs) && i + n <= |cs| && HalfRestored(disk.files, files0, cs, i)
    ensures var d := RestoreFrom(disk, cs, i, Goes(n) + [Crash]).0;
            d.manifest == disk.manifest && HalfRestored(d.files, files0, cs, i + n)
    decreases n
  {
    GoesThen(n, Crash);
    if n > 0 { HalfRestoreOne(disk, files0, cs, i); }
    hide HalfRestored, Goes, Head, Tail, Distinct;
    if n > 0 { RestoreDies(RestoreOne(disk, cs[i]), files0, cs, i + 1, n - 1); }
  }

  /**
   * A rollback of a completed installation that dies after restoring k targets
   * can be run again exactly if each of those was installed unchanged: an
   * applied manifest no longer accepts an original.
   */
  lemma AppliedRollbackRerunsIffUnchanged(d: Disk, files0: Files, cs: seq<Change>, k: nat)
    requires Distinct(cs) && Unchanged(files0, cs) && k <= |cs|
    requires d.manifest == Some(Manifest(Applied, cs)) && InstalledUpTo(d.files, files0, cs, |cs|)
    ensures var d1 := Rollback(d, Goes(k) + [Crash]).0;
            Rollback(d1, []).1 == Done <==> forall i :: 0 <= i < k ==> NodeOf(cs[i].original) == Some(Installed(cs[i]))
  {
    RestoreDies(d, files0, cs, 0, k);
    var d1 := Rollback(d, Goes(k) + [Crash]).0;
    assert HalfRestored(d1.files, files0, cs, k) && d1.manifest == d.manifest;
    if forall i :: 0 <= i < k ==> NodeOf(cs[i].original) == Some(Installed(cs[i])) {
      assert InstalledUpTo(d1.files, files0, cs, |cs|);
      RollbackRestores(d1, files0, cs);
    } else {
      var i :| 0 <= i < k && NodeOf(cs[i].original) != Some(Installed(cs[i]));
      assert !Acceptable(d1.files, Applied, cs[i]);
    }
  }

  lemma GoesThen(n: nat, e: Event)
    ensures n > 0 ==> Head(Goes(n) + [e]) == Go && Tail(Goes(n) + [e]) == Goes(n - 1) + [e]
    ensures Head(Goes(0) + [e]) == e && Tail(Goes(0) + [e]) == []
  {
    assert n > 0 ==> (Goes(n) + [e])[1..] == Goes(n - 1) + [e];
    assert Goes(0) + [e] == [e];
  }

  lemma {:induction false} InstallInterrupted(disk: Disk, files0: Files, cs: seq<Change>, i: nat, n: nat)
    requires Distinct(cs) && i + n < |cs| && InstalledUpTo(disk.files, files0, cs, i) && Unchanged(files0, cs)
    ensures var p := Install(disk, cs, i, Goes(n) + [Interrupted]);
            && p.signal == Throw && p.applied == i + n && p.schedule == []
            && InstalledUpTo(p.disk.files, files0, cs, i + n + 1) && p.disk == disk.(files := p.disk.files)
    decreases n
  {
    hide Snap, InstalledUpTo, Goes, Distinct, Unchanged, Head, Tail;
    SnapshotsAgree(disk.files, files0, cs, i);
    InstallOneUpTo(disk, files0, cs, i);
    GoesThen(n, Interrupted);
    if n > 0 {
      InstallInterrupted(InstallOne(disk, cs[i]), files0, cs, i + 1, n - 1);
    }
  }

  lemma SnapshotsAgree(files: Files, files0: Files, cs: seq<Change>, i: nat)
    requires InstalledUpTo(files, files0, cs, i) && i < |cs| && Unchanged(files0, cs)
    ensures Snap(files, cs[i].path) == Some(cs[i].original)
  {
    assert Lookup(files, cs[i].path) == Lookup(files0, cs[i].path);
    assert Snap(files0, cs[i].path) == Some(cs[i].original);
  }

  lemma ApplyInterrupted(disk: Disk, cs: seq<Change>, k: nat)
    requires disk.manifest == None && Distinct(cs) && Unchanged(disk.files, cs) && k < |cs|
    ensures var p := Install(SaveManifest(disk, Prepared, cs), cs, 0, Goes(k) + [Interrupted]);
            && p.applied == k && InstalledUpTo(p.disk.files, disk.files, cs, k + 1)
            && p.disk.receipt == disk.receipt
            && Apply(disk, cs, [Go] + Goes(k) + [Interrupted]) == Recover(p.disk, cs, k, [])
  {
    assert ([Go] + Goes(k) + [Interrupted])[1..] == Goes(k) + [Interrupted];
    InstallInterrupted(SaveManifest(disk, Prepared, cs), disk.files, cs, 0, k);
    hide InstalledUpTo, Recover, Install, Distinct, Goes;
  }

  lemma OverwriteIsNoOpIff(files: Files, p: Path, node: Node)
    ensures files[p := node] == files <==> Lookup(files, p) == Some(node)
  {
    if Lookup(files, p) == Some(node) { assert files[p := node] == files; }
    else { assert Lookup(files[p := node], p) == Some(node); }
  }

  /**
   * An interrupt right after the k-th target is replaced finds it not yet
   * listed as applied: recovery skips it and drops the manifest, so the
   * original is lost, exactly if it was not what is installed.
   */
  lemma InterruptedWriteLosesOriginalIff(disk: Disk, cs: seq<Change>, k: nat)
    requires disk.manifest == None && Distinct(cs) && Unchanged(disk.files, cs) && k < |cs|
    ensures var (d, end) := Apply(disk, cs, [Go] + Goes(k) + [Interrupted]);
            && end == Raised && d.manifest == None
            && d.files == disk.files[cs[k].path := Installed(cs[k])]
            && (d.files == disk.files <==> NodeOf(cs[k].original) == Some(Installed(cs[k])))
  {
    ApplyInterrupted(disk, cs, k);
    SnapshotsRestore(disk.files, cs, k);
    OverwriteIsNoOpIff(disk.files, cs[k].path, Installed(cs[k]));
    hide Apply, Recover, Install, InstalledUpTo, Unchanged, Goes, Recorded;
    var p := Install(SaveManifest(disk, Prepared, cs), cs, 0, Goes(k) + [Interrupted]);
    var files1 := disk.files[cs[k].path := Installed(cs[k])];
    OthersInstalled(p.disk.files, disk.files, cs, k);
    var m := RecoverUpTo(p.disk, files1, cs, k, []);
    UpToNothing(Recover(p.disk, cs, k, []).0.files, files1, cs);
  }

  /** Seen from a disk that already has the k-th target installed, k targets are. */
  lemma OthersInstalled(files: Files, files0: Files, cs: seq<Change>, k: nat)
    requires Distinct(cs) && Unchanged(files0, cs) && k < |cs| && InstalledUpTo(files, files0, cs, k + 1)
    ensures var files1 := files0[cs[k].path := Installed(cs[k])];
            InstalledUpTo(files, files1, cs, k) && Recorded(files1, cs, k)
  {
    UnchangedIsRecorded(files0, cs, k);
    assert IsTarget(cs, cs[k].path);
  }
}
