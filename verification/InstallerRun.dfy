/**
 One installer run on one install root, operation by operation. Any file operation may raise, and an
 interrupted one leaves arbitrary content in the run's own staging directory. `trace` holds the disk
 after every operation, so a property of all its elements is a property of every crash point.
 */
module InstallerRun {
  import opened Basics
  import opened InstallerModel
  import opened InstallerBuild

  type Key = (string, nat)

  /** The parts of an install root that releases depend on. `temporaries` are the links being swapped in, by process. */
  datatype Disk = Disk(
    releases: map<string, Tree>,
    staging: map<Key, Tree>,
    temporaries: map<nat, string>,
    current: Option<string>)

  /** Old releases are untouched, new ones are complete, and the active link is as before or at a complete release. */
  ghost predicate SafeFrom(start: Disk, d: Disk) {
    && (forall v :: v in start.releases ==> v in d.releases && d.releases[v] == start.releases[v])
    && (forall v :: v in d.releases ==> v in start.releases || Sealed(d.releases[v]))
    && (d.current == start.current ||
         (d.current.Some? && d.current.value in d.releases && Sealed(d.releases[d.current.value])))
  }

  // ----- single operations keep a disk safe -----

  lemma StagingIsFree(start: Disk, d: Disk, staging: map<Key, Tree>)
    requires SafeFrom(start, d)
    ensures SafeFrom(start, d.(staging := staging))
  {
    hide Sealed;
  }

  lemma RenameIsSafe(start: Disk, d: Disk, key: Key, version: string)
    requires SafeFrom(start, d) && key in d.staging && version !in d.releases && Sealed(d.staging[key])
    ensures SafeFrom(start, d.(releases := d.releases[version := d.staging[key]], staging := d.staging - {key}))
  {
    hide Sealed;
  }

  lemma SwapIsSafe(start: Disk, d: Disk, pid: nat, version: string)
    requires SafeFrom(start, d) && version in d.releases && Sealed(d.releases[version]) && pid !in d.temporaries
    ensures var linked := d.(temporaries := d.temporaries[pid := version]);
            var swapped := linked.(current := Some(linked.temporaries[pid]), temporaries := linked.temporaries - {pid});
            && SafeFrom(start, linked) && SafeFrom(start, linked.(temporaries := linked.temporaries - {pid}))
            && swapped == d.(current := Some(version)) && SafeFrom(start, swapped)
  {
    hide Sealed;
    assert d.temporaries[pid := version] - {pid} == d.temporaries;
  }

  // ----- the run -----

  /** Where a fresh install without file errors ends; a stale temporary link leaves the release unactivated. */
  function FreshEnd(c: Installer, pid: nat, built: Option<Tree>, d: Disk): Disk {
    if built.None? then d
    else
      var published := d.(releases := d.releases[c.version := built.value]);
      if pid in d.temporaries then published else published.(current := Some(c.version))
  }

  /** Where a run without file errors ends. */
  function QuietEnd(c: Installer, withRos: bool, pid: nat, fetch: nat -> Option<Content>,
      setup: Tree -> Option<Tree>, d: Disk): Disk
  {
    if c.frozenRos == Some(!withRos) then d
    else if c.version in d.releases then
      if JudgedComplete(c, withRos, d.releases[c.version]) && pid !in d.temporaries
      then d.(current := Some(c.version)) else d
    else if (c.version, pid) in d.staging then d
    else FreshEnd(c, pid, Built(c, withRos, fetch, setup), d)
  }

  /** An activated disk just before the atomic replace: the temporary link is there, `current` is as before. */
  function Linked(d: Disk, before: Disk, pid: nat, version: string): Disk {
    d.(current := before.current, temporaries := before.temporaries[pid := version])
  }

  datatype Outcome = Installed | Activated | OptionRefused | ReleaseRefused | StagingTaken | Failed

  class InstallRoot {
    const faults: nat -> bool
    const torn: nat -> Tree
    var clock: nat
    var disk: Disk
    ghost var start: Disk
    var trace: seq<Disk>

    constructor (disk: Disk, faults: nat -> bool, torn: nat -> Tree)
      ensures this.disk == disk && start == disk && trace == [] && this.faults == faults && this.torn == torn
    {
      this.disk, this.faults, this.torn := disk, faults, torn;
      clock := 0;
      start, trace := disk, [];
    }

    /** Wherever this run is cut off, the disk is safe; the trace ends with the present disk. */
    ghost predicate Sound()
      reads this
    {
      && disk == (if trace == [] then start else trace[|trace| - 1])
      && SafeFrom(start, disk) && forall i :: 0 <= i < |trace| ==> SafeFrom(start, trace[i])
    }

    ghost predicate Quiet()
      reads this
    {
      forall n :: !faults(n)
    }

    /** One file operation: it succeeds with one disk or raises and leaves another. */
    method Perform(done: Disk, raised: Disk) returns (ok: bool)
      requires Sound() && SafeFrom(start, done) && SafeFrom(start, raised)
      modifies this`clock, this`disk, this`trace
      ensures Sound() && (Quiet() ==> ok) && disk == if ok then done else raised
      ensures trace == old(trace) + [disk]
    {
      hide SafeFrom;
      ok := !faults(clock);
      disk := if ok then done else raised;
      clock := clock + 1;
      trace := trace + [disk];
    }

    /** Changes the staging directory to `tree`; interrupted, anything may be left in it. */
    method Restage(key: Key, tree: Tree) returns (ok: bool)
      requires Sound()
      modifies this`clock, this`disk, this`trace
      ensures Sound() && (Quiet() ==> ok)
      ensures disk == old(disk).(staging := disk.staging)
      ensures ok ==> disk.staging == old(disk).staging[key := tree]
      ensures disk.staging - {key} == old(disk).staging - {key}
    {
      StagingIsFree(start, disk, disk.staging[key := tree]);
      StagingIsFree(start, disk, disk.staging[key := torn(clock)]);
      hide SafeFrom;
      ok := Perform(disk.(staging := disk.staging[key := tree]), disk.(staging := disk.staging[key := torn(clock)]));
    }

    /** Removes a staging directory; interrupted, it leaves part of it. */
    method RemoveStaging(key: Key) returns (ok: bool)
      requires Sound()
      modifies this`clock, this`disk, this`trace
      ensures Sound() && (Quiet() ==> ok)
      ensures disk == old(disk).(staging := disk.staging)
      ensures disk.staging - {key} == old(disk).staging - {key}
      ensures ok ==> key !in disk.staging
    {
      StagingIsFree(start, disk, disk.staging - {key});
      StagingIsFree(start, disk, disk.staging[key := torn(clock)]);
      hide SafeFrom;
      ok := Perform(disk.(staging := disk.staging - {key}), disk.(staging := disk.staging[key := torn(clock)]));
    }

    /** The atomic rename of a staging directory to a release. */
    method ReplaceRelease(key: Key, version: string) returns (ok: bool)
      requires Sound() && key in disk.staging && version !in disk.releases && Sealed(disk.staging[key])
      modifies this`clock, this`disk, this`trace
      ensures Sound() && (Quiet() ==> ok)
      ensures disk == if ok then
                old(disk).(releases := old(disk).releases[version := old(disk).staging[key]],
                  staging := old(disk).staging - {key})
                      else old(disk)
    {
      RenameIsSafe(start, disk, key, version);
      hide SafeFrom;
      ok := Perform(disk.(releases := disk.releases[version := disk.staging[key]], staging := disk.staging - {key}),
        disk);
    }

    /** Points `current` at a release through a temporary link and one atomic replace. */
    method CurrentTarget(pid: nat, version: string) returns (ok: bool)
      requires Sound() && version in disk.releases && Sealed(disk.releases[version])
      modifies this`clock, this`disk, this`trace
      ensures Sound()
      ensures ok ==> disk == old(disk).(current := Some(version)) && pid !in old(disk).temporaries
      ensures ok ==> trace == old(trace) + [Linked(disk, old(disk), pid, version), disk]
      ensures !ok ==> disk == old(disk).(temporaries := disk.temporaries)
      ensures pid in old(disk).temporaries ==> disk == old(disk)
      ensures Quiet() ==> (ok <==> pid !in old(disk).temporaries)
    {
      if pid in disk.temporaries {
        return false;
      }
      SwapIsSafe(start, disk, pid, version);
      var linked := disk.(temporaries := disk.temporaries[pid := version]);
      hide SafeFrom;
      ok := Perform(linked, disk);
      if ok {
        ok := Perform(linked.(current := Some(linked.temporaries[pid]), temporaries := linked.temporaries - {pid}),
          linked);
      }
      if !ok && pid in disk.temporaries {
        var _ := Perform(disk.(temporaries := disk.temporaries - {pid}), disk);
      }
    }

    /** Writes the embedded project files one by one into the staging directory. */
    method ExtractProjectPayload(c: Installer, key: Key) returns (ok: bool)
      requires Sound() && key in disk.staging && disk.staging[key] == map[]
      modifies this`clock, this`disk, this`trace
      ensures Sound() && disk == old(disk).(staging := disk.staging) &&
                disk.staging - {key} == old(disk).staging - {key}
      ensures ok ==> key in disk.staging && Extract(c.archive, c.projectFiles) == Some(disk.staging[key])
      ensures Quiet() ==> (ok <==> Extract(c.archive, c.projectFiles).Some?)
    {
      hide SafeFrom, ExtractAll, SafeName, Permissions;
      if c.projectFiles == map[] {
        return true;
      }
      ExtractNothing(c.projectFiles);
      assert c.archive[..0] == [];
      var seen: set<string> := {};
      for i := 0 to |c.archive|
        invariant Sound() && disk == old(disk).(staging := disk.staging) &&
                    disk.staging - {key} == old(disk).staging - {key}
        invariant key in disk.staging && ExtractAll(c.archive[..i], c.projectFiles, map[]) == Some(disk.staging[key])
        invariant seen == Names(c.archive[..i])
      {
        var m := c.archive[i];
        PrefixSteps(c.archive, c.projectFiles, i);
        if !Admissible(m, c.projectFiles, seen) {
          return false;
        }
        if m.name in disk.staging[key] {
          return false;
        }
        var written := Restage(key, disk.staging[key][m.name := Regular(m.content, Permissions(m.mode))]);
        if !written {
          return false;
        }
        if Sha256(m.content) != c.projectFiles[m.name] {
          return false;
        }
        seen := seen + {m.name};
      }
      assert c.archive[..|c.archive|] == c.archive;
      return seen == c.projectFiles.Keys;
    }

    /** Fetches every locked download; a digest that differs removes the file and fails. */
    method FetchDownloads(plan: seq<(string, Download)>, key: Key, fetch: nat -> Option<Content>) returns (ok: bool)
      requires Sound() && key in disk.staging
      modifies this`clock, this`disk, this`trace
      ensures Sound() && disk == old(disk).(staging := disk.staging) &&
                disk.staging - {key} == old(disk).staging - {key}
      ensures ok ==> key in disk.staging && Fetched(old(disk).staging[key], plan, fetch) == Some(disk.staging[key])
      ensures Quiet() ==> (ok <==> Fetched(old(disk).staging[key], plan, fetch).Some?)
    {
      hide SafeFrom;
      ghost var tree := disk.staging[key];
      for i := 0 to |plan|
        invariant Sound() && disk == old(disk).(staging := disk.staging) &&
                    disk.staging - {key} == old(disk).staging - {key}
        invariant key in disk.staging && Fetched(tree, plan[..i], fetch) == Some(disk.staging[key])
      {
        FetchSteps(tree, plan, fetch, i);
        var content := fetch(i);
        if content.None? {
          return false;
        }
        var written := Restage(key, Placed(disk.staging[key], plan[i], content.value));
        if !written {
          return false;
        }
        if Sha256(content.value) != plan[i].1.sha256 {
          var _ := Restage(key, disk.staging[key] - {plan[i].0});
          return false;
        }
      }
      assert plan[..|plan|] == plan;
      return true;
    }

    /** Everything a fresh install does in its staging directory. */
    method FillStaging(c: Installer, withRos: bool, key: Key, fetch: nat -> Option<Content>,
        setup: Tree -> Option<Tree>) returns (ok: bool)
      requires Sound() && key in disk.staging && disk.staging[key] == map[]
      modifies this`clock, this`disk, this`trace
      ensures Sound() && disk == old(disk).(staging := disk.staging) &&
                disk.staging - {key} == old(disk).staging - {key}
      ensures ok ==> key in disk.staging && Built(c, withRos, fetch, setup) == Some(disk.staging[key])
      ensures Quiet() ==> (ok <==> Built(c, withRos, fetch, setup).Some?)
    {
      hide SafeFrom, Extract, Fetched, VerifyExpected, ExpectedFiles, AllRegular, Plan;
      ok := ExtractProjectPayload(c, key);
      if !ok {
        return;
      }
      ok := FetchDownloads(Plan(c, withRos), key, fetch);
      if !ok {
        return;
      }
      if INDEX_NAME in disk.staging[key] {
        return false;
      }
      ok := Restage(key, disk.staging[key][INDEX_NAME := Regular(IndexText(Records(Selected(c, withRos))), 420)]);
      if !ok {
        return;
      }
      if !VerifyExpected(disk.staging[key], ExpectedFiles(c, withRos)) {
        return false;
      }
      ok := SetUpAndSeal(c, withRos, key, setup);
    }

    /** Runtime setup, the table of what it left, and the two files that seal the tree. */
    method SetUpAndSeal(c: Installer, withRos: bool, key: Key, setup: Tree -> Option<Tree>) returns (ok: bool)
      requires Sound() && key in disk.staging
      modifies this`clock, this`disk, this`trace
      ensures Sound() && disk == old(disk).(staging := disk.staging) &&
                disk.staging - {key} == old(disk).staging - {key}
      ensures var after := AfterSetup(c, old(disk).staging[key], setup);
              && (ok ==>
                    && key in disk.staging && after.Some? && AllRegular(after.value)
                    && disk.staging[key] == Stamped(c, withRos, after.value))
              && (Quiet() ==> (ok <==> after.Some? && AllRegular(after.value)))
    {
      hide SafeFrom, AllRegular, Matches;
      if c.setup.Some? {
        if !MaySetUp(c, disk.staging[key]) || setup(disk.staging[key]).None? {
          return false;
        }
        ok := Restage(key, setup(disk.staging[key]).value);
        if !ok {
          return;
        }
      }
      var after := disk.staging[key];
      var table := TableOf(after);
      if table.None? {
        return false;
      }
      var text := ManifestText(ManifestFor(c, withRos, table.value));
      ok := Restage(key, after[MANIFEST_NAME := Regular(text, 420)]);
      if !ok {
        return;
      }
      ok := Restage(key, disk.staging[key][STATE_NAME := Regular(StateText(StateFor(c, withRos, text)), 420)]);
    }

    /** The part of the run under the exception handler, which removes whatever staging directory is left. */
    method InstallFresh(c: Installer, withRos: bool, pid: nat, fetch: nat -> Option<Content>,
        setup: Tree -> Option<Tree>) returns (outcome: Outcome)
      requires Sound() && c.version !in disk.releases && (c.version, pid) !in disk.staging
      modifies this`clock, this`disk, this`trace
      ensures Sound() && (outcome.Installed? || outcome.Failed?)
      ensures var built := Built(c, withRos, fetch, setup);
              && (disk.releases == old(disk).releases ||
                   (built.Some? && disk.releases == old(disk).releases[c.version := built.value]))
              && (outcome.Installed? ==>
                   built.Some? && disk == old(disk).(releases := old(disk).releases[c.version := built.value],
                     current := Some(c.version)))
              && (Quiet() ==> (outcome.Installed? <==> built.Some? && pid !in old(disk).temporaries))
      ensures Quiet() ==> disk == FreshEnd(c, pid, Built(c, withRos, fetch, setup), old(disk))
      ensures outcome.Installed? ==> |trace| >= 2 && trace[|trace| - 2] == Linked(disk, old(disk), pid, c.version)
      ensures outcome.Failed? ==> disk.current == old(disk).current
    {
      hide SafeFrom, Built, Sealed;
      var key := (c.version, pid);
      ghost var before := disk;
      var ok := Restage(key, map[]);
      if ok {
        ok := FillStaging(c, withRos, key, fetch, setup);
      }
      if ok {
        BuiltIsSealed(c, withRos, fetch, setup);
        ok := ReplaceRelease(key, c.version);
        assert disk.staging - {key} == before.staging - {key};
      }
      if ok {
        assert disk == before.(releases := before.releases[c.version := Built(c, withRos, fetch, setup).value]) by {
          KeyGone(before.staging, disk.staging, key);
        }
        ok := CurrentTarget(pid, c.version);
      }
      if !ok && key in disk.staging {
        var _ := RemoveStaging(key);
      }
      KeyGone(before.staging, disk.staging, key);
      return if ok then Installed else Failed;
    }

    /** The whole run. `fetch` and `setup` are what the network and the setup program do. */
    method RunInstaller(c: Installer, withRos: bool, pid: nat, fetch: nat -> Option<Content>,
        setup: Tree -> Option<Tree>) returns (outcome: Outcome)
      requires Sound() && start == disk
      modifies this`clock, this`disk, this`trace
      ensures Sound()
      ensures outcome.OptionRefused? <==> c.frozenRos == Some(!withRos)
      ensures outcome.OptionRefused? || outcome.ReleaseRefused? || outcome.StagingTaken? ==> disk == start
      // An existing release is never rebuilt: it is activated exactly when judged complete.
      ensures c.version in start.releases && !outcome.OptionRefused? ==>
                && (outcome.ReleaseRefused? || outcome.Activated? || outcome.Failed?)
                && disk.releases == start.releases && disk.staging == start.staging
                && (outcome.ReleaseRefused? <==> !JudgedComplete(c, withRos, start.releases[c.version]))
                && (outcome.Activated? ==> disk == start.(current := Some(c.version)))
                && (Quiet() ==> (outcome.Activated? <==>
                     JudgedComplete(c, withRos, start.releases[c.version]) && pid !in start.temporaries))
      // A fresh install publishes exactly the built tree, or nothing; past the rename only the link can be missing.
      ensures c.version !in start.releases && !outcome.OptionRefused? ==>
                && (outcome.StagingTaken? || outcome.Installed? || outcome.Failed?)
                && (outcome.StagingTaken? <==> (c.version, pid) in start.staging)
                && (disk.releases == start.releases ||
                    (Built(c, withRos, fetch, setup).Some? &&
                      disk.releases == start.releases[c.version := Built(c, withRos, fetch, setup).value]))
                && (outcome.Installed? ==>
                     Built(c, withRos, fetch, setup).Some? &&
                       disk == start.(releases := start.releases[c.version := Built(c, withRos, fetch, setup).value],
                         current := Some(c.version)))
                && (Quiet() ==> (outcome.Installed? <==>
                     (c.version, pid) !in start.staging && Built(c, withRos, fetch, setup).Some? &&
                       pid !in start.temporaries))
      // Without file errors the end is exactly this; on success the temporary link was there one operation before.
      ensures Quiet() ==> disk == QuietEnd(c, withRos, pid, fetch, setup, start)
      ensures outcome.Installed? || outcome.Activated? ==>
                |trace| >= 2 && trace[|trace| - 2] == Linked(disk, start, pid, c.version)
      ensures outcome.Failed? ==> disk.current == start.current
      // What is activated says that it is this installer's, with all its dependencies under the chosen option.
      ensures outcome.Installed? || outcome.Activated? ==>
                c.version in disk.releases && Attests(disk.releases[c.version], c, withRos)
    {
      hide SafeFrom, Built, JudgedComplete, Sealed, FreshEnd, Attests;
      if c.frozenRos == Some(!withRos) {
        return OptionRefused;
      }
      if c.version in disk.releases {
        if !JudgedComplete(c, withRos, disk.releases[c.version]) {
          return ReleaseRefused;
        }
        JudgedIsSealed(c, withRos, disk.releases[c.version]);
        JudgedExactly(c, withRos, disk.releases[c.version]);
        var activated := CurrentTarget(pid, c.version);
        return if activated then Activated else Failed;
      }
      var key := (c.version, pid);
      if key in disk.staging {
        return StagingTaken;
      }
      outcome := InstallFresh(c, withRos, pid, fetch, setup);
      if outcome.Installed? {
        BuiltAttests(c, withRos, fetch, setup);
      }
    }
  }

  /** The table of a tree's files, file by file; None when something in it is not a regular file. */
  method TableOf(tree: Tree) returns (table: Option<map<string, Digest>>)
    ensures table == if AllRegular(tree) then Some(ReleaseFiles(tree)) else None
  {
    var left, files: map<string, Digest> := tree.Keys, map[];
    while left != {}
      invariant left <= tree.Keys
      invariant forall name :: name in tree && name !in left ==> tree[name].Regular?
      invariant files.Keys == set name | name in tree && name !in left && !Bookkeeping(name)
      invariant forall name :: name in files ==> files[name] == Sha256(tree[name].content)
      decreases left
    {
      var name :| name in left;
      if !tree[name].Regular? {
        return None;
      }
      left := left - {name};
      if !Bookkeeping(name) {
        files := files[name := Sha256(tree[name].content)];
      }
    }
    assert AllRegular(tree) by {
      assert forall name :: name in tree ==> name !in left;
    }
    assert files.Keys == ReleaseFiles(tree).Keys;
    assert files == ReleaseFiles(tree);
    return Some(files);
  }

  lemma KeyGone(before: map<Key, Tree>, after: map<Key, Tree>, key: Key)
    requires key !in before && after - {key} == before - {key}
    ensures key !in after ==> after == before
  {
    assert before - {key} == before;
    assert key !in after ==> after - {key} == after;
  }

  lemma FetchSteps(tree: Tree, plan: seq<(string, Download)>, fetch: nat -> Option<Content>, i: nat)
    requires i < |plan| && Fetched(tree, plan[..i], fetch).Some?
    ensures Fetched(tree, plan[..i + 1], fetch) ==
              if fetch(i).None? || Sha256(fetch(i).value) != plan[i].1.sha256 then None
              else Some(Placed(Fetched(tree, plan[..i], fetch).value, plan[i], fetch(i).value))
    ensures Fetched(tree, plan[..i + 1], fetch).None? ==> Fetched(tree, plan, fetch).None?
  {
    assert plan[..i + 1][..i] == plan[..i];
    if Fetched(tree, plan[..i + 1], fetch).None? {
      FailedPrefix(tree, plan, fetch, i + 1);
    }
  }

  lemma {:induction false} FailedPrefix(tree: Tree, plan: seq<(string, Download)>, fetch: nat -> Option<Content>,
      i: nat)
    requires i <= |plan| && Fetched(tree, plan[..i], fetch).None?
    ensures Fetched(tree, plan, fetch).None?
  {
    if i < |plan| {
      assert plan[..|plan| - 1][..i] == plan[..i];
      FailedPrefix(tree, plan[..|plan| - 1], fetch, i);
    } else {
      assert plan[..i] == plan;
    }
  }

  /** Extraction reads the archive member by member; a refused prefix refuses the whole archive. */
  lemma PrefixSteps(archive: seq<Member>, files: map<string, Digest>, i: nat)
    requires i < |archive| && ExtractAll(archive[..i], files, map[]).Some?
    ensures var before, m := ExtractAll(archive[..i], files, map[]).value, archive[i];
            && ExtractAll(archive[..i + 1], files, map[]) ==
                 (if !Admissible(m, files, Names(archive[..i])) || m.name in before ||
                   Sha256(m.content) != files[m.name] then None
                  else Some(before[m.name := Regular(m.content, Permissions(m.mode))]))
            && Names(archive[..i + 1]) == Names(archive[..i]) + {m.name}
            && (ExtractAll(archive[..i + 1], files, map[]).None? ==> ExtractAll(archive, files, map[]).None?)
  {
    hide Admissible, Names, Permissions, ExtractAll;
    assert archive[..i + 1] == archive[..i] + [archive[i]];
    ExtractStep(archive[..i], archive[i], files);
    NamesSnoc(archive[..i], archive[i]);
    if ExtractAll(archive[..i + 1], files, map[]).None? {
      RefusedPrefix(archive, files, i + 1);
    }
  }

  lemma ExtractStep(front: seq<Member>, m: Member, files: map<string, Digest>)
    requires ExtractAll(front, files, map[]).Some?
    ensures var before := ExtractAll(front, files, map[]).value;
            ExtractAll(front + [m], files, map[]) ==
              if !Admissible(m, files, Names(front)) || m.name in before || Sha256(m.content) != files[m.name] then None
              else Some(before[m.name := Regular(m.content, Permissions(m.mode))])
  {
    hide Names, Permissions, SafeName;
    assert (front + [m])[..|front|] == front;
  }

  lemma {:induction false} RefusedPrefix(archive: seq<Member>, files: map<string, Digest>, i: nat)
    requires i <= |archive| && ExtractAll(archive[..i], files, map[]).None?
    ensures ExtractAll(archive, files, map[]).None?
  {
    if i < |archive| {
      var front := archive[..|archive| - 1];
      assert front[..i] == archive[..i];
      RefusedPrefix(front, files, i);
    } else {
      assert archive[..i] == archive;
    }
  }

  /** Runs compose: safety from one disk to the next carries over any number of runs and crashes. */
  lemma SafeTransitive(a: Disk, b: Disk, c: Disk)
    requires SafeFrom(a, b) && SafeFrom(b, c)
    ensures SafeFrom(a, c)
  {
    hide Sealed;
  }

  /** Any number of runs, each stopped at any of its crash points before the next one starts. */
  lemma {:induction false} ManyRunsAreSafe(disks: seq<Disk>)
    requires disks != [] && forall i :: 0 <= i < |disks| - 1 ==> SafeFrom(disks[i], disks[i + 1])
    ensures SafeFrom(disks[0], disks[|disks| - 1])
  {
    hide SafeFrom;
    if |disks| == 1 {
      SafeSelf(disks[0]);
    } else {
      ManyRunsAreSafe(disks[..|disks| - 1]);
      assert SafeFrom(disks[|disks| - 2], disks[|disks| - 2 + 1]);
      SafeTransitive(disks[0], disks[|disks| - 2], disks[|disks| - 1]);
    }
  }

  /** One start of an installer, and after which of its file operations it is stopped. */
  datatype Launch = Launch(
    c: Installer,
    withRos: bool,
    pid: nat,
    faults: nat -> bool,
    torn: nat -> Tree,
    fetch: nat -> Option<Content>,
    setup: Tree -> Option<Tree>,
    stoppedAfter: Option<nat>)

  ghost predicate Undisturbed(l: Launch) {
    forall n :: !l.faults(n)
  }

  /** The disk on which a launch leaves the root: the one it is stopped at, or else its last. */
  function LeftOn(l: Launch, recorded: seq<Disk>): Disk
    requires recorded != []
  {
    if l.stoppedAfter.Some? && l.stoppedAfter.value < |recorded| then recorded[l.stoppedAfter.value]
    else recorded[|recorded| - 1]
  }

  /** The disks recorded by one launch, beginning with the one it found. */
  ghost predicate RecordedBy(l: Launch, before: Disk, recorded: seq<Disk>) {
    && recorded != [] && recorded[0] == before
    && (forall i :: 0 <= i < |recorded| ==> SafeFrom(before, recorded[i]))
    && (Undisturbed(l) ==>
          recorded[|recorded| - 1] == QuietEnd(l.c, l.withRos, l.pid, l.fetch, l.setup, before))
  }

  /** One launch on one disk. */
  method RunOne(l: Launch, before: Disk) returns (recorded: seq<Disk>)
    ensures RecordedBy(l, before, recorded)
  {
    hide SafeFrom, QuietEnd;
    SafeSelf(before);
    var root := new InstallRoot(before, l.faults, l.torn);
    var _ := root.RunInstaller(l.c, l.withRos, l.pid, l.fetch, l.setup);
    recorded := [before] + root.trace;
  }

  /**
   Any installers run one after another on one root, each stopped anywhere or left to its end. Every
   launch starts where the one before it was left, and an undisturbed one ends exactly where it should.
   */
  method RunMany(first: Disk, launches: seq<Launch>) returns (disks: seq<Disk>, records: seq<seq<Disk>>)
    ensures |disks| == |launches| + 1 && |records| == |launches| && disks[0] == first
    ensures forall k :: 0 <= k < |launches| ==>
              RecordedBy(launches[k], disks[k], records[k]) && disks[k + 1] == LeftOn(launches[k], records[k])
    ensures forall i, j :: 0 <= i <= j < |disks| ==> SafeFrom(disks[i], disks[j])
  {
    hide SafeFrom, QuietEnd, Undisturbed;
    disks, records := [first], [];
    for k := 0 to |launches|
      invariant |disks| == k + 1 && |records| == k && disks[0] == first
      invariant forall i :: 0 <= i < k ==>
                  RecordedBy(launches[i], disks[i], records[i]) && disks[i + 1] == LeftOn(launches[i], records[i])
    {
      var recorded := RunOne(launches[k], disks[k]);
      disks, records := disks + [LeftOn(launches[k], recorded)], records + [recorded];
    }
    forall i | 0 <= i < |launches| ensures SafeFrom(disks[i], disks[i + 1]) {
      assert RecordedBy(launches[i], disks[i], records[i]);
    }
    forall i, j | 0 <= i <= j < |disks| ensures SafeFrom(disks[i], disks[j]) {
      ManyRunsAreSafe(disks[i..j + 1]);
    }
  }

  lemma SafeSelf(d: Disk)
    ensures SafeFrom(d, d)
  {
  }

  /**
   A crash came after the rename, so the release this installer built is in place. Running the same
   installer again, whatever the network and setup would do now, builds nothing. It activates the
   release exactly when the first setup kept the expected files, none of them has a bookkeeping name,
   and no stale link of the new process is in the way.
   */
  method RerunAfterRename(c: Installer, withRos: bool, fetch: nat -> Option<Content>, setup: Tree -> Option<Tree>,
                          crash: Disk, pid: nat, fetchNow: nat -> Option<Content>, setupNow: Tree -> Option<Tree>)
    returns (outcome: Outcome, disk: Disk)
    requires c.frozenRos != Some(!withRos) && Built(c, withRos, fetch, setup).Some?
    requires c.version in crash.releases && crash.releases[c.version] == Built(c, withRos, fetch, setup).value
    ensures disk.releases == crash.releases && disk.staging == crash.staging
    ensures outcome.Activated? ==> disk == crash.(current := Some(c.version))
    ensures var after := AfterSetup(c, Gathered(c, withRos, fetch).value, setup).value;
            outcome.Activated? <==>
              && VerifyExpected(after, ExpectedFiles(c, withRos))
              && (forall name :: name in ExpectedFiles(c, withRos) ==> !Bookkeeping(name))
              && pid !in crash.temporaries
  {
    BuiltIsJudgedComplete(c, withRos, fetch, setup);
    SafeSelf(crash);
    hide SafeFrom, JudgedComplete, VerifyExpected, ExpectedFiles, AllRegular, Stamped;
    var root := new InstallRoot(crash, n => false, n => map[]);
    outcome := root.RunInstaller(c, withRos, pid, fetchNow, setupNow);
    disk := root.disk;
  }
}
