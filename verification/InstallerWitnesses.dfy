/**
 Inputs on which the installer and its reference judgement do less than their names suggest. Each is an
 installer that the packer makes of a one-file directory, and its build completes.
 */
module InstallerWitnesses {
  import opened Basics
  import opened InstallerModel
  import opened InstallerBuild
  import opened InstallerRun

  const SETUP_NAME := "setup.py"
  const EMPTY_FILE := Raw([])

  function OneFile(name: string): seq<Candidate> {
    [File(name, EMPTY_FILE, 420)]
  }

  /** The installer packed from a directory with one file. */
  function PackedFrom(name: string, version: string, gitSha: string, archiveDigest: Digest, dependencies: seq<Download>,
      setup: Option<string>): Installer {
    Installer(version, gitSha, None, None, dependencies, [], setup, Archive(OneFile(name)), Table(OneFile(name)),
              archiveDigest)
  }

  /** A relative name without two dots in a row is safe. */
  lemma NoParent(name: string)
    requires name != "" && name[0] != '/' && forall i :: 0 <= i < |name| - 1 ==> name[i] != '.' || name[i + 1] != '.'
    ensures SafeName(name)
  {
    forall i, j | 0 <= i <= j <= |name| && Component(name, i, j) ensures name[i..j] != ".." {
      if j - i == 2 {
        assert name[i..j][0] == name[i] && name[i..j][1] == name[i + 1];
      }
    }
  }

  /** The packer accepts the directory, and extraction gives it back. */
  lemma OneFilePacks(name: string)
    requires SafeName(name)
    ensures PackRefusal(OneFile(name)[0]).None?
    ensures Table(OneFile(name)) == map[name := Sha256(EMPTY_FILE)]
    ensures Extract(Archive(OneFile(name)), Table(OneFile(name))) == Some(map[name := Regular(EMPTY_FILE, 420)])
  {
    var listing := OneFile(name);
    assert listing[..0] == [];
    assert FilesOf(listing) == map[name := Regular(EMPTY_FILE, 420)] by {
      hide SafeName, Archive, Table;
    }
    assert Table(listing) == map[name := Sha256(EMPTY_FILE)] by {
      hide SafeName, Archive, FilesOf;
    }
    hide Extract, Archive, Table, FilesOf;
    PackExtractRoundTrip(listing);
  }

  lemma GathersAlone(c: Installer, name: string, fetch: nat -> Option<Content>)
    requires c == PackedFrom(name, c.version, c.gitSha, c.archiveDigest, [], None)
    requires SafeName(name) && name != INDEX_NAME
    ensures Gathered(c, false, fetch).Some? && AllRegular(Gathered(c, false, fetch).value)
    ensures Matches(Gathered(c, false, fetch).value, name, Sha256(EMPTY_FILE))
    ensures ExpectedFiles(c, false) == map[name := Sha256(EMPTY_FILE)]
  {
    OneFilePacks(name);
    hide SafeName, Extract, Archive, Table;
    assert Plan(c, false) == [];
    assert ExpectedFiles(c, false) == c.projectFiles;
  }

  // ----- a project file with the manifest's name -----

  /** Every install of it completes its build, and every rerun of the same installer refuses the release. */
  lemma BookkeepingNameBreaksRerun(
    version: string, gitSha: string, archiveDigest: Digest, fetch: nat -> Option<Content>, setup: Tree -> Option<Tree>)
    ensures PackRefusal(OneFile(MANIFEST_NAME)[0]).None?
    ensures var c := PackedFrom(MANIFEST_NAME, version, gitSha, archiveDigest, [], None);
            var built := Built(c, false, fetch, setup);
            built.Some? && Sealed(built.value) && !JudgedComplete(c, false, built.value)
  {
    var c := PackedFrom(MANIFEST_NAME, version, gitSha, archiveDigest, [], None);
    NoParent(MANIFEST_NAME);
    OneFilePacks(MANIFEST_NAME);
    GathersAlone(c, MANIFEST_NAME, fetch);
    hide SafeName, PackRefusal, Gathered, ExpectedFiles, Sealed, JudgedComplete, Stamped;
    BuiltIsSealed(c, false, fetch, setup);
    BuiltIsJudgedComplete(c, false, fetch, setup);
    assert MANIFEST_NAME in ExpectedFiles(c, false) && Bookkeeping(MANIFEST_NAME);
  }

  // ----- setup removes a dependency -----

  const WHEEL := Download("d", "MIT", "d.whl", Sha256(EMPTY_FILE))
  const WHEEL_PATH := "dependencies/d.whl"

  function WithWheel(version: string, gitSha: string, archiveDigest: Digest): Installer {
    PackedFrom(SETUP_NAME, version, gitSha, archiveDigest, [WHEEL], Some(SETUP_NAME))
  }

  /** A setup program that consumes the wheel. */
  function RemoveWheel(tree: Tree): Option<Tree> {
    Some(tree - {WHEEL_PATH})
  }

  lemma SetupIsSafe()
    ensures SafeName(SETUP_NAME)
  {
    NoParent(SETUP_NAME);
  }

  /** What the wheel adds to the plan, the records and the expected files. */
  lemma WheelPlan(c: Installer)
    requires c == WithWheel(c.version, c.gitSha, c.archiveDigest)
    ensures Plan(c, false) == [(WHEEL_PATH, WHEEL)]
    ensures Records(Selected(c, false)) == [Dependency("d", "MIT", WHEEL_PATH, Sha256(EMPTY_FILE))]
    ensures ExpectedFiles(c, false) == map[WHEEL_PATH := Sha256(EMPTY_FILE)] + c.projectFiles
  {
    hide Archive, Table;
    assert "dependencies/" + "d.whl" == WHEEL_PATH;
    assert Selected(c, false) == [WHEEL];
    var records := Records(Selected(c, false));
    assert records == [Dependency("d", "MIT", WHEEL_PATH, Sha256(EMPTY_FILE))];
    assert records[..0] == [];
    assert RecordTable(records) == map[WHEEL_PATH := Sha256(EMPTY_FILE)];
  }

  lemma WheelGathers(c: Installer, fetch: nat -> Option<Content>)
    requires c == WithWheel(c.version, c.gitSha, c.archiveDigest) && fetch(0) == Some(EMPTY_FILE)
    ensures Gathered(c, false, fetch).Some? && AllRegular(Gathered(c, false, fetch).value)
    ensures MaySetUp(c, Gathered(c, false, fetch).value)
    ensures Records(Selected(c, false)) == [Dependency("d", "MIT", WHEEL_PATH, Sha256(EMPTY_FILE))]
  {
    hide SafeName, Extract, Archive, Table, Plan, Selected, Records, ExpectedFiles, Fetched, Placed, OneFile, Gathered;
    SetupIsSafe();
    OneFilePacks(SETUP_NAME);
    WheelPlan(c);
    var extracted := map[SETUP_NAME := Regular(EMPTY_FILE, 420)];
    var fetched := extracted[WHEEL_PATH := Regular(EMPTY_FILE, 420)];
    FetchedOne(extracted, (WHEEL_PATH, WHEEL), fetch);
    PlacedOne(extracted, EMPTY_FILE);
    GatheredFrom(c, extracted, fetched, fetch);
  }

  lemma GatheredFrom(c: Installer, extracted: Tree, fetched: Tree, fetch: nat -> Option<Content>)
    requires Extract(c.archive, c.projectFiles) == Some(extracted)
    requires Fetched(extracted, Plan(c, false), fetch) == Some(fetched) && INDEX_NAME !in fetched
    requires INDEX_NAME !in ExpectedFiles(c, false) && VerifyExpected(fetched, ExpectedFiles(c, false))
    ensures Gathered(c, false, fetch) ==
              Some(fetched[INDEX_NAME := Regular(IndexText(Records(Selected(c, false))), 420)])
  {
    hide Extract, Plan, Selected, Records, ExpectedFiles, Fetched;
  }

  lemma PlacedOne(tree: Tree, content: Content)
    ensures Placed(tree, (WHEEL_PATH, WHEEL), content) == tree[WHEEL_PATH := Regular(content, 420)]
  {
  }

  lemma FetchedOne(tree: Tree, item: (string, Download), fetch: nat -> Option<Content>)
    requires fetch(0).Some? && Sha256(fetch(0).value) == item.1.sha256
    ensures Fetched(tree, [item], fetch) == Some(Placed(tree, item, fetch(0).value))
  {
    assert [item][..0] == [];
  }

  /** The install completes and seals a release whose own manifest the reference judgement refuses with an exception. */
  lemma RemovedDependencyIsRefused(
    version: string, gitSha: string, archiveDigest: Digest, fetch: nat -> Option<Content>)
    requires fetch(0) == Some(EMPTY_FILE)
    ensures PackRefusal(OneFile(SETUP_NAME)[0]).None?
    ensures var built := Built(WithWheel(version, gitSha, archiveDigest), false, fetch, RemoveWheel);
            && built.Some? && Sealed(built.value)
            && InspectRelease(Some(built.value), built.value[MANIFEST_NAME].content.manifest) == None
  {
    var c := WithWheel(version, gitSha, archiveDigest);
    SetupIsSafe();
    OneFilePacks(SETUP_NAME);
    WheelGathers(c, fetch);
    hide SafeName, PackRefusal, Gathered, MaySetUp, Stamped, Sealed, InspectRelease, Records, Selected;
    var after := RemoveWheel(Gathered(c, false, fetch).value).value;
    InspectOwnRelease(c, false, after);
    assert !Matches(after, WHEEL_PATH, Sha256(EMPTY_FILE));
    assert Records(Selected(c, false))[0].filename == WHEEL_PATH;
  }

  // ----- a temporary link left behind -----

  function Plain(version: string, gitSha: string, archiveDigest: Digest): Installer {
    PackedFrom(SETUP_NAME, version, gitSha, archiveDigest, [], None)
  }

  lemma PlainBuilds(c: Installer, fetch: nat -> Option<Content>, setup: Tree -> Option<Tree>)
    requires c == Plain(c.version, c.gitSha, c.archiveDigest)
    ensures Built(c, false, fetch, setup).Some? && JudgedComplete(c, false, Built(c, false, fetch, setup).value)
  {
    SetupIsSafe();
    GathersAlone(c, SETUP_NAME, fetch);
    hide SafeName, Gathered, ExpectedFiles, JudgedComplete, Stamped;
    BuiltIsJudgedComplete(c, false, fetch, setup);
  }

  /**
   A run without file errors is stopped one operation before its end, when its temporary link is in
   place. Every rerun in a process of the same number finds a complete release and still fails, leaving
   the disk as it is; a process of another number activates it.
   */
  method StaleLinkBlocksRerun(
    first: Disk, version: string, gitSha: string, archiveDigest: Digest, pid: nat, other: nat,
    fetch: nat -> Option<Content>, setup: Tree -> Option<Tree>)
    returns (stopped: Disk, blocked: Outcome, last: Disk, activated: Outcome)
    requires version !in first.releases && (version, pid) !in first.staging
    requires pid !in first.temporaries && other !in first.temporaries && other != pid
    ensures var c := Plain(version, gitSha, archiveDigest);
            && version in stopped.releases && JudgedComplete(c, false, stopped.releases[version])
            && stopped.current == first.current && stopped.temporaries == first.temporaries[pid := version]
    ensures blocked.Failed? && last == stopped
    ensures activated.Activated?
  {
    hide SafeFrom, Built, JudgedComplete;
    var c := Plain(version, gitSha, archiveDigest);
    PlainBuilds(c, fetch, setup);
    SafeSelf(first);
    var install := new InstallRoot(first, n => false, n => map[]);
    var _ := install.RunInstaller(c, false, pid, fetch, setup);
    stopped := install.trace[|install.trace| - 2];
    SafeSelf(stopped);
    var rerun := new InstallRoot(stopped, n => false, n => map[]);
    blocked := rerun.RunInstaller(c, false, pid, fetch, setup);
    last := rerun.disk;
    var another := new InstallRoot(stopped, n => false, n => map[]);
    activated := another.RunInstaller(c, false, other, fetch, setup);
  }
}
