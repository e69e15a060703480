/**
 What a fresh install builds before anything is published: the gathered tree, the release it is stamped
 into, and, item by item, what both hold of the frozen lists.
 */
module InstallerBuild {
  import opened Basics
  import opened InstallerModel

  // ----- what a run builds -----

  /** Every download with the path it goes to. */
  function Plan(c: Installer, withRos: bool): seq<(string, Download)> {
    var selected := Selected(c, withRos);
    (if c.payload.Some? then [(c.payload.value.filename, c.payload.value)] else [])
    + seq(|selected|, i requires 0 <= i < |selected| => ("dependencies/" + selected[i].filename, selected[i]))
  }

  function Placed(tree: Tree, item: (string, Download), content: Content): Tree {
    tree[item.0 := Regular(content, if item.1.name == "micromamba" then 493 else 420)]
  }

  /**
   The tree once the first downloads are in; `fetch` gives what the i-th one brings, None after three
   transport errors.
   */
  function Fetched(tree: Tree, plan: seq<(string, Download)>, fetch: nat -> Option<Content>): Option<Tree> {
    if plan == [] then Some(tree)
    else
      var n := |plan| - 1;
      var before := Fetched(tree, plan[..n], fetch);
      if before.None? || fetch(n).None? || Sha256(fetch(n).value) != plan[n].1.sha256 then None
      else Some(Placed(before.value, plan[n], fetch(n).value))
  }

  /** The staging tree before setup. */
  function Gathered(c: Installer, withRos: bool, fetch: nat -> Option<Content>): Option<Tree> {
    var extracted := Extract(c.archive, c.projectFiles);
    if extracted.None? then None
    else
      var fetched := Fetched(extracted.value, Plan(c, withRos), fetch);
      if fetched.None? || INDEX_NAME in fetched.value then None
      else
        var tree := fetched.value[INDEX_NAME := Regular(IndexText(Records(Selected(c, withRos))), 420)];
        if VerifyExpected(tree, ExpectedFiles(c, withRos)) then Some(tree) else None
  }

  predicate MaySetUp(c: Installer, tree: Tree) {
    c.setup.Some? ==> c.setup.value in c.projectFiles && Matches(tree, c.setup.value, c.projectFiles[c.setup.value])
  }

  /** Setup is an arbitrary change of the tree, or a failure. */
  function AfterSetup(c: Installer, tree: Tree, setup: Tree -> Option<Tree>): Option<Tree> {
    if c.setup.None? then Some(tree)
    else if !MaySetUp(c, tree) then None
    else setup(tree)
  }

  /** The tree a fresh install turns into a release, when nothing raises. */
  function Built(c: Installer, withRos: bool, fetch: nat -> Option<Content>,
      setup: Tree -> Option<Tree>): Option<Tree> {
    var gathered := Gathered(c, withRos, fetch);
    if gathered.None? then None
    else
      var after := AfterSetup(c, gathered.value, setup);
      if after.None? || !AllRegular(after.value) then None else Some(Stamped(c, withRos, after.value))
  }

  lemma BuiltIsSealed(c: Installer, withRos: bool, fetch: nat -> Option<Content>, setup: Tree -> Option<Tree>)
    requires Built(c, withRos, fetch, setup).Some?
    ensures Sealed(Built(c, withRos, fetch, setup).value)
  {
    StampedIsSealed(c, withRos, AfterSetup(c, Gathered(c, withRos, fetch).value, setup).value);
  }

  /** A rerun judges what this run built complete, if setup keeps the expected files and none is a bookkeeping name. */
  lemma BuiltIsJudgedComplete(c: Installer, withRos: bool, fetch: nat -> Option<Content>, setup: Tree -> Option<Tree>)
    requires Built(c, withRos, fetch, setup).Some?
    ensures var after := AfterSetup(c, Gathered(c, withRos, fetch).value, setup).value;
            JudgedComplete(c, withRos, Built(c, withRos, fetch, setup).value) <==>
              VerifyExpected(after, ExpectedFiles(c, withRos)) && forall name :: name in ExpectedFiles(c, withRos) ==>
                !Bookkeeping(name)
  {
    RerunIsComplete(c, withRos, AfterSetup(c, Gathered(c, withRos, fetch).value, setup).value);
  }

  // ----- the frozen lists, item by item -----

  /** The last of some downloads that goes to a path below "dependencies/". */
  function LastFor(downloads: seq<Download>, path: string): Option<Digest> {
    if downloads == [] then None
    else
      var last := downloads[|downloads| - 1];
      if "dependencies/" + last.filename == path then Some(last.sha256)
      else LastFor(downloads[..|downloads| - 1], path)
  }

  /** The digest a path must have before setup: that of the project file, or of the last download to it. */
  function Wanted(c: Installer, withRos: bool, path: string): Option<Digest> {
    if path in c.projectFiles then Some(c.projectFiles[path])
    else if withRos && LastFor(c.rosDependencies, path).Some? then LastFor(c.rosDependencies, path)
    else if LastFor(c.dependencies, path).Some? then LastFor(c.dependencies, path)
    else if c.payload.Some? && c.payload.value.filename == path then Some(c.payload.value.sha256)
    else None
  }

  function RosCount(c: Installer, withRos: bool): nat {
    if withRos then |c.rosDependencies| else 0
  }

  predicate RecordOf(r: Dependency, d: Download) {
    r.name == d.name && r.license == d.license && r.filename == "dependencies/" + d.filename && r.sha256 == d.sha256
  }

  /** The records are those of the dependencies, then with ROS those of the ROS dependencies, in order, and no more. */
  predicate ListsAll(records: seq<Dependency>, c: Installer, withRos: bool) {
    && |records| == |c.dependencies| + RosCount(c, withRos)
    && (forall i :: 0 <= i < |c.dependencies| ==> RecordOf(records[i], c.dependencies[i]))
    && (forall i :: 0 <= i < RosCount(c, withRos) ==> RecordOf(records[|c.dependencies| + i], c.rosDependencies[i]))
  }

  predicate ListsDigests(pairs: seq<(string, Digest)>, c: Installer, withRos: bool) {
    && |pairs| == |c.dependencies| + RosCount(c, withRos)
    && (forall i :: 0 <= i < |c.dependencies| ==> pairs[i] == (c.dependencies[i].name, c.dependencies[i].sha256))
    && (forall i :: 0 <= i < RosCount(c, withRos) ==>
          pairs[|c.dependencies| + i] == (c.rosDependencies[i].name, c.rosDependencies[i].sha256))
  }

  /** The manifest names this installer, its option and its dependencies. */
  predicate Identifies(m: Manifest, c: Installer, withRos: bool) {
    && m.version == c.version && m.gitSha == c.gitSha && m.withRos == withRos
    && m.payloadDigest == (if c.payload.Some? then c.payload.value.sha256 else c.archiveDigest)
    && ListsAll(m.dependencies, c, withRos)
  }

  /** The state names the same, and the manifest by its digest. */
  predicate Confirms(s: InstallState, manifest: Content, c: Installer, withRos: bool) {
    && s.version == c.version && s.gitSha == c.gitSha && s.withRos == withRos
    && s.manifestDigest == Sha256(manifest) && ListsDigests(s.dependencies, c, withRos)
  }

  lemma SelectedAre(c: Installer, withRos: bool)
    ensures ListsAll(Records(Selected(c, withRos)), c, withRos)
    ensures ListsDigests(StateFor(c, withRos, Raw([])).dependencies, c, withRos)
  {
  }

  /** Two record lists with the same entries are equal. */
  lemma ListsAllUnique(a: seq<Dependency>, b: seq<Dependency>, c: Installer, withRos: bool)
    requires ListsAll(a, c, withRos) && ListsAll(b, c, withRos)
    ensures a == b
  {
    forall i | 0 <= i < |a| ensures a[i] == b[i] {
      if i >= |c.dependencies| {
        var j := i - |c.dependencies|;
        assert RecordOf(a[|c.dependencies| + j], c.rosDependencies[j]);
        assert RecordOf(b[|c.dependencies| + j], c.rosDependencies[j]);
      }
    }
  }

  lemma ListsDigestsUnique(a: seq<(string, Digest)>, b: seq<(string, Digest)>, c: Installer, withRos: bool)
    requires ListsDigests(a, c, withRos) && ListsDigests(b, c, withRos)
    ensures a == b
  {
    forall i | 0 <= i < |a| ensures a[i] == b[i] {
      if i >= |c.dependencies| {
        var j := i - |c.dependencies|;
        var pair := (c.rosDependencies[j].name, c.rosDependencies[j].sha256);
        assert a[|c.dependencies| + j] == pair;
        assert b[|c.dependencies| + j] == pair;
      }
    }
  }

  lemma {:induction false} TableIsLast(downloads: seq<Download>, path: string)
    ensures path in RecordTable(Records(downloads)) <==> LastFor(downloads, path).Some?
    ensures path in RecordTable(Records(downloads)) ==>
              RecordTable(Records(downloads))[path] == LastFor(downloads, path).value
  {
    if downloads != [] {
      var front := downloads[..|downloads| - 1];
      TableIsLast(front, path);
      var records := Records(downloads);
      assert records[..|records| - 1] == Records(front);
    }
  }

  lemma {:induction false} LastOfBoth(a: seq<Download>, b: seq<Download>, path: string)
    ensures LastFor(a + b, path) == if LastFor(b, path).Some? then LastFor(b, path) else LastFor(a, path)
  {
    if b == [] {
      assert a + b == a;
    } else {
      LastOfBoth(a, b[..|b| - 1], path);
      assert (a + b)[..|a + b| - 1] == a + b[..|b| - 1];
    }
  }

  /** The table of expected files holds exactly what is wanted. */
  lemma ExpectedIsWanted(c: Installer, withRos: bool, path: string)
    ensures path in ExpectedFiles(c, withRos) <==> Wanted(c, withRos, path).Some?
    ensures path in ExpectedFiles(c, withRos) ==> ExpectedFiles(c, withRos)[path] == Wanted(c, withRos, path).value
  {
    hide Records, RecordTable, LastFor;
    TableIsLast(Selected(c, withRos), path);
    if withRos {
      LastOfBoth(c.dependencies, c.rosDependencies, path);
    } else {
      assert Selected(c, withRos) == c.dependencies;
    }
  }

  // ----- the downloads, one by one -----

  /** Where download number n goes: the payload to its own name, then the dependencies, then those of ROS. */
  function DownloadAt(c: Installer, n: nat): Option<(string, Download)> {
    if c.payload.Some? && n == 0 then Some((c.payload.value.filename, c.payload.value))
    else
      var i := if c.payload.Some? then n - 1 else n;
      if i < |c.dependencies| then Some(("dependencies/" + c.dependencies[i].filename, c.dependencies[i]))
      else if i - |c.dependencies| < |c.rosDependencies| then
        var d := c.rosDependencies[i - |c.dependencies|];
        Some(("dependencies/" + d.filename, d))
      else None
  }

  function DownloadCount(c: Installer, withRos: bool): nat {
    (if c.payload.Some? then 1 else 0) + |c.dependencies| + RosCount(c, withRos)
  }

  lemma PlanIs(c: Installer, withRos: bool)
    ensures |Plan(c, withRos)| == DownloadCount(c, withRos)
    ensures forall n :: 0 <= n < DownloadCount(c, withRos) ==> DownloadAt(c, n) == Some(Plan(c, withRos)[n])
  {
  }

  /** No later download goes to the same path. */
  predicate LastAt(plan: seq<(string, Download)>, n: nat)
    requires n < |plan|
  {
    forall k :: n < k < |plan| ==> plan[k].0 != plan[n].0
  }

  /** Only the micromamba binary is executable. */
  function DownloadMode(d: Download): nat {
    if d.name == "micromamba" then 0x1ED else 0x1A4
  }

  ghost predicate ArrivedAll(plan: seq<(string, Download)>, fetch: nat -> Option<Content>) {
    forall n :: 0 <= n < |plan| ==> fetch(n).Some? && Sha256(fetch(n).value) == plan[n].1.sha256
  }

  /** The paths are those of the tree and of the plan. */
  ghost predicate PathsAre(tree: Tree, plan: seq<(string, Download)>, r: Tree) {
    forall path :: path in r <==> path in tree || exists n :: 0 <= n < |plan| && plan[n].0 == path
  }

  /** The last download to a path is what is there. */
  ghost predicate LastHolds(plan: seq<(string, Download)>, fetch: nat -> Option<Content>, r: Tree)
    requires ArrivedAll(plan, fetch)
  {
    forall n :: 0 <= n < |plan| && LastAt(plan, n) ==>
      plan[n].0 in r && r[plan[n].0] == Regular(fetch(n).value, DownloadMode(plan[n].1))
  }

  /** What no download goes to is as it was. */
  ghost predicate RestStays(tree: Tree, plan: seq<(string, Download)>, r: Tree) {
    forall path :: path in tree && (forall n :: 0 <= n < |plan| ==> plan[n].0 != path) ==>
      path in r && r[path] == tree[path]
  }

  ghost predicate FetchedAs(tree: Tree, plan: seq<(string, Download)>, fetch: nat -> Option<Content>, r: Tree)
    requires ArrivedAll(plan, fetch)
  {
    PathsAre(tree, plan, r) && LastHolds(plan, fetch, r) && RestStays(tree, plan, r)
  }

  /** Every download arrived with its digest, the last one to a path is what is there, and nothing else changed. */
  lemma {:induction false} FetchedExactly(tree: Tree, plan: seq<(string, Download)>, fetch: nat -> Option<Content>)
    ensures Fetched(tree, plan, fetch).Some? <==> ArrivedAll(plan, fetch)
    ensures Fetched(tree, plan, fetch).Some? ==> FetchedAs(tree, plan, fetch, Fetched(tree, plan, fetch).value)
  {
    hide FetchedAs, ArrivedAll, Fetched;
    if plan == [] {
      NothingFetched(tree, fetch);
    } else {
      var front := plan[..|plan| - 1];
      FetchedExactly(tree, front, fetch);
      FetchedStep(tree, plan, fetch);
      ArrivedSnoc(plan, fetch);
      if ArrivedAll(plan, fetch) {
        FetchedLast(tree, plan, fetch, Fetched(tree, front, fetch).value);
      }
    }
  }

  lemma NothingFetched(tree: Tree, fetch: nat -> Option<Content>)
    ensures ArrivedAll([], fetch) && Fetched(tree, [], fetch) == Some(tree) && FetchedAs(tree, [], fetch, tree)
  {
  }

  lemma FetchedStep(tree: Tree, plan: seq<(string, Download)>, fetch: nat -> Option<Content>)
    requires plan != []
    ensures var m := |plan| - 1;
            var before := Fetched(tree, plan[..m], fetch);
            Fetched(tree, plan, fetch) ==
              if before.None? || fetch(m).None? || Sha256(fetch(m).value) != plan[m].1.sha256 then None
              else Some(before.value[plan[m].0 := Regular(fetch(m).value, DownloadMode(plan[m].1))])
  {
  }

  lemma ArrivedSnoc(plan: seq<(string, Download)>, fetch: nat -> Option<Content>)
    requires plan != []
    ensures var m := |plan| - 1;
            ArrivedAll(plan, fetch) <==>
              ArrivedAll(plan[..m], fetch) && fetch(m).Some? && Sha256(fetch(m).value) == plan[m].1.sha256
  {
    var front := plan[..|plan| - 1];
    assert forall n :: 0 <= n < |front| ==> front[n] == plan[n];
  }

  lemma PathsSnoc(tree: Tree, plan: seq<(string, Download)>, before: Tree, node: Node)
    requires plan != [] && PathsAre(tree, plan[..|plan| - 1], before)
    ensures PathsAre(tree, plan, before[plan[|plan| - 1].0 := node])
  {
    var m := |plan| - 1;
    var front, r := plan[..m], before[plan[m].0 := node];
    forall path | path in r ensures path in tree || exists n :: 0 <= n < |plan| && plan[n].0 == path {
      if path == plan[m].0 {
      } else if path !in tree {
        var n :| 0 <= n < |front| && front[n].0 == path;
        assert plan[n].0 == path;
      }
    }
    forall n | 0 <= n < |plan| ensures plan[n].0 in r {
      assert n < m ==> front[n].0 == plan[n].0;
    }
  }

  lemma LastSnoc(plan: seq<(string, Download)>, fetch: nat -> Option<Content>, before: Tree)
    requires plan != [] && ArrivedAll(plan, fetch) && ArrivedAll(plan[..|plan| - 1], fetch)
    requires LastHolds(plan[..|plan| - 1], fetch, before)
    ensures var m := |plan| - 1;
            LastHolds(plan, fetch, before[plan[m].0 := Regular(fetch(m).value, DownloadMode(plan[m].1))])
  {
    hide DownloadMode;
    var m := |plan| - 1;
    var front := plan[..m];
    forall n | 0 <= n < m && LastAt(plan, n)
      ensures plan[n].0 != plan[m].0 && plan[n].0 in before
      ensures before[plan[n].0] == Regular(fetch(n).value, DownloadMode(plan[n].1))
    {
      assert front[n] == plan[n] && LastAt(front, n);
    }
  }

  lemma RestSnoc(tree: Tree, plan: seq<(string, Download)>, before: Tree, node: Node)
    requires plan != [] && RestStays(tree, plan[..|plan| - 1], before)
    ensures RestStays(tree, plan, before[plan[|plan| - 1].0 := node])
  {
    var m := |plan| - 1;
    var front, r := plan[..m], before[plan[m].0 := node];
    forall path | path in tree && (forall n :: 0 <= n < |plan| ==> plan[n].0 != path)
      ensures path in r && r[path] == tree[path]
    {
      assert plan[m].0 != path;
      assert forall n :: 0 <= n < |front| ==> front[n].0 == plan[n].0;
    }
  }

  lemma FetchedLast(tree: Tree, plan: seq<(string, Download)>, fetch: nat -> Option<Content>, before: Tree)
    requires plan != [] && ArrivedAll(plan, fetch)
    requires ArrivedAll(plan[..|plan| - 1], fetch) && FetchedAs(tree, plan[..|plan| - 1], fetch, before)
    ensures var m := |plan| - 1;
            FetchedAs(tree, plan, fetch, before[plan[m].0 := Regular(fetch(m).value, DownloadMode(plan[m].1))])
  {
    hide PathsAre, LastHolds, RestStays;
    var node := Regular(fetch(|plan| - 1).value, DownloadMode(plan[|plan| - 1].1));
    PathsSnoc(tree, plan, before, node);
    LastSnoc(plan, fetch, before);
    RestSnoc(tree, plan, before, node);
  }

  // ----- what a fresh install gathers and publishes -----

  /**
   Before setup the tree holds the project files, every selected download with its digest and the index,
   and nothing else. Every download arrived with its own digest; the last one to a path is what is there.
   */
  lemma GatheredExactly(c: Installer, withRos: bool, fetch: nat -> Option<Content>)
    requires Gathered(c, withRos, fetch).Some?
    ensures var tree, count := Gathered(c, withRos, fetch).value, DownloadCount(c, withRos);
            && (forall path :: path in tree <==>
                  path in c.projectFiles || path == INDEX_NAME ||
                    exists n :: 0 <= n < count && DownloadAt(c, n).value.0 == path)
            && (forall n :: 0 <= n < count ==>
                  var (path, d) := DownloadAt(c, n).value;
                  && path in tree && fetch(n).Some? && Sha256(fetch(n).value) == d.sha256
                  && ((forall k :: n < k < count ==> DownloadAt(c, k).value.0 != path) ==>
                       tree[path] == Regular(fetch(n).value, DownloadMode(d))))
            && (forall path :: Wanted(c, withRos, path).Some? ==> Matches(tree, path, Wanted(c, withRos, path).value))
            && tree[INDEX_NAME].Regular? && tree[INDEX_NAME].content.IndexText?
            && ListsAll(tree[INDEX_NAME].content.records, c, withRos)
  {
    hide Plan, Extract, Fetched, DownloadAt, DownloadCount, Records, ExpectedFiles, Wanted, Selected, RecordOf;
    var extracted, plan := Extract(c.archive, c.projectFiles).value, Plan(c, withRos);
    var fetched, tree := Fetched(extracted, plan, fetch).value, Gathered(c, withRos, fetch).value;
    PlanIs(c, withRos);
    ExtractionSound(c.archive, c.projectFiles);
    FetchedExactly(extracted, plan, fetch);
    SelectedAre(c, withRos);
    forall path | Wanted(c, withRos, path).Some? ensures Matches(tree, path, Wanted(c, withRos, path).value) {
      ExpectedIsWanted(c, withRos, path);
    }
    forall n | 0 <= n < |plan| ensures DownloadAt(c, n) == Some(plan[n]) && plan[n].0 in tree {
    }
    forall path | path in tree && path !in c.projectFiles && path != INDEX_NAME
      ensures exists n :: 0 <= n < |plan| && DownloadAt(c, n).value.0 == path
    {
      var n :| 0 <= n < |plan| && plan[n].0 == path;
      assert DownloadAt(c, n) == Some(plan[n]);
    }
    forall n | 0 <= n < |plan| && forall k :: n < k < |plan| ==> DownloadAt(c, k).value.0 != plan[n].0
      ensures tree[plan[n].0] == Regular(fetch(n).value, DownloadMode(plan[n].1))
    {
      forall k | n < k < |plan| ensures plan[k].0 != plan[n].0 {
        assert DownloadAt(c, k) == Some(plan[k]);
      }
      assert LastAt(plan, n);
    }
  }

  /** A release's manifest and state say, item by item, which installer it is of and what that selected. */
  ghost predicate Attests(tree: Tree, c: Installer, withRos: bool) {
    && HasManifest(tree) && HasState(tree)
    && Identifies(tree[MANIFEST_NAME].content.manifest, c, withRos)
    && Confirms(tree[STATE_NAME].content.state, tree[MANIFEST_NAME].content, c, withRos)
  }

  lemma IdentifiesExactly(m: Manifest, c: Installer, withRos: bool)
    ensures Identifies(m, c, withRos) <==> m.(files := map[]) == ManifestFor(c, withRos, map[])
  {
    SelectedAre(c, withRos);
    var records := Records(Selected(c, withRos));
    hide ListsAll, Records, Selected;
    if Identifies(m, c, withRos) {
      ListsAllUnique(m.dependencies, records, c, withRos);
    }
  }

  lemma ConfirmsExactly(s: InstallState, manifest: Content, c: Installer, withRos: bool)
    ensures Confirms(s, manifest, c, withRos) <==> s == StateFor(c, withRos, manifest)
  {
    StateLists(c, withRos, manifest);
    if Confirms(s, manifest, c, withRos) {
      ListsDigestsUnique(s.dependencies, StateFor(c, withRos, manifest).dependencies, c, withRos);
    }
  }

  lemma StateLists(c: Installer, withRos: bool, manifest: Content)
    ensures ListsDigests(StateFor(c, withRos, manifest).dependencies, c, withRos)
  {
  }

  /** What a fresh install builds attests its installer, its option and every selected dependency. */
  lemma BuiltAttests(c: Installer, withRos: bool, fetch: nat -> Option<Content>, setup: Tree -> Option<Tree>)
    requires Built(c, withRos, fetch, setup).Some?
    ensures Attests(Built(c, withRos, fetch, setup).value, c, withRos)
  {
    hide Gathered, AfterSetup, Identifies, Confirms, ReleaseFiles, StateFor;
    var after := AfterSetup(c, Gathered(c, withRos, fetch).value, setup).value;
    var m := ManifestFor(c, withRos, ReleaseFiles(after));
    IdentifiesExactly(m, c, withRos);
    ConfirmsExactly(StateFor(c, withRos, ManifestText(m)), ManifestText(m), c, withRos);
  }

  ghost predicate GivesWanted(files: map<string, Digest>, c: Installer, withRos: bool) {
    forall path :: Wanted(c, withRos, path).Some? ==> path in files && files[path] == Wanted(c, withRos, path).value
  }

  lemma ExpectedAsWanted(c: Installer, withRos: bool, files: map<string, Digest>)
    ensures GivesWanted(files, c, withRos) <==>
              var expected := ExpectedFiles(c, withRos);
              forall name :: name in expected ==> name in files && files[name] == expected[name]
  {
    hide ExpectedFiles, Wanted;
    forall path | path in ExpectedFiles(c, withRos)
      ensures Wanted(c, withRos, path) == Some(ExpectedFiles(c, withRos)[path])
    {
      ExpectedIsWanted(c, withRos, path);
    }
    forall path | Wanted(c, withRos, path).Some?
      ensures path in ExpectedFiles(c, withRos) && ExpectedFiles(c, withRos)[path] == Wanted(c, withRos, path).value
    {
      ExpectedIsWanted(c, withRos, path);
    }
  }

  /**
   An existing release is judged complete exactly if it is sealed, attests this installer and option, and
   its manifest gives every wanted path the wanted digest.
   */
  lemma JudgedExactly(c: Installer, withRos: bool, tree: Tree)
    ensures JudgedComplete(c, withRos, tree) <==>
              && Sealed(tree) && Attests(tree, c, withRos)
              && GivesWanted(tree[MANIFEST_NAME].content.manifest.files, c, withRos)
  {
    hide Identifies, Confirms, ExpectedFiles, StateFor, ManifestFor, GivesWanted, ReleaseFiles;
    if HasManifest(tree) && HasState(tree) {
      var text, state := tree[MANIFEST_NAME].content, tree[STATE_NAME].content.state;
      IdentifiesExactly(text.manifest, c, withRos);
      ConfirmsExactly(state, text, c, withRos);
      ExpectedAsWanted(c, withRos, text.manifest.files);
      ConfirmsDigest(state, text, c, withRos);
    }
  }

  lemma ConfirmsDigest(s: InstallState, manifest: Content, c: Installer, withRos: bool)
    ensures Confirms(s, manifest, c, withRos) ==> s.manifestDigest == Sha256(manifest)
  {
  }

  /** The setup program runs only as an embedded file whose content is the frozen one, on the gathered tree. */
  lemma SetupIsVerified(c: Installer, withRos: bool, fetch: nat -> Option<Content>, setup: Tree -> Option<Tree>)
    requires Built(c, withRos, fetch, setup).Some? && c.setup.Some?
    ensures c.setup.value in c.projectFiles
    ensures var before := Gathered(c, withRos, fetch).value;
            && Matches(before, c.setup.value, c.projectFiles[c.setup.value])
            && setup(before).Some?
            && forall name :: name in setup(before).value && name != MANIFEST_NAME && name != STATE_NAME ==>
                 var built := Built(c, withRos, fetch, setup).value;
                 name in built && built[name] == setup(before).value[name]
  {
    hide Gathered, ManifestFor, StateFor, ReleaseFiles;
  }
}
