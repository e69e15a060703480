/**
 The release installer's data and decisions: packed payloads, release trees, the manifest that seals
 a tree, and the two judgements on an existing release. Names are canonical relative paths; file
 contents are kept by what they decode to, and SHA-256 is injective.
 */
module InstallerModel {
  import opened Basics

  const MANIFEST_NAME := "manifest.json"
  const STATE_NAME := "install-state.json"
  const INDEX_NAME := "dependencies/locked-dependencies.json"

  // ----- values -----

  /** A digest is that of a content, or one no content of this system has. */
  datatype Digest = Sha256(content: Content) | Unmatched(text: string)

  datatype Content =
    | Raw(bytes: Bytes)
    | ManifestText(manifest: Manifest)
    | StateText(state: InstallState)
    | IndexText(records: seq<Dependency>)

  datatype Dependency = Dependency(name: string, license: string, filename: string, sha256: Digest)

  datatype Manifest = Manifest(
    version: string,
    gitSha: string,
    payloadDigest: Digest,
    withRos: bool,
    files: map<string, Digest>,
    dependencies: seq<Dependency>)

  datatype InstallState = InstallState(
    version: string,
    gitSha: string,
    manifestDigest: Digest,
    withRos: bool,
    dependencies: seq<(string, Digest)>)

  /** Anything in a release that is not a regular file is a link or a special file. */
  datatype Node = Regular(content: Content, mode: nat) | Irregular

  type Tree = map<string, Node>

  predicate Matches(tree: Tree, name: string, digest: Digest) {
    name in tree && tree[name].Regular? && Sha256(tree[name].content) == digest
  }

  /** The permission bits kept of a file's mode, `& 0o777`. */
  function Permissions(mode: nat): (p: nat)
    ensures p < 512 && (mode - p) % 512 == 0
  {
    mode % 512
  }

  // ----- packing -----

  datatype Candidate =
    | Directory(name: string)
    | Link(name: string)
    | Special(name: string)
    | File(name: string, content: Content, mode: nat)

  datatype Member = Member(name: string, isFile: bool, content: Content, mode: nat)

  datatype Payload = Payload(archive: seq<Member>, files: map<string, Digest>)

  datatype PackError = ContainsLink | ContainsSpecial | InvalidPath | NoFiles

  /** Some component between slashes is "..". */
  predicate HasParent(name: string) {
    exists i, j :: 0 <= i <= j <= |name| && Component(name, i, j) && name[i..j] == ".."
  }

  predicate Component(name: string, i: nat, j: nat)
    requires i <= j <= |name|
  {
    (i == 0 || name[i - 1] == '/') && (j == |name| || name[j] == '/') && '/' !in name[i..j]
  }

  predicate SafeName(name: string) {
    name != "" && name[0] != '/' && !HasParent(name)
  }

  /** The components of a path, as `split("/")` gives them. */
  function Split(name: string): (parts: seq<string>)
    ensures parts != []
  {
    if name == "" then [""]
    else
      var front, last := Split(name[..|name| - 1]), name[|name| - 1];
      if last == '/' then front + [""]
      else front[..|front| - 1] + [front[|front| - 1] + [last]]
  }

  /** Where the last component begins. */
  function LastStart(name: string): (i: nat)
    ensures i <= |name| && '/' !in name[i..] && (i == 0 || name[i - 1] == '/')
  {
    if name == "" || name[|name| - 1] == '/' then |name| else LastStart(name[..|name| - 1])
  }

  lemma {:induction false} LastPart(name: string)
    ensures Split(name)[|Split(name)| - 1] == name[LastStart(name)..]
  {
    if name != "" && name[|name| - 1] != '/' {
      LastPart(name[..|name| - 1]);
    }
  }

  lemma {:induction false} LastStartIs(name: string, i: nat)
    requires i <= |name| && '/' !in name[i..] && (i == 0 || name[i - 1] == '/')
    ensures i == LastStart(name)
  {
    if name != "" {
      var front, last := name[..|name| - 1], name[|name| - 1];
      assert i < |name| ==> last in name[i..];
      if last != '/' {
        assert forall c :: c in front[i..] ==> c in name[i..];
        LastStartIs(front, i);
      }
    }
  }

  /** Some component before the last one is "..". */
  predicate HasInner(name: string) {
    exists i, j :: 0 <= i <= j < |name| && Component(name, i, j) && name[i..j] == ".."
  }

  lemma SameComponent(name: string, i: nat, j: nat)
    requires name != "" && i <= j < |name|
    ensures var front := name[..|name| - 1];
            && front[i..j] == name[i..j]
            && (Component(name, i, j) <==>
                 Component(front, i, j) && (j == |front| ==> name[|name| - 1] == '/'))
  {
  }

  lemma InnerOf(name: string)
    requires name != ""
    ensures var front := name[..|name| - 1];
            HasInner(name) <==> if name[|name| - 1] == '/' then HasParent(front) else HasInner(front)
  {
    hide Component;
    var front := name[..|name| - 1];
    forall i, j | 0 <= i <= j < |name|
      ensures front[i..j] == name[i..j]
      ensures Component(name, i, j) <==> Component(front, i, j) && (j == |front| ==> name[|name| - 1] == '/')
    {
      SameComponent(name, i, j);
    }
    if HasInner(front) {
      var i, j :| 0 <= i <= j < |front| && Component(front, i, j) && front[i..j] == "..";
      assert Component(name, i, j) && name[i..j] == "..";
    }
    if HasParent(front) && name[|name| - 1] == '/' {
      var i, j :| 0 <= i <= j <= |front| && Component(front, i, j) && front[i..j] == "..";
      assert Component(name, i, j) && name[i..j] == "..";
    }
    if HasInner(name) {
      var i, j :| 0 <= i <= j < |name| && Component(name, i, j) && name[i..j] == "..";
      assert Component(front, i, j) && front[i..j] == "..";
    }
  }

  lemma ParentSplits(name: string)
    ensures HasParent(name) <==> HasInner(name) || name[LastStart(name)..] == ".."
  {
    var start := LastStart(name);
    assert Component(name, start, |name|) && name[start..|name|] == name[start..];
    if HasParent(name) {
      var i, j :| 0 <= i <= j <= |name| && Component(name, i, j) && name[i..j] == "..";
      if j == |name| {
        assert name[i..] == name[i..j];
        LastStartIs(name, i);
      }
    }
  }

  lemma {:induction false} InnerIsPart(name: string)
    ensures HasInner(name) <==> ".." in Split(name)[..|Split(name)| - 1]
  {
    hide HasInner, HasParent;
    if name == "" {
      NoInner();
    } else {
      var front := name[..|name| - 1];
      var parts := Split(front);
      InnerIsPart(front);
      InnerOf(name);
      ParentSplits(front);
      LastPart(front);
      assert parts == parts[..|parts| - 1] + [parts[|parts| - 1]];
    }
  }

  lemma NoInner()
    ensures !HasInner("")
  {
  }

  /** A path has a parent component exactly when one of the parts between its slashes is "..". */
  lemma ParentIsPart(name: string)
    ensures HasParent(name) <==> ".." in Split(name)
  {
    hide HasInner, HasParent, Split;
    var parts := Split(name);
    InnerIsPart(name);
    ParentSplits(name);
    LastPart(name);
    assert parts == parts[..|parts| - 1] + [parts[|parts| - 1]];
  }

  /** A name is safe exactly when it is relative, not empty, and no part of it is "..". */
  lemma SafeNameExactly(name: string)
    ensures SafeName(name) <==> name != "" && name[0] != '/' && ".." !in Split(name)
  {
    hide HasParent, Split;
    ParentIsPart(name);
  }

  /** The listing of a directory, as files only; names are those the payload will carry. */
  function FilesOf(listing: seq<Candidate>): Tree {
    if listing == [] then map[]
    else
      var rest := FilesOf(listing[..|listing| - 1]);
      var last := listing[|listing| - 1];
      if last.File? then rest[last.name := Regular(last.content, Permissions(last.mode))] else rest
  }

  function PackRefusal(c: Candidate): Option<PackError> {
    if c.Link? then Some(ContainsLink)
    else if c.Directory? then None
    else if c.Special? then Some(ContainsSpecial)
    else if !SafeName(c.name) then Some(InvalidPath)
    else None
  }

  method ProjectPayload(listing: seq<Candidate>) returns (r: Result<Payload, PackError>)
    ensures r.Ok? <==>
              && (forall i :: 0 <= i < |listing| ==> PackRefusal(listing[i]).None?)
              && exists i :: 0 <= i < |listing| && listing[i].File?
    ensures r.Ok? ==> r.value == Payload(Archive(listing), Table(listing))
    ensures r.Err? && r.error != NoFiles ==>
              exists i :: 0 <= i < |listing| && PackRefusal(listing[i]) == Some(r.error) &&
                forall k :: 0 <= k < i ==> PackRefusal(listing[k]).None?
  {
    var archive: seq<Member>, files: map<string, Digest> := [], map[];
    for i := 0 to |listing|
      invariant forall k :: 0 <= k < i ==> PackRefusal(listing[k]).None?
      invariant archive == Archive(listing[..i]) && files == Table(listing[..i])
    {
      var candidate := listing[i];
      assert listing[..i + 1][..i] == listing[..i];
      if candidate.Link? {
        return Err(ContainsLink);
      }
      if !candidate.Directory? {
        if !candidate.File? {
          return Err(ContainsSpecial);
        }
        if !SafeName(candidate.name) {
          return Err(InvalidPath);
        }
        archive := archive + [Member(candidate.name, true, candidate.content, Permissions(candidate.mode))];
        files := files[candidate.name := Sha256(candidate.content)];
      }
    }
    assert listing[..|listing|] == listing;
    TableEmpty(listing);
    if files == map[] {
      return Err(NoFiles);
    }
    return Ok(Payload(archive, files));
  }

  function Archive(listing: seq<Candidate>): seq<Member> {
    if listing == [] then []
    else
      var rest := Archive(listing[..|listing| - 1]);
      var last := listing[|listing| - 1];
      if last.File? then rest + [Member(last.name, true, last.content, Permissions(last.mode))] else rest
  }

  function Table(listing: seq<Candidate>): map<string, Digest> {
    if listing == [] then map[]
    else
      var rest := Table(listing[..|listing| - 1]);
      var last := listing[|listing| - 1];
      if last.File? then rest[last.name := Sha256(last.content)] else rest
  }

  lemma {:induction false} TableEmpty(listing: seq<Candidate>)
    ensures Table(listing) == map[] <==> forall i :: 0 <= i < |listing| ==> !listing[i].File?
  {
    if listing != [] {
      var front := listing[..|listing| - 1];
      TableEmpty(front);
      if listing[|listing| - 1].File? {
        assert listing[|listing| - 1].name in Table(listing);
      } else {
        assert forall i :: 0 <= i < |front| ==> front[i] == listing[i];
      }
    }
  }

  // ----- extraction -----

  predicate Admissible(m: Member, files: map<string, Digest>, seen: set<string>) {
    SafeName(m.name) && m.isFile && m.name in files && m.name !in seen
  }

  /** The tree after the given members were written into it, or None when one is refused. */
  function ExtractAll(archive: seq<Member>, files: map<string, Digest>, into: Tree): Option<Tree> {
    if archive == [] then Some(into)
    else
      var front := archive[..|archive| - 1];
      var before := ExtractAll(front, files, into);
      var m := archive[|archive| - 1];
      if before.None? || !Admissible(m, files, Names(front)) || m.name in before.value ||
        Sha256(m.content) != files[m.name] then None
      else Some(before.value[m.name := Regular(m.content, Permissions(m.mode))])
  }

  function Names(archive: seq<Member>): set<string> {
    set i | 0 <= i < |archive| :: archive[i].name
  }

  /** Extraction into a fresh directory: with an empty table nothing is read at all. */
  function Extract(archive: seq<Member>, files: map<string, Digest>): Option<Tree> {
    if files == map[] then Some(map[])
    else
      var tree := ExtractAll(archive, files, map[]);
      if tree.None? || Names(archive) != files.Keys then None else tree
  }

  lemma NamesSnoc(front: seq<Member>, m: Member)
    ensures Names(front + [m]) == Names(front) + {m.name}
  {
    var all := front + [m];
    forall name | name in Names(front) + {m.name} ensures name in Names(all) {
      if name in Names(front) {
        var i :| 0 <= i < |front| && front[i].name == name;
        assert all[i].name == name;
      } else {
        assert all[|front|].name == name;
      }
    }
  }

  /** Whatever archive is given, success means the frozen names, each once, with their frozen digests. */
  lemma {:induction false} ExtractedExactly(archive: seq<Member>, files: map<string, Digest>, into: Tree)
    requires ExtractAll(archive, files, into).Some?
    ensures var tree := ExtractAll(archive, files, into).value;
            && tree.Keys == into.Keys + Names(archive) && into.Keys !! Names(archive)
            && (forall name :: name in into ==> tree[name] == into[name])
            && (forall i :: 0 <= i < |archive| ==>
                 tree[archive[i].name] == Regular(archive[i].content, Permissions(archive[i].mode)))
            && (forall i, j :: 0 <= i < j < |archive| ==> archive[i].name != archive[j].name)
            && (forall name :: name in Names(archive) ==>
                 name in files && SafeName(name) && Matches(tree, name, files[name]))
  {
    hide SafeName, Permissions, Names;
    if archive == [] {
      NoNames();
    } else {
      var front, m := archive[..|archive| - 1], archive[|archive| - 1];
      assert archive == front + [m];
      ExtractedExactly(front, files, into);
      NamesSnoc(front, m);
      forall i | 0 <= i < |front| ensures archive[i].name in Names(front) {
        NameListed(front, i);
        assert front[i] == archive[i];
      }
    }
  }

  lemma NoNames()
    ensures Names([]) == {}
  {
  }

  lemma NameListed(archive: seq<Member>, i: nat)
    requires i < |archive|
    ensures archive[i].name in Names(archive)
  {
  }

  /** Extraction of any archive yields exactly the frozen table, each name once with its digest, or fails. */
  lemma ExtractionSound(archive: seq<Member>, files: map<string, Digest>)
    requires Extract(archive, files).Some?
    ensures var tree := Extract(archive, files).value;
            tree.Keys == files.Keys && forall name :: name in files ==> Matches(tree, name, files[name])
    ensures files != map[] ==> |archive| == |files|
  {
    if files != map[] {
      ExtractedExactly(archive, files, map[]);
      NamesCount(archive);
      assert |files| == |files.Keys|;
    }
  }

  lemma {:induction false} NamesCount(archive: seq<Member>)
    requires forall i, j :: 0 <= i < j < |archive| ==> archive[i].name != archive[j].name
    ensures |Names(archive)| == |archive|
  {
    if archive != [] {
      var front, m := archive[..|archive| - 1], archive[|archive| - 1];
      assert archive == front + [m];
      NamesCount(front);
      NamesSnoc(front, m);
      assert m.name !in Names(front) by {
        forall i | 0 <= i < |front| ensures front[i].name != m.name {
          assert front[i] == archive[i];
        }
      }
    }
  }

  ghost predicate DistinctNames(listing: seq<Candidate>) {
    forall i, j :: 0 <= i < j < |listing| ==> listing[i].name != listing[j].name
  }

  /** Names of a directory listing's files, in the archive and in the table alike. */
  lemma {:induction false} PackedNames(listing: seq<Candidate>)
    ensures Names(Archive(listing)) == Table(listing).Keys == FilesOf(listing).Keys
    ensures forall name :: name in Table(listing) ==>
              exists i :: 0 <= i < |listing| && listing[i].File? && listing[i].name == name
  {
    if listing != [] {
      var front, last := listing[..|listing| - 1], listing[|listing| - 1];
      PackedNames(front);
      forall name | name in Table(front)
        ensures exists i :: 0 <= i < |listing| && listing[i].File? && listing[i].name == name
      {
        var i :| 0 <= i < |front| && front[i].File? && front[i].name == name;
        assert listing[i] == front[i];
      }
      if last.File? {
        NamesSnoc(Archive(front), Member(last.name, true, last.content, Permissions(last.mode)));
      }
    }
  }

  /** With a larger table extraction goes on as before. */
  lemma {:induction false} ExtractWithMore(archive: seq<Member>, files: map<string, Digest>,
      more: map<string, Digest>, into: Tree)
    requires ExtractAll(archive, files, into).Some?
    requires forall name :: name in files ==> name in more && more[name] == files[name]
    ensures ExtractAll(archive, more, into) == ExtractAll(archive, files, into)
  {
    if archive != [] {
      ExtractWithMore(archive[..|archive| - 1], files, more, into);
    }
  }

  lemma ExtractNothing(files: map<string, Digest>)
    ensures ExtractAll([], files, map[]) == Some(map[])
  {
  }

  lemma ExtractSnoc(front: seq<Member>, m: Member, files: map<string, Digest>, before: Tree)
    requires ExtractAll(front, files, map[]) == Some(before) && Admissible(m, files, Names(front))
    requires m.name !in before && Sha256(m.content) == files[m.name]
    ensures ExtractAll(front + [m], files, map[]) == Some(before[m.name := Regular(m.content, Permissions(m.mode))])
  {
    hide Admissible, Names;
    assert (front + [m])[..|front|] == front;
  }

  lemma {:induction false} PackedExtracts(listing: seq<Candidate>)
    requires DistinctNames(listing) && forall i :: 0 <= i < |listing| ==> PackRefusal(listing[i]).None?
    ensures ExtractAll(Archive(listing), Table(listing), map[]) == Some(FilesOf(listing))
  {
    hide SafeName, Names, ExtractAll, Permissions;
    ExtractNothing(Table(listing));
    if listing != [] {
      var front, last := listing[..|listing| - 1], listing[|listing| - 1];
      PackedExtracts(front);
      PackedNames(front);
      if last.File? {
        FreshName(listing);
        ExtractWithMore(Archive(front), Table(front), Table(listing), map[]);
        assert PackRefusal(listing[|listing| - 1]).None?;
        ExtractSnoc(Archive(front), Member(last.name, true, last.content, Permissions(last.mode)), Table(listing),
          FilesOf(front));
      }
    }
  }

  lemma FreshName(listing: seq<Candidate>)
    requires DistinctNames(listing) && listing != []
    ensures listing[|listing| - 1].name !in Table(listing[..|listing| - 1])
  {
    var front := listing[..|listing| - 1];
    PackedNames(front);
    assert forall i :: 0 <= i < |front| ==> front[i] == listing[i] && front[i].name != listing[|listing| - 1].name;
  }

  /** Packing a directory and extracting the payload reproduces its files: names, contents and modes. */
  lemma PackExtractRoundTrip(listing: seq<Candidate>)
    requires DistinctNames(listing) && forall i :: 0 <= i < |listing| ==> PackRefusal(listing[i]).None?
    ensures Extract(Archive(listing), Table(listing)) == Some(FilesOf(listing))
  {
    PackedExtracts(listing);
    PackedNames(listing);
    if Table(listing) == map[] {
      assert FilesOf(listing).Keys == {};
    }
  }

  // ----- releases -----

  datatype Download = Download(name: string, license: string, filename: string, sha256: Digest)

  /** What the generator froze into one installer. */
  datatype Installer = Installer(
    version: string,
    gitSha: string,
    frozenRos: Option<bool>,
    payload: Option<Download>,
    dependencies: seq<Download>,
    rosDependencies: seq<Download>,
    setup: Option<string>,
    archive: seq<Member>,
    projectFiles: map<string, Digest>,
    archiveDigest: Digest)

  function Selected(c: Installer, withRos: bool): seq<Download> {
    c.dependencies + if withRos then c.rosDependencies else []
  }

  function Records(downloads: seq<Download>): seq<Dependency> {
    seq(|downloads|, i requires 0 <= i < |downloads| =>
      Dependency(downloads[i].name, downloads[i].license, "dependencies/" + downloads[i].filename, downloads[i].sha256))
  }

  function RecordTable(records: seq<Dependency>): map<string, Digest> {
    if records == [] then map[]
    else RecordTable(records[..|records| - 1])[records[|records| - 1].filename := records[|records| - 1].sha256]
  }

  /** Files that must be there before setup; a project file wins over a download of the same name. */
  function ExpectedFiles(c: Installer, withRos: bool): map<string, Digest> {
    (if c.payload.Some? then map[c.payload.value.filename := c.payload.value.sha256] else map[])
    + RecordTable(Records(Selected(c, withRos))) + c.projectFiles
  }

  function ManifestFor(c: Installer, withRos: bool, files: map<string, Digest>): Manifest {
    Manifest(c.version, c.gitSha, if c.payload.Some? then c.payload.value.sha256 else c.archiveDigest, withRos, files,
             Records(Selected(c, withRos)))
  }

  function StateFor(c: Installer, withRos: bool, manifest: Content): InstallState {
    var records := Records(Selected(c, withRos));
    InstallState(c.version, c.gitSha, Sha256(manifest), withRos,
                 seq(|records|, i requires 0 <= i < |records| => (records[i].name, records[i].sha256)))
  }

  predicate AllRegular(tree: Tree) {
    forall name :: name in tree ==> tree[name].Regular?
  }

  /** The two names the release table leaves out. */
  predicate Bookkeeping(name: string) {
    name == MANIFEST_NAME || name == STATE_NAME
  }

  function ReleaseFiles(tree: Tree): map<string, Digest>
    requires AllRegular(tree)
  {
    map name | name in tree && !Bookkeeping(name) :: Sha256(tree[name].content)
  }

  predicate VerifyExpected(tree: Tree, expected: map<string, Digest>) {
    forall name :: name in expected ==> Matches(tree, name, expected[name])
  }

  /** The final tree: setup's result with the manifest and then the state written into it. */
  function Stamped(c: Installer, withRos: bool, after: Tree): Tree
    requires AllRegular(after)
  {
    var text := ManifestText(ManifestFor(c, withRos, ReleaseFiles(after)));
    after[MANIFEST_NAME := Regular(text, 420)][STATE_NAME := Regular(StateText(StateFor(c, withRos, text)), 420)]
  }

  predicate HasManifest(tree: Tree) {
    MANIFEST_NAME in tree && tree[MANIFEST_NAME].Regular? && tree[MANIFEST_NAME].content.ManifestText?
  }

  predicate HasState(tree: Tree) {
    STATE_NAME in tree && tree[STATE_NAME].Regular? && tree[STATE_NAME].content.StateText?
  }

  /** A complete release: only regular files, its manifest's table is its files, its state names its manifest. */
  predicate Sealed(tree: Tree) {
    && HasManifest(tree) && HasState(tree) && AllRegular(tree)
    && tree[MANIFEST_NAME].content.manifest.files == ReleaseFiles(tree)
    && tree[STATE_NAME].content.state.manifestDigest == Sha256(tree[MANIFEST_NAME].content)
  }

  /** The installer's own judgement on an existing release of its version. */
  predicate JudgedComplete(c: Installer, withRos: bool, tree: Tree) {
    && HasManifest(tree) && HasState(tree)
    && var installed := tree[MANIFEST_NAME].content.manifest;
       var expected := ExpectedFiles(c, withRos);
       && installed.(files := map[]) == ManifestFor(c, withRos, map[])
       && (forall name :: name in expected ==> name in installed.files && installed.files[name] == expected[name])
       && tree[STATE_NAME].content.state == StateFor(c, withRos, tree[MANIFEST_NAME].content)
       && AllRegular(tree) && ReleaseFiles(tree) == installed.files
  }

  lemma JudgedIsSealed(c: Installer, withRos: bool, tree: Tree)
    requires JudgedComplete(c, withRos, tree)
    ensures Sealed(tree)
  {
  }

  /** A release is complete for one identity only, so drift in version, commit, options or dependencies is refused. */
  lemma DriftIsRefused(c: Installer, withRos: bool, d: Installer, ros: bool, tree: Tree)
    requires JudgedComplete(c, withRos, tree) && JudgedComplete(d, ros, tree)
    ensures c.version == d.version && c.gitSha == d.gitSha && withRos == ros
    ensures Records(Selected(c, withRos)) == Records(Selected(d, ros))
    ensures forall name :: name in ExpectedFiles(c, withRos) && name in ExpectedFiles(d, ros) ==>
              ExpectedFiles(c, withRos)[name] == ExpectedFiles(d, ros)[name]
  {
    hide Records, ExpectedFiles, StateFor;
  }

  lemma StampedTable(c: Installer, withRos: bool, after: Tree)
    requires AllRegular(after)
    ensures AllRegular(Stamped(c, withRos, after))
    ensures ReleaseFiles(Stamped(c, withRos, after)) == ReleaseFiles(after)
  {
  }

  /** Stamping seals any tree of regular files. */
  lemma StampedIsSealed(c: Installer, withRos: bool, after: Tree)
    requires AllRegular(after)
    ensures Sealed(Stamped(c, withRos, after))
  {
    StampedTable(c, withRos, after);
  }

  /**
   A rerun judges a fresh install complete exactly when setup left every expected file as it was and
   none of them has one of the two bookkeeping names, which the release table leaves out.
   */
  lemma RerunIsComplete(c: Installer, withRos: bool, after: Tree)
    requires AllRegular(after)
    ensures JudgedComplete(c, withRos, Stamped(c, withRos, after)) <==>
              VerifyExpected(after, ExpectedFiles(c, withRos)) && forall name :: name in ExpectedFiles(c, withRos) ==>
                !Bookkeeping(name)
  {
    StampedTable(c, withRos, after);
    hide ExpectedFiles, StateFor, Records;
    var tree, expected, files := Stamped(c, withRos, after), ExpectedFiles(c, withRos), ReleaseFiles(after);
    assert tree[MANIFEST_NAME].content.manifest == ManifestFor(c, withRos, files);
    forall name | name in expected
      ensures name in files && files[name] == expected[name] <==>
                !Bookkeeping(name) && Matches(after, name, expected[name])
    {
    }
  }

  // ----- the reference judgement -----

  datatype Decision = Install | ActivateOnly | Reject

  /** What `_validated_manifest` demands of a manifest's content beyond the form of its values. */
  predicate ValidContent(m: Manifest) {
    && m.version != "" && m.files != map[]
    && (forall i :: 0 <= i < |m.dependencies| ==> Listed(m.files, m.dependencies[i]))
    && DistinctDependencies(m.dependencies)
  }

  predicate Listed(files: map<string, Digest>, d: Dependency) {
    d.filename in files && files[d.filename] == d.sha256
  }

  predicate DistinctDependencies(dependencies: seq<Dependency>) {
    forall i, j :: 0 <= i < j < |dependencies| ==>
      dependencies[i].name != dependencies[j].name && dependencies[i].filename != dependencies[j].filename
  }

  /** `inspect_release`; None when the expected manifest itself is refused with an exception. */
  function InspectRelease(release: Option<Tree>, expected: Manifest): Option<Decision> {
    if !ValidContent(expected) then None
    else if release.None? then Some(Install)
    else
      var tree := release.value;
      if !HasManifest(tree) || !ValidContent(tree[MANIFEST_NAME].content.manifest) then Some(Reject)
      else if tree[MANIFEST_NAME].content.manifest != expected then Some(Reject)
      else if VerifyExpected(tree, expected.files) then Some(ActivateOnly)
      else Some(Reject)
  }

  lemma TableVerifies(tree: Tree, files: map<string, Digest>)
    requires AllRegular(tree)
    ensures files == ReleaseFiles(tree) <==>
              && VerifyExpected(tree, files)
              && (forall name :: name in tree ==> Bookkeeping(name) || name in files)
              && (forall name :: name in files ==> !Bookkeeping(name))
  {
    var table := ReleaseFiles(tree);
    if VerifyExpected(tree, files) && (forall name :: name in tree ==> Bookkeeping(name) || name in files)
       && forall name :: name in files ==> !Bookkeeping(name) {
      assert forall name :: name in files ==> Matches(tree, name, files[name]);
      assert files.Keys == table.Keys;
      assert files == table;
    }
  }

  /**
   The reference judgement accepts exactly the sealed releases with valid manifest content, but for
   tolerating unlisted files, irregular ones among them, and a missing or foreign state.
   */
  lemma InspectAgainstSealed(tree: Tree)
    requires HasManifest(tree)
    ensures var m := tree[MANIFEST_NAME].content.manifest;
            Sealed(tree) && ValidContent(m) <==>
              && InspectRelease(Some(tree), m) == Some(ActivateOnly)
              && AllRegular(tree) && (forall name :: name in tree ==> Bookkeeping(name) || name in m.files)
              && (forall name :: name in m.files ==> !Bookkeeping(name))
              && HasState(tree) && tree[STATE_NAME].content.state.manifestDigest == Sha256(tree[MANIFEST_NAME].content)
  {
    hide ValidContent;
    if AllRegular(tree) {
      TableVerifies(tree, tree[MANIFEST_NAME].content.manifest.files);
    }
  }

  /** Setup left every selected dependency as it was, and the frozen lists are acceptable to the reference judgement. */
  predicate KeepsDependencies(c: Installer, withRos: bool, after: Tree) {
    && c.version != "" && DistinctDependencies(Records(Selected(c, withRos)))
    && (exists name :: name in after && !Bookkeeping(name))
    && var records := Records(Selected(c, withRos));
       forall i :: 0 <= i < |records| ==> Matches(after, records[i].filename, records[i].sha256)
  }

  lemma DependencyPath(filename: string)
    ensures !Bookkeeping("dependencies/" + filename)
  {
    var path := "dependencies/" + filename;
    assert path[0] == 'd' && MANIFEST_NAME[0] == 'm' && STATE_NAME[0] == 'i';
  }

  /**
   Sealing is not enough for the reference judgement: it accepts what a run sealed exactly when setup
   kept every dependency, and otherwise refuses the release's own manifest with an exception.
   */
  lemma InspectOwnRelease(c: Installer, withRos: bool, after: Tree)
    requires AllRegular(after)
    ensures var tree := Stamped(c, withRos, after);
            && HasManifest(tree) && Sealed(tree)
            && InspectRelease(Some(tree), tree[MANIFEST_NAME].content.manifest) ==
                 if KeepsDependencies(c, withRos, after) then Some(ActivateOnly) else None
  {
    hide Selected, StateFor;
    var tree, files := Stamped(c, withRos, after), ReleaseFiles(after);
    var m := tree[MANIFEST_NAME].content.manifest;
    StampedIsSealed(c, withRos, after);
    StampedTable(c, withRos, after);
    TableVerifies(tree, m.files);
    var downloads := Selected(c, withRos);
    forall i | 0 <= i < |m.dependencies|
      ensures Listed(m.files, m.dependencies[i]) <==>
                Matches(after, m.dependencies[i].filename, m.dependencies[i].sha256)
    {
      DependencyPath(downloads[i].filename);
    }
    assert files != map[] <==> exists name :: name in after && !Bookkeeping(name) by {
      if name :| name in after && !Bookkeeping(name) {
        assert name in files;
      }
      if files != map[] {
        assert files.Keys != {};
        var name :| name in files.Keys;
        assert name in after && !Bookkeeping(name);
      }
    }
  }
}
