/** `prune_workspace_metadata` (pruneExport.py:243-339): classify directories by
    their path, keep the workspace objects and libraries lying under a kept
    directory, and filter the directory and notebook ACLs by the kept ids. */
module Workspace {
  import opened Base
  import opened Strings
  import opened Records
  import opened Tags
  import opened Acls

  const Slash: string := "/"
  const DirAclPrefix: string := "/directories/"
  const NotebookAclPrefix: string := "/notebooks/"
  const DirsLog: string := "user_dirs.log"

  // ---------------------------------------------------------------------------
  // Directories (lines 262-290).

  /** How the loop of lines 266-290 treats a directory: a top-level directory is
      written but not recorded, an owned one (a kept user's or a matching team's) is
      written and recorded, and any other one is dropped. */
  datatype DirClass = TopLevel | Owned | Unowned

  /** Lines 270-290 on the pieces of `path.split("/")`. None stands for an IndexError:
      the path holds no `/` at all, or it is a team directory that no hyphenated tag
      matches while some tag holds no `team_`. */
  function ClassifyDir(tags: seq<string>, users: seq<string>, path: string): (kind: Option<DirClass>)
  {
    var parts := Split(path, Slash);
    if |parts| == 2 then Some(TopLevel)
    else if |parts| < 2 then None
    else if parts[1] == "Users" then Some(if parts[2] in users then Owned else Unowned)
    else if parts[1] == "teams" then
      match TeamMatch(tags, parts[2])
      case None => None
      case Some(matched) => Some(if matched then Owned else Unowned)
    else Some(Unowned)
  }

  /** The directories that are a kept user's or a matching team's. */
  function OwnedDir(tags: seq<string>, users: seq<string>): (owned: Directory -> bool)
  {
    (d: Directory) => ClassifyDir(tags, users, d.path) == Some(Owned)
  }

  /** The directories written to user_dirs.log: every one that is not dropped. */
  function WrittenDir(tags: seq<string>, users: seq<string>): (written: Directory -> bool)
  {
    (d: Directory) => ClassifyDir(tags, users, d.path) != Some(Unowned)
  }

  /** Record `k` is the first directory the loop cannot classify. */
  predicate FirstUnclassifiable(tags: seq<string>, users: seq<string>, dirs: seq<Directory>, k: nat)
  {
    k < |dirs| && ClassifyDir(tags, users, dirs[k].path).None? &&
    forall j :: 0 <= j < k ==> ClassifyDir(tags, users, dirs[j].path).Some?
  }

  /** What the directory loop produces: the lines written to user_dirs.log and the
      owned directories, whose paths are `copied_dirs` and ids `dir_ids`. */
  datatype DirScan = DirScan(written: seq<Directory>, owned: seq<Directory>)

  /** The directory loop over `dirs`; `doCopy` is false when user_dirs.log is kept as
      it was, and then nothing is written (the file is still opened for writing). */
  function ScanDirs(tags: seq<string>, users: seq<string>, dirs: seq<Directory>, doCopy: bool): (r: Result<DirScan>)
    decreases |dirs|
    ensures r.Ok? <==> forall d :: d in dirs ==> ClassifyDir(tags, users, d.path).Some?
    ensures r.Ok? ==> forall d :: d in r.value.owned <==> d in dirs && ClassifyDir(tags, users, d.path) == Some(Owned)
    ensures r.Ok? ==> forall d :: d in r.value.written <==>
      doCopy && d in dirs && ClassifyDir(tags, users, d.path) != Some(Unowned)
    ensures r.Ok? && !doCopy ==> r.value.written == []
    ensures r.Err? ==>
      r.error.IndexError? && r.error.log == DirsLog && FirstUnclassifiable(tags, users, dirs, r.error.record)
  {
    if dirs == [] then Ok(DirScan([], []))
    else
      var init, last := dirs[..|dirs| - 1], dirs[|dirs| - 1];
      assert forall j :: 0 <= j < |init| ==> dirs[j] == init[j];
      assert forall d :: d in dirs <==> d in init || d == last;
      MultisetSnoc(dirs);
      match ScanDirs(tags, users, init, doCopy)
      case Err(e) => Err(e)
      case Ok(scan) =>
        match ClassifyDir(tags, users, last.path)
        case None =>
          assert last in dirs;
          Err(IndexError(DirsLog, |dirs| - 1))
        case Some(c) =>
          var written := if doCopy && c != Unowned then scan.written + [last] else scan.written;
          var owned := if c == Owned then scan.owned + [last] else scan.owned;
          Ok(DirScan(written, owned))
  }

  /** The owned directories are those of the log that the classification owns, and the
      lines written are every line it does not drop, both in log order and with their
      repetitions. */
  lemma {:induction false} ScanDirsFilters(tags: seq<string>, users: seq<string>, dirs: seq<Directory>, doCopy: bool)
    requires ScanDirs(tags, users, dirs, doCopy).Ok?
    ensures ScanDirs(tags, users, dirs, doCopy).value.owned == Filter(OwnedDir(tags, users), dirs)
    ensures ScanDirs(tags, users, dirs, doCopy).value.written ==
            if doCopy then Filter(WrittenDir(tags, users), dirs) else []
    decreases |dirs|
  {
    if dirs != [] {
      ScanDirsFilters(tags, users, dirs[..|dirs| - 1], doCopy);
    }
  }

  /** Once a prefix of user_dirs.log raises, so does the whole log, with the same error. */
  lemma {:induction false} ScanDirsFailsEarly(tags: seq<string>, users: seq<string>, dirs: seq<Directory>,
                                              doCopy: bool, n: nat)
    requires n <= |dirs|
    requires ScanDirs(tags, users, dirs[..n], doCopy).Err?
    ensures ScanDirs(tags, users, dirs, doCopy) == ScanDirs(tags, users, dirs[..n], doCopy)
    decreases |dirs|
  {
    if n < |dirs| {
      var init := dirs[..|dirs| - 1];
      assert init[..n] == dirs[..n];
      ScanDirsFailsEarly(tags, users, init, doCopy, n);
    } else {
      assert dirs[..n] == dirs;
    }
  }

  /** The `path` of each directory, in order. */
  function Paths(dirs: seq<Directory>): (paths: seq<string>)
    decreases |dirs|
    ensures |paths| == |dirs|
    ensures forall i :: 0 <= i < |dirs| ==> paths[i] == dirs[i].path
  {
    if dirs == [] then [] else Paths(dirs[..|dirs| - 1]) + [dirs[|dirs| - 1].path]
  }

  /** The `object_id` of each directory, in order. */
  function DirIds(dirs: seq<Directory>): (ids: seq<int>)
    decreases |dirs|
    ensures |ids| == |dirs|
    ensures forall i :: 0 <= i < |dirs| ==> ids[i] == dirs[i].objectId
  {
    if dirs == [] then [] else DirIds(dirs[..|dirs| - 1]) + [dirs[|dirs| - 1].objectId]
  }

  /** The loop of lines 266-290, returning the lines written and `copied_dirs`, `dir_ids`. */
  method FilterDirLog(tags: seq<string>, users: seq<string>, src: seq<Directory>, doCopy: bool)
    returns (r: Result<(seq<Directory>, seq<string>, seq<int>)>)
    ensures match ScanDirs(tags, users, src, doCopy)
      case Err(e) => r == Err(e)
      case Ok(scan) => r == Ok((scan.written, Paths(scan.owned), DirIds(scan.owned)))
  {
    var written, owned := [], [];
    var copiedDirs, dirIds := [], [];
    for i := 0 to |src|
      invariant ScanDirs(tags, users, src[..i], doCopy) == Ok(DirScan(written, owned))
      invariant copiedDirs == Paths(owned) && dirIds == DirIds(owned)
    {
      assert src[..i + 1][..i] == src[..i];
      var dir := src[i];
      var parts := Split(dir.path, Slash);
      var kind: DirClass;
      if |parts| == 2 {
        kind := TopLevel;
      } else if |parts| < 2 {
        assert ClassifyDir(tags, users, dir.path).None?;
        ScanDirsFailsEarly(tags, users, src, doCopy, i + 1);
        return Err(IndexError(DirsLog, i));
      } else if parts[1] == "Users" {
        kind := if parts[2] in users then Owned else Unowned;
      } else if parts[1] == "teams" {
        var matched := TeamMatch(tags, parts[2]);
        if matched.None? {
          assert ClassifyDir(tags, users, dir.path).None?;
          ScanDirsFailsEarly(tags, users, src, doCopy, i + 1);
          return Err(IndexError(DirsLog, i));
        }
        kind := if matched.value then Owned else Unowned;
      } else {
        kind := Unowned;
      }
      assert ClassifyDir(tags, users, dir.path) == Some(kind);
      if doCopy && kind != Unowned {
        written := written + [dir];
      }
      if kind == Owned {
        owned := owned + [dir];
        copiedDirs, dirIds := copiedDirs + [dir.path], dirIds + [dir.objectId];
      }
    }
    assert src[..|src|] == src;
    r := Ok((written, copiedDirs, dirIds));
  }

  // ---------------------------------------------------------------------------
  // Workspace objects and libraries (lines 299-308, 334-339).

  /** `[x for x in copied_dirs if x in path]` is non-empty: some kept directory path
      occurs anywhere in `path`. */
  predicate UnderCopiedDir(copiedDirs: seq<string>, path: string)
  {
    exists d :: d in copiedDirs && Contains(d, path)
  }

  /** The workspace objects lying under a kept directory, in source order. */
  function KeptObjects(copiedDirs: seq<string>, objects: seq<WorkspaceObject>): (kept: seq<WorkspaceObject>)
    decreases |objects|
    ensures forall o :: o in kept <==> o in objects && UnderCopiedDir(copiedDirs, o.path)
    ensures IsSubsequence(kept, objects)
    ensures forall o :: multiset(kept)[o] == if UnderCopiedDir(copiedDirs, o.path) then multiset(objects)[o] else 0
  {
    if objects == [] then []
    else
      var init, last := objects[..|objects| - 1], objects[|objects| - 1];
      assert forall o :: o in objects <==> o in init || o == last;
      MultisetSnoc(objects);
      var kept := KeptObjects(copiedDirs, init);
      if UnderCopiedDir(copiedDirs, last.path) then
        SubsequenceKeep(kept, objects);
        kept + [last]
      else
        SubsequenceSkip(kept, objects);
        kept
  }

  /** One more object: it is kept exactly when it lies under a kept directory. */
  lemma KeptObjectsStep(copiedDirs: seq<string>, objects: seq<WorkspaceObject>, i: nat)
    requires i < |objects|
    ensures KeptObjects(copiedDirs, objects[..i + 1]) ==
            KeptObjects(copiedDirs, objects[..i]) +
            (if UnderCopiedDir(copiedDirs, objects[i].path) then [objects[i]] else [])
  {
    assert objects[..i + 1][..i] == objects[..i];
  }

  /** The `object_id` of each workspace object, in order: the `file_ids` of line 308.
      `DirIds` is the same projection over directory records (`dir_ids`, lines 280
      and 290); the two record types are distinct, so each has its own. */
  function ObjectIds(objects: seq<WorkspaceObject>): (ids: seq<int>)
    decreases |objects|
    ensures |ids| == |objects|
    ensures forall i :: 0 <= i < |objects| ==> ids[i] == objects[i].objectId
  {
    if objects == [] then [] else ObjectIds(objects[..|objects| - 1]) + [objects[|objects| - 1].objectId]
  }

  /** The loop of lines 301-308: `file_ids` is collected whether or not the lines are
      written. */
  method FilterObjectLog(copiedDirs: seq<string>, src: seq<WorkspaceObject>, doCopy: bool)
    returns (written: seq<WorkspaceObject>, fileIds: seq<int>)
    ensures written == if doCopy then KeptObjects(copiedDirs, src) else []
    ensures fileIds == ObjectIds(KeptObjects(copiedDirs, src))
  {
    written, fileIds := [], [];
    ghost var kept: seq<WorkspaceObject> := [];
    for i := 0 to |src|
      invariant kept == KeptObjects(copiedDirs, src[..i])
      invariant written == if doCopy then kept else []
      invariant fileIds == ObjectIds(kept)
    {
      KeptObjectsStep(copiedDirs, src, i);
      var obj := src[i];
      if UnderCopiedDir(copiedDirs, obj.path) {
        if doCopy {
          written := written + [obj];
        }
        kept := kept + [obj];
        fileIds := fileIds + [obj.objectId];
      }
    }
    assert src[..|src|] == src;
  }

  /** The libraries lying under a kept directory, in source order. */
  function KeptLibraries(copiedDirs: seq<string>, libraries: seq<Library>): (kept: seq<Library>)
    decreases |libraries|
    ensures forall l :: l in kept <==> l in libraries && UnderCopiedDir(copiedDirs, l.path)
    ensures IsSubsequence(kept, libraries)
    ensures forall l :: multiset(kept)[l] == if UnderCopiedDir(copiedDirs, l.path) then multiset(libraries)[l] else 0
  {
    if libraries == [] then []
    else
      var init, last := libraries[..|libraries| - 1], libraries[|libraries| - 1];
      assert forall l :: l in libraries <==> l in init || l == last;
      MultisetSnoc(libraries);
      var kept := KeptLibraries(copiedDirs, init);
      if UnderCopiedDir(copiedDirs, last.path) then
        SubsequenceKeep(kept, libraries);
        kept + [last]
      else
        SubsequenceSkip(kept, libraries);
        kept
  }

  /** The loop of lines 335-339. */
  method FilterLibraryLog(copiedDirs: seq<string>, src: seq<Library>) returns (written: seq<Library>)
    ensures written == KeptLibraries(copiedDirs, src)
  {
    written := [];
    for i := 0 to |src|
      invariant written == KeptLibraries(copiedDirs, src[..i])
    {
      assert src[..i + 1][..i] == src[..i];
      if UnderCopiedDir(copiedDirs, src[i].path) {
        written := written + [src[i]];
      }
    }
    assert src[..|src|] == src;
  }

  // ---------------------------------------------------------------------------
  // The stage.

  /** The source logs the stage reads. */
  datatype WorkspaceSource = WorkspaceSource(
    dirs: seq<Directory>,
    objects: seq<WorkspaceObject>,
    dirAcls: seq<Acl>,
    notebookAcls: seq<Acl>,
    libraries: seq<Library>)

  /** Which of the stage's destination files already exist. */
  datatype WorkspaceDestination = WorkspaceDestination(
    dirs: bool,
    objects: bool,
    dirAcls: bool,
    notebookAcls: bool,
    libraries: bool)

  /** What the stage leaves behind. user_dirs.log and user_workspace.log are always
      rewritten; the other files are None when left as they were. */
  datatype WorkspaceOutcome = WorkspaceOutcome(
    userDirs: seq<Directory>,
    userWorkspace: seq<WorkspaceObject>,
    dirAcls: Option<seq<Acl>>,
    notebookAcls: Option<seq<Acl>>,
    libraries: Option<seq<Library>>)

  /** An ACL step guarded by a destination-exists test: Ok(None) when skipped. */
  function GuardedAcls(skip: bool, acls: seq<Acl>, prefix: string, keep: seq<int>, log: string): (r: Result<Option<seq<Acl>>>)
    requires prefix != []
  {
    if skip then Ok(None)
    else
      match KeptAclsById(acls, prefix, keep, log)
      case Err(e) => Err(e)
      case Ok(kept) => Ok(Some(kept))
  }

  /** `prune_workspace_metadata` as a function of the keep-sets, the source logs,
      which destination files exist, and the overwrite flag. */
  function WorkspaceStage(tags: seq<string>, users: seq<string>, src: WorkspaceSource,
                          dst: WorkspaceDestination, overwrite: bool): (r: Result<WorkspaceOutcome>)
  {
    match ScanDirs(tags, users, src.dirs, !(dst.dirs && !overwrite))
    case Err(e) => Err(e)
    case Ok(scan) =>
      var copiedDirs := Paths(scan.owned);
      var kept := KeptObjects(copiedDirs, src.objects);
      var userWorkspace := if dst.objects && !overwrite then [] else kept;
      match GuardedAcls(dst.dirAcls && !overwrite, src.dirAcls, DirAclPrefix, DirIds(scan.owned), "acl_directories.log")
      case Err(e) => Err(e)
      case Ok(dirAcls) =>
        match GuardedAcls(dst.notebookAcls && !overwrite, src.notebookAcls, NotebookAclPrefix,
                          ObjectIds(kept), "acl_notebooks.log")
        case Err(e) => Err(e)
        case Ok(notebookAcls) =>
          var libraries := if dst.libraries && !overwrite then None else Some(KeptLibraries(copiedDirs, src.libraries));
          Ok(WorkspaceOutcome(scan.written, userWorkspace, dirAcls, notebookAcls, libraries))
  }

  /** `prune_workspace_metadata` (lines 243-339). */
  method PruneWorkspaceMetadata(tags: seq<string>, users: seq<string>, src: WorkspaceSource,
                                dst: WorkspaceDestination, overwrite: bool) returns (r: Result<WorkspaceOutcome>)
    ensures r == WorkspaceStage(tags, users, src, dst, overwrite)
  {
    var doCopy := !(dst.dirs && !overwrite);
    var dirs := FilterDirLog(tags, users, src.dirs, doCopy);
    if dirs.Err? {
      return Err(dirs.error);
    }
    var (userDirs, copiedDirs, dirIds) := dirs.value;

    doCopy := !(dst.objects && !overwrite);
    var userWorkspace, fileIds := FilterObjectLog(copiedDirs, src.objects, doCopy);

    var dirAcls: Option<seq<Acl>> := None;
    if !(dst.dirAcls && !overwrite) {
      var kept := FilterAclsById(src.dirAcls, DirAclPrefix, dirIds, "acl_directories.log");
      if kept.Err? {
        return Err(kept.error);
      }
      dirAcls := Some(kept.value);
    }

    var notebookAcls: Option<seq<Acl>> := None;
    if !(dst.notebookAcls && !overwrite) {
      var kept := FilterAclsById(src.notebookAcls, NotebookAclPrefix, fileIds, "acl_notebooks.log");
      if kept.Err? {
        return Err(kept.error);
      }
      notebookAcls := Some(kept.value);
    }

    var libraries: Option<seq<Library>> := None;
    if !(dst.libraries && !overwrite) {
      var kept := FilterLibraryLog(copiedDirs, src.libraries);
      libraries := Some(kept);
    }
    r := Ok(WorkspaceOutcome(userDirs, userWorkspace, dirAcls, notebookAcls, libraries));
  }

  /** With overwrite on, the stage does not look at the destination. */
  lemma WorkspaceOverwriteIgnoresDestination(tags: seq<string>, users: seq<string>, src: WorkspaceSource,
                                             one: WorkspaceDestination, other: WorkspaceDestination)
    ensures WorkspaceStage(tags, users, src, one, true) == WorkspaceStage(tags, users, src, other, true)
  {
  }

  // ---------------------------------------------------------------------------
  // Properties of the classification.

  /** The pieces of `/<root>/<name>` split on `/`. */
  lemma ShortPathPieces(root: string, name: string)
    requires '/' !in root && '/' !in name
    ensures Split(['/'] + root + ['/'] + name, Slash) == ["", root, name]
  {
    assert Slash == ['/'];
    MissingCharNotContained(Slash, name, 0);
    SplitWithout(name, Slash);
    SplitAtChar(root, '/', name);
    var short := root + ['/'] + name;
    Regroup4(['/'], root, ['/'], name);
    SplitAtChar([], '/', short);
    Triple("", root, name);
  }

  /** The pieces of `/<root>/<name>/<rest>` split on `/`. */
  lemma LongPathPieces(root: string, name: string, rest: string)
    requires '/' !in root && '/' !in name
    ensures Split(['/'] + root + ['/'] + name + ['/'] + rest, Slash) == ["", root, name] + Split(rest, Slash)
  {
    assert Slash == ['/'];
    var tail := name + ['/'] + rest;
    SplitAtChar(name, '/', rest);
    var long := root + ['/'] + tail;
    SplitAtChar(root, '/', tail);
    Regroup(['/'], root, ['/'], name, ['/'], rest);
    SplitAtChar([], '/', long);
    Cons3("", root, name, Split(rest, Slash));
  }

  /** `/Users/<u>` and anything below it is owned exactly when `u` is a kept user. */
  lemma UserDirClass(tags: seq<string>, users: seq<string>, u: string, rest: string)
    requires '/' !in u
    ensures ClassifyDir(tags, users, "/Users/" + u) == Some(if u in users then Owned else Unowned)
    ensures ClassifyDir(tags, users, "/Users/" + u + "/" + rest) == Some(if u in users then Owned else Unowned)
  {
    assert "/Users/" == ['/'] + "Users" + ['/'] && "/" == ['/'];
    ShortPathPieces("Users", u);
    LongPathPieces("Users", u, rest);
  }

  /** `/teams/<team>` and anything below it is owned exactly when the team test
      matches `team`, and unclassifiable when that test raises. */
  lemma TeamDirClass(tags: seq<string>, users: seq<string>, team: string, rest: string)
    requires '/' !in team
    ensures var expected := match TeamMatch(tags, team)
                            case None => None
                            case Some(matched) => Some(if matched then Owned else Unowned);
      ClassifyDir(tags, users, "/teams/" + team) == expected &&
      ClassifyDir(tags, users, "/teams/" + team + "/" + rest) == expected
  {
    assert "/teams/" == ['/'] + "teams" + ['/'] && "/" == ['/'];
    ShortPathPieces("teams", team);
    LongPathPieces("teams", team, rest);
  }

  /** A directory `/<root>/<name>...` below a root other than `Users` and `teams` is
      dropped, whatever follows. */
  lemma OtherRootUnowned(tags: seq<string>, users: seq<string>, root: string, name: string, rest: string)
    requires '/' !in root && '/' !in name && root != "Users" && root != "teams"
    ensures ClassifyDir(tags, users, "/" + root + "/" + name + "/" + rest) == Some(Unowned)
  {
    assert "/" == ['/'];
    LongPathPieces(root, name, rest);
  }

  /** The literal paths of the scenarios below, assembled from their pieces. */
  lemma TeamScenarioPath()
    ensures "/teams/" + "alpha" + "/" + "notebook_dir" == "/teams/alpha/notebook_dir"
  {
  }

  lemma WorkspaceScenarioPath()
    ensures "/" + "Workspace" + "/" + "teams" + "/" + "alpha/notebook_dir" == "/Workspace/teams/alpha/notebook_dir"
  {
  }

  lemma UserScenarioPaths()
    ensures "/Users/" + "al" == "/Users/al" && "/Users/" + "alice" == "/Users/alice"
    ensures "/Users/al" + "ice/nb" == "/Users/alice/nb"
  {
  }

  /** With tags `["team_alpha"]`, `/teams/alpha/notebook_dir` is owned, through the
      stripped tag `alpha`. */
  lemma AlphaTeamDirOwned(users: seq<string>)
    ensures ClassifyDir(["team_alpha"], users, "/teams/alpha/notebook_dir") == Some(Owned)
  {
    TeamAlphaMatchesAlpha();
    TeamDirClass(["team_alpha"], users, "alpha", "notebook_dir");
    TeamScenarioPath();
  }

  /** `/Workspace/teams/alpha/notebook_dir` is dropped whatever the tags: its second
      path piece is `Workspace`, not `teams`. */
  lemma WorkspaceTeamDirDropped(tags: seq<string>, users: seq<string>)
    ensures ClassifyDir(tags, users, "/Workspace/teams/alpha/notebook_dir") == Some(Unowned)
  {
    OtherRootUnowned(tags, users, "Workspace", "teams", "alpha/notebook_dir");
    WorkspaceScenarioPath();
  }

  // ---------------------------------------------------------------------------
  // Properties of the keep-sets.

  /** `copied_dirs` holds the paths of exactly the owned directories. */
  lemma {:induction false} RecordedPaths(tags: seq<string>, users: seq<string>, dirs: seq<Directory>, doCopy: bool, p: string)
    requires ScanDirs(tags, users, dirs, doCopy).Ok?
    ensures p in Paths(ScanDirs(tags, users, dirs, doCopy).value.owned) <==>
      exists d :: d in dirs && d.path == p && ClassifyDir(tags, users, p) == Some(Owned)
  {
    var owned := ScanDirs(tags, users, dirs, doCopy).value.owned;
    if p in Paths(owned) {
      var i :| 0 <= i < |owned| && Paths(owned)[i] == p;
      assert owned[i] in owned;
    }
    if d :| d in dirs && d.path == p && ClassifyDir(tags, users, p) == Some(Owned) {
      var i :| 0 <= i < |owned| && owned[i] == d;
      assert Paths(owned)[i] == p;
    }
  }

  /** `dir_ids` holds the ids of exactly the owned directories. */
  lemma {:induction false} RecordedIds(tags: seq<string>, users: seq<string>, dirs: seq<Directory>, doCopy: bool, id: int)
    requires ScanDirs(tags, users, dirs, doCopy).Ok?
    ensures id in DirIds(ScanDirs(tags, users, dirs, doCopy).value.owned) <==>
      exists d :: d in dirs && d.objectId == id && ClassifyDir(tags, users, d.path) == Some(Owned)
  {
    var owned := ScanDirs(tags, users, dirs, doCopy).value.owned;
    if id in DirIds(owned) {
      var i :| 0 <= i < |owned| && DirIds(owned)[i] == id;
      assert owned[i] in owned;
    }
    if d :| d in dirs && d.objectId == id && ClassifyDir(tags, users, d.path) == Some(Owned) {
      var i :| 0 <= i < |owned| && owned[i] == d;
      assert DirIds(owned)[i] == id;
    }
  }

  /** A top-level directory is written but never recorded in `copied_dirs`. */
  lemma TopLevelNeverRecorded(tags: seq<string>, users: seq<string>, dirs: seq<Directory>, doCopy: bool, p: string)
    requires ScanDirs(tags, users, dirs, doCopy).Ok?
    requires |Split(p, Slash)| == 2
    ensures p !in Paths(ScanDirs(tags, users, dirs, doCopy).value.owned)
  {
    RecordedPaths(tags, users, dirs, doCopy, p);
  }

  /** An object whose path extends a kept directory's path is kept. */
  lemma ObjectBelowCopiedDirKept(copiedDirs: seq<string>, objects: seq<WorkspaceObject>, d: string, rest: string, id: int)
    requires d in copiedDirs && WorkspaceObject(d + rest, id) in objects
    ensures WorkspaceObject(d + rest, id) in KeptObjects(copiedDirs, objects)
  {
    PrefixContained(d, d + rest);
  }

  /** A log holding one owned directory records its path. */
  lemma SingleOwnedDir(tags: seq<string>, users: seq<string>, d: Directory, doCopy: bool)
    requires ClassifyDir(tags, users, d.path) == Some(Owned)
    ensures ScanDirs(tags, users, [d], doCopy).Ok?
    ensures Paths(ScanDirs(tags, users, [d], doCopy).value.owned) == [d.path]
  {
    assert [d][..0] == [];
  }

  /** Objects are matched by substring, not by parent directory: when only user `al`
      is kept, `/Users/al` is recorded, and the notebook `/Users/alice/nb` of user
      `alice`, whose own directory is dropped, is kept too. */
  lemma SiblingUserObjectKept(tags: seq<string>)
    ensures ClassifyDir(tags, ["al"], "/Users/alice") == Some(Unowned)
    ensures ScanDirs(tags, ["al"], [Directory("/Users/al", 1)], true).Ok?
    ensures Paths(ScanDirs(tags, ["al"], [Directory("/Users/al", 1)], true).value.owned) == ["/Users/al"]
    ensures WorkspaceObject("/Users/alice/nb", 2) in KeptObjects(["/Users/al"], [WorkspaceObject("/Users/alice/nb", 2)])
  {
    UserScenarioPaths();
    UserDirClass(tags, ["al"], "alice", "");
    UserDirClass(tags, ["al"], "al", "");
    SingleOwnedDir(tags, ["al"], Directory("/Users/al", 1), true);
    PrefixContained("/Users/al", "/Users/al" + "ice/nb");
    assert UnderCopiedDir(["/Users/al"], "/Users/alice/nb");
  }

  // ---------------------------------------------------------------------------
  // Properties of the stage.

  /** user_dirs.log and user_workspace.log are emptied when their skip test holds
      (the files are opened for writing before the test is consulted); otherwise
      they hold exactly the top-level and owned directories and the objects under a
      recorded directory. */
  lemma UserLogs(tags: seq<string>, users: seq<string>, src: WorkspaceSource,
                 dst: WorkspaceDestination, overwrite: bool)
    requires WorkspaceStage(tags, users, src, dst, overwrite).Ok?
    ensures var out := WorkspaceStage(tags, users, src, dst, overwrite).value;
      var copiedDirs := Paths(ScanDirs(tags, users, src.dirs, !(dst.dirs && !overwrite)).value.owned);
      (dst.dirs && !overwrite ==> out.userDirs == []) &&
      (dst.objects && !overwrite ==> out.userWorkspace == []) &&
      (!(dst.dirs && !overwrite) ==> forall d :: d in out.userDirs <==>
         d in src.dirs && ClassifyDir(tags, users, d.path) != Some(Unowned)) &&
      (!(dst.objects && !overwrite) ==> forall o :: o in out.userWorkspace <==>
         o in src.objects && UnderCopiedDir(copiedDirs, o.path))
  {
  }

  /** Referential integrity of acl_directories.log: every written entry names an
      owned source directory, and an entry `/directories/<id>` is written exactly
      when an owned source directory has that id. */
  lemma DirAclsFollowOwnedDirs(tags: seq<string>, users: seq<string>, src: WorkspaceSource,
                               dst: WorkspaceDestination, overwrite: bool, id: int)
    requires WorkspaceStage(tags, users, src, dst, overwrite).Ok?
    requires WorkspaceStage(tags, users, src, dst, overwrite).value.dirAcls.Some?
    ensures var out := WorkspaceStage(tags, users, src, dst, overwrite).value;
      (forall a :: a in out.dirAcls.value ==>
         HasNumericKey(a, DirAclPrefix) &&
         exists d :: d in src.dirs && d.objectId == AclId(a, DirAclPrefix) &&
                     ClassifyDir(tags, users, d.path) == Some(Owned)) &&
      (Acl(DirAclPrefix + IntToString(id)) in src.dirAcls ==>
         (Acl(DirAclPrefix + IntToString(id)) in out.dirAcls.value <==>
          exists d :: d in src.dirs && d.objectId == id && ClassifyDir(tags, users, d.path) == Some(Owned)))
  {
    var owned := ScanDirs(tags, users, src.dirs, !(dst.dirs && !overwrite)).value.owned;
    var out := WorkspaceStage(tags, users, src, dst, overwrite).value;
    var acls := KeptAclsById(src.dirAcls, DirAclPrefix, DirIds(owned), "acl_directories.log");
    assert acls.Ok? && out.dirAcls == Some(acls.value);
    forall a | a in out.dirAcls.value
      ensures HasNumericKey(a, DirAclPrefix) &&
              exists d :: d in src.dirs && d.objectId == AclId(a, DirAclPrefix) &&
                          ClassifyDir(tags, users, d.path) == Some(Owned)
    {
      RecordedIds(tags, users, src.dirs, !(dst.dirs && !overwrite), AclId(a, DirAclPrefix));
    }
    RecordedIds(tags, users, src.dirs, !(dst.dirs && !overwrite), id);
    IdOfPrefixed(DirAclPrefix, id);
  }

  /** The ids in `file_ids` are those of the kept objects. */
  lemma ObjectIdsOf(objects: seq<WorkspaceObject>, n: int)
    ensures n in ObjectIds(objects) <==> exists o :: o in objects && o.objectId == n
  {
    if n in ObjectIds(objects) {
      var i :| 0 <= i < |objects| && ObjectIds(objects)[i] == n;
      assert objects[i] in objects;
    }
    if o :| o in objects && o.objectId == n {
      var i :| 0 <= i < |objects| && objects[i] == o;
      assert ObjectIds(objects)[i] == n;
    }
  }

  /** Referential integrity of acl_notebooks.log: every written entry names a kept
      workspace object, and an entry `/notebooks/<id>` is written exactly when a kept
      object has that id. */
  lemma NotebookAclsFollowKeptObjects(tags: seq<string>, users: seq<string>, src: WorkspaceSource,
                                      dst: WorkspaceDestination, overwrite: bool, id: int)
    requires WorkspaceStage(tags, users, src, dst, overwrite).Ok?
    requires WorkspaceStage(tags, users, src, dst, overwrite).value.notebookAcls.Some?
    ensures var out := WorkspaceStage(tags, users, src, dst, overwrite).value;
      var kept := KeptObjects(Paths(ScanDirs(tags, users, src.dirs, !(dst.dirs && !overwrite)).value.owned), src.objects);
      (forall a :: a in out.notebookAcls.value ==>
         HasNumericKey(a, NotebookAclPrefix) &&
         exists o :: o in kept && o.objectId == AclId(a, NotebookAclPrefix)) &&
      (Acl(NotebookAclPrefix + IntToString(id)) in src.notebookAcls ==>
         (Acl(NotebookAclPrefix + IntToString(id)) in out.notebookAcls.value <==>
          exists o :: o in kept && o.objectId == id))
  {
    var kept := KeptObjects(Paths(ScanDirs(tags, users, src.dirs, !(dst.dirs && !overwrite)).value.owned), src.objects);
    var out := WorkspaceStage(tags, users, src, dst, overwrite).value;
    var acls := KeptAclsById(src.notebookAcls, NotebookAclPrefix, ObjectIds(kept), "acl_notebooks.log");
    assert acls.Ok? && out.notebookAcls == Some(acls.value);
    forall a | a in out.notebookAcls.value
      ensures HasNumericKey(a, NotebookAclPrefix) && exists o :: o in kept && o.objectId == AclId(a, NotebookAclPrefix)
    {
      ObjectIdsOf(kept, AclId(a, NotebookAclPrefix));
    }
    ObjectIdsOf(kept, id);
    IdOfPrefixed(NotebookAclPrefix, id);
  }
}
