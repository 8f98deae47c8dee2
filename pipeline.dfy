/** `prune_all_resources` (pruneExport.py:7-62): the stages run in their fixed
    order, each keep-set handed on to the stages that depend on it. */
module Pipeline {
  import opened Base
  import opened Records
  import opened Clusters
  import opened Jobs
  import opened InstanceProfiles
  import opened Groups
  import opened Users
  import opened Workspace

  /** The export being pruned: the logs and group files the stages read. */
  datatype Export = Export(
    clusters: seq<Cluster>,
    clusterAcls: seq<Acl>,
    jobs: seq<Job>,
    jobAcls: seq<Acl>,
    profiles: seq<InstanceProfile>,
    groupListing: Option<seq<string>>,
    groupFiles: map<string, seq<string>>,
    users: seq<User>,
    workspace: WorkspaceSource)

  /** The destination tree, one entry per file the stages write (None when the file
      is absent); `groups` is the listing of the groups directory. */
  datatype Tree = Tree(
    clusters: Option<seq<Cluster>>,
    clusterAcls: Option<seq<Acl>>,
    jobs: Option<seq<Job>>,
    jobAcls: Option<seq<Acl>>,
    profiles: Option<seq<InstanceProfile>>,
    groups: Option<seq<string>>,
    users: Option<seq<User>>,
    userDirs: Option<seq<Directory>>,
    userWorkspace: Option<seq<WorkspaceObject>>,
    dirAcls: Option<seq<Acl>>,
    notebookAcls: Option<seq<Acl>>,
    libraries: Option<seq<Library>>)

  /** How a run ends: the source root is missing (return code -1), a stage raises,
      or the run finishes (return code 0) leaving the destination tree. */
  datatype Run = SourceMissing | Failed(error: Error) | Done(tree: Tree)

  /** The destination created by lines 22-24: the root and an empty groups directory. */
  const Fresh: Tree := Tree(None, None, None, None, None, Some([]), None, None, None, None, None, None)

  /** A file after a stage: rewritten when the stage produced contents, else as it was. */
  function Update<T>(before: Option<T>, written: Option<T>): (after: Option<T>)
  {
    if written.Some? then written else before
  }

  /** The part of the run from the groups stage on (lines 37-44), on the tree left by
      the earlier stages. */
  function PruneUsersAndWorkspace(tags: seq<string>, src: Export, t: Tree, overwrite: bool): (run: Run)
  {
    match GroupStage(tags, src.groupListing, src.groupFiles, t.groups, overwrite)
    case Err(e) => Failed(e)
    case Ok(g) =>
      var users := if t.users.Some? && !overwrite then t.users else Some(KeptUsers(g.users, src.users));
      var dst := WorkspaceDestination(t.userDirs.Some?, t.userWorkspace.Some?, t.dirAcls.Some?,
                                      t.notebookAcls.Some?, t.libraries.Some?);
      match WorkspaceStage(tags, g.users, src.workspace, dst, overwrite)
      case Err(e) => Failed(e)
      case Ok(w) =>
        Done(t.(groups := Some(g.groups), users := users,
                userDirs := Some(w.userDirs), userWorkspace := Some(w.userWorkspace),
                dirAcls := Update(t.dirAcls, w.dirAcls), notebookAcls := Update(t.notebookAcls, w.notebookAcls),
                libraries := Update(t.libraries, w.libraries)))
  }

  /** `prune_all_resources` as a function of the tags, the export (None when the
      source root is missing), the destination tree (None when the destination root
      is missing) and the overwrite flag. */
  function PruneAll(tags: seq<string>, src: Option<Export>, dst: Option<Tree>, overwrite: bool): (run: Run)
  {
    if src.None? then SourceMissing
    else
      var e := src.value;
      var t := if dst.Some? then dst.value else Fresh;
      match ClusterStage(tags, e.clusters, e.clusterAcls, t.clusters, overwrite)
      case Err(err) => Failed(err)
      case Ok(c) =>
        var t := t.(clusters := Update(t.clusters, c.clustersLog), clusterAcls := Update(t.clusterAcls, c.aclLog));
        match JobStage(tags, c.copied, e.jobs, e.jobAcls, t.jobs, t.jobAcls.Some?, overwrite)
        case Err(err) => Failed(err)
        case Ok(j) =>
          var profiles := if t.profiles.Some? && !overwrite then t.profiles else Some(KeptProfiles(tags, e.profiles));
          var t := t.(jobs := Update(t.jobs, j.jobsLog), jobAcls := Update(t.jobAcls, j.aclLog), profiles := profiles);
          PruneUsersAndWorkspace(tags, e, t, overwrite)
  }

  /** `prune_all_resources` (lines 7-62), without the verbatim copies of lines 46-59. */
  method PruneAllResources(tags: seq<string>, src: Option<Export>, dst: Option<Tree>, overwrite: bool)
    returns (r: Run)
    ensures r == PruneAll(tags, src, dst, overwrite)
  {
    if src.None? {
      return SourceMissing;
    }
    var e := src.value;
    var t := if dst.Some? then dst.value else Fresh;

    var clusters := PruneClusters(tags, e.clusters, e.clusterAcls, t.clusters, overwrite);
    if clusters.Err? {
      return Failed(clusters.error);
    }
    var c := clusters.value;
    t := t.(clusters := Update(t.clusters, c.clustersLog), clusterAcls := Update(t.clusterAcls, c.aclLog));

    var jobs := PruneJobs(tags, c.copied, e.jobs, e.jobAcls, t.jobs, t.jobAcls.Some?, overwrite);
    if jobs.Err? {
      return Failed(jobs.error);
    }
    t := t.(jobs := Update(t.jobs, jobs.value.jobsLog), jobAcls := Update(t.jobAcls, jobs.value.aclLog));

    var profiles := PruneInstanceProfiles(tags, e.profiles, t.profiles.Some?, overwrite);
    t := t.(profiles := Update(t.profiles, profiles));

    var groups := PruneGroups(tags, e.groupListing, e.groupFiles, t.groups, overwrite);
    if groups.Err? {
      return Failed(groups.error);
    }
    var g := groups.value;
    var users := PruneUsers(g.users, e.users, t.users.Some?, overwrite);

    var wdst := WorkspaceDestination(t.userDirs.Some?, t.userWorkspace.Some?, t.dirAcls.Some?,
                                     t.notebookAcls.Some?, t.libraries.Some?);
    var workspace := PruneWorkspaceMetadata(tags, g.users, e.workspace, wdst, overwrite);
    if workspace.Err? {
      return Failed(workspace.error);
    }
    var w := workspace.value;
    r := Done(t.(groups := Some(g.groups), users := Update(t.users, users),
                 userDirs := Some(w.userDirs), userWorkspace := Some(w.userWorkspace),
                 dirAcls := Update(t.dirAcls, w.dirAcls), notebookAcls := Update(t.notebookAcls, w.notebookAcls),
                 libraries := Update(t.libraries, w.libraries)));
  }

  // ---------------------------------------------------------------------------
  // Properties of a run.

  /** Without overwrite, a fresh destination keeps no users: the groups directory
      created at line 24 sends the groups stage into its skip branch over an empty
      listing, so `users_to_keep` is empty and users.log is written empty. The
      cluster ACLs are not written either. */
  lemma FreshRunWithoutOverwrite(tags: seq<string>, e: Export)
    requires PruneAll(tags, Some(e), None, false).Done?
    ensures var t := PruneAll(tags, Some(e), None, false).tree;
      t.groups == Some([]) && t.users == Some([]) && t.clusterAcls.None? &&
      t.clusters == Some(KeptClusters(tags, e.clusters))
  {
    assert GroupStage(tags, e.groupListing, e.groupFiles, Some([]), false) == Ok(GroupOutcome([], []));
    NoKeepSetNoUsers(e.users);
  }

  /** A job without `custom_tags` reaches jobs.log, on a fresh destination or when
      overwriting, exactly when its `existing_cluster_id` is the id of a tagged
      source cluster. */
  lemma JobsThroughKeptClusters(tags: seq<string>, e: Export, dst: Option<Tree>, overwrite: bool, j: Job)
    requires dst.None? || overwrite
    requires PruneAll(tags, Some(e), dst, overwrite).Done?
    requires j in e.jobs && j.settings.customTags.None?
    ensures PruneAll(tags, Some(e), dst, overwrite).tree.jobs.Some?
    ensures j in PruneAll(tags, Some(e), dst, overwrite).tree.jobs.value <==>
      j.settings.existingClusterId.Some? &&
      exists c :: c in e.clusters && KeepCluster(tags, c) && c.clusterId == j.settings.existingClusterId.value
  {
    var t := if dst.Some? then dst.value else Fresh;
    ClusterKeepSet(tags, e.clusters, e.clusterAcls, t.clusters, overwrite);
  }

  /** An existing clusters.log is authoritative when not overwriting: a job without
      `custom_tags` written to a new jobs.log is judged against the ids listed there,
      not against the source clusters. */
  lemma JobsFollowExistingClusters(tags: seq<string>, e: Export, t: Tree, j: Job)
    requires t.clusters.Some? && t.jobs.None?
    requires PruneAll(tags, Some(e), Some(t), false).Done?
    requires j in e.jobs && j.settings.customTags.None?
    ensures PruneAll(tags, Some(e), Some(t), false).tree.jobs.Some?
    ensures j in PruneAll(tags, Some(e), Some(t), false).tree.jobs.value <==>
      j.settings.existingClusterId.Some? && j.settings.existingClusterId.value in ClusterIds(t.clusters.value)
  {
    ClusterKeepSet(tags, e.clusters, e.clusterAcls, t.clusters, false);
  }

  /** A run without overwrite over an existing tree leaves every file that exists
      there as it was, except user_dirs.log and user_workspace.log, which it empties. */
  lemma SkipRun(tags: seq<string>, e: Export, t: Tree)
    requires PruneAll(tags, Some(e), Some(t), false).Done?
    ensures var after := PruneAll(tags, Some(e), Some(t), false).tree;
      (t.clusters.Some? ==> after.clusters == t.clusters) &&
      after.clusterAcls == t.clusterAcls &&
      (t.jobs.Some? ==> after.jobs == t.jobs) &&
      (t.jobAcls.Some? ==> after.jobAcls == t.jobAcls) &&
      (t.profiles.Some? ==> after.profiles == t.profiles) &&
      (t.groups.Some? ==> after.groups == t.groups) &&
      (t.users.Some? ==> after.users == t.users) &&
      (t.userDirs.Some? ==> after.userDirs == Some([])) &&
      (t.userWorkspace.Some? ==> after.userWorkspace == Some([])) &&
      (t.dirAcls.Some? ==> after.dirAcls == t.dirAcls) &&
      (t.notebookAcls.Some? ==> after.notebookAcls == t.notebookAcls) &&
      (t.libraries.Some? ==> after.libraries == t.libraries)
  {
    if t.groups.Some? {
      ScanWithoutCopyKeepsListing(tags, t.groups.value, e.groupFiles, t.groups.value);
    }
  }

  /** Overwriting is idempotent: running again with overwrite on the tree a run with
      overwrite produced gives that same tree. */
  lemma OverwriteIdempotent(tags: seq<string>, e: Export, dst: Option<Tree>)
    requires PruneAll(tags, Some(e), dst, true).Done?
    ensures PruneAll(tags, Some(e), Some(PruneAll(tags, Some(e), dst, true).tree), true) ==
            PruneAll(tags, Some(e), dst, true)
  {
    var t := if dst.Some? then dst.value else Fresh;
    var after := PruneAll(tags, Some(e), dst, true).tree;
    var groupDst := if t.groups.Some? then t.groups.value else [];
    var g := GroupScan(tags, e.groupListing.value, e.groupFiles, true, groupDst).value;
    ScanIntoSuperset(tags, e.groupListing.value, e.groupFiles, groupDst, g.groups);
    ClusterOverwriteIgnoresDestination(tags, e.clusters, e.clusterAcls, after.clusters, t.clusters);
    var c := ClusterStage(tags, e.clusters, e.clusterAcls, t.clusters, true).value;
    JobOverwriteIgnoresDestination(tags, c.copied, e.jobs, e.jobAcls, after.jobs, true, t.jobs, t.jobAcls.Some?);
    WorkspaceOverwriteIgnoresDestination(tags, g.users, e.workspace,
      WorkspaceDestination(true, true, after.dirAcls.Some?, after.notebookAcls.Some?, after.libraries.Some?),
      WorkspaceDestination(t.userDirs.Some?, t.userWorkspace.Some?, t.dirAcls.Some?,
                           t.notebookAcls.Some?, t.libraries.Some?));
  }
}
