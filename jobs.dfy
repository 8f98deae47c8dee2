/** `prune_jobs` (pruneExport.py:130-171): keep the jobs tagged with one of the
    requested teams or attached to a kept cluster, then filter the job ACLs by the
    ids of the jobs in the destination jobs.log. */
module Jobs {
  import opened Base
  import opened Strings
  import opened Records
  import opened Tags
  import opened Acls

  const JobAclPrefix: string := "/jobs/"

  /** Lines 144-155. A job whose settings carry `custom_tags` is decided by its
      `z_team` tag alone; only a job without them is decided by whether its
      `existing_cluster_id` is a kept cluster; a job with neither is dropped. */
  predicate KeepJob(tags: seq<string>, clusters: seq<string>, j: Job)
  {
    match j.settings.customTags
    case Some(jobTags) => TeamTagIn(tags, jobTags)
    case None => j.settings.existingClusterId.Some? && j.settings.existingClusterId.value in clusters
  }

  /** The jobs written to the destination jobs.log, in source order. */
  function KeptJobs(tags: seq<string>, clusters: seq<string>, jobs: seq<Job>): (kept: seq<Job>)
    decreases |jobs|
    ensures forall j :: j in kept <==> j in jobs && KeepJob(tags, clusters, j)
    ensures IsSubsequence(kept, jobs)
    ensures forall j :: multiset(kept)[j] == if KeepJob(tags, clusters, j) then multiset(jobs)[j] else 0
  {
    if jobs == [] then []
    else
      var init, last := jobs[..|jobs| - 1], jobs[|jobs| - 1];
      assert forall j :: j in jobs <==> j in init || j == last;
      MultisetSnoc(jobs);
      var kept := KeptJobs(tags, clusters, init);
      if KeepJob(tags, clusters, last) then
        SubsequenceKeep(kept, jobs);
        kept + [last]
      else
        SubsequenceSkip(kept, jobs);
        kept
  }

  /** The `job_id` of each job, in order. */
  function JobIds(jobs: seq<Job>): (ids: seq<int>)
    decreases |jobs|
    ensures |ids| == |jobs|
    ensures forall i :: 0 <= i < |jobs| ==> ids[i] == jobs[i].jobId
  {
    if jobs == [] then []
    else JobIds(jobs[..|jobs| - 1]) + [jobs[|jobs| - 1].jobId]
  }

  /** The loop of lines 142-155. (The list of ids it also collects is discarded at
      line 161, so it is not modelled.) */
  method FilterJobLog(tags: seq<string>, clusters: seq<string>, src: seq<Job>) returns (written: seq<Job>)
    ensures written == KeptJobs(tags, clusters, src)
  {
    written := [];
    for i := 0 to |src|
      invariant written == KeptJobs(tags, clusters, src[..i])
    {
      assert src[..i + 1][..i] == src[..i];
      var job := src[i];
      var settings := job.settings;
      if settings.customTags.Some? {
        var jobTags := settings.customTags.value;
        if TeamKey !in jobTags {
          continue;
        } else if jobTags[TeamKey] in tags {
          written := written + [job];
        }
      } else if settings.existingClusterId.Some? {
        if settings.existingClusterId.value in clusters {
          written := written + [job];
        }
      }
    }
    assert src[..|src|] == src;
  }

  /** The loop of lines 161-165: the ids of the jobs in the destination jobs.log. */
  method ReadJobIds(log: seq<Job>) returns (ids: seq<int>)
    ensures ids == JobIds(log)
  {
    ids := [];
    for i := 0 to |log|
      invariant ids == JobIds(log[..i])
    {
      assert log[..i + 1][..i] == log[..i];
      ids := ids + [log[i].jobId];
    }
    assert log[..|log|] == log;
  }

  /** What the stage leaves behind: the new jobs.log and acl_jobs.log, None when the
      stage leaves the destination file as it was. */
  datatype JobOutcome = JobOutcome(jobsLog: Option<seq<Job>>, aclLog: Option<seq<Acl>>)

  /** The jobs.log present at the destination once the job step has run. */
  function JobsAtDestination(tags: seq<string>, clusters: seq<string>, src: seq<Job>,
                             dstJobs: Option<seq<Job>>, overwrite: bool): (present: seq<Job>)
  {
    if dstJobs.Some? && !overwrite then dstJobs.value else KeptJobs(tags, clusters, src)
  }

  /** `prune_jobs` as a function of the source logs, the destination's existing
      jobs.log (None when absent), whether acl_jobs.log exists there, and the
      overwrite flag. The ACL keep-set is read back from the destination jobs.log. */
  function JobStage(tags: seq<string>, clusters: seq<string>, src: seq<Job>, srcAcls: seq<Acl>,
                    dstJobs: Option<seq<Job>>, dstAclExists: bool, overwrite: bool): (r: Result<JobOutcome>)
  {
    var jobsLog := if dstJobs.Some? && !overwrite then None else Some(KeptJobs(tags, clusters, src));
    if dstAclExists && !overwrite then Ok(JobOutcome(jobsLog, None))
    else
      var keep := JobIds(JobsAtDestination(tags, clusters, src, dstJobs, overwrite));
      match KeptAclsById(srcAcls, JobAclPrefix, keep, "acl_jobs.log")
      case Err(e) => Err(e)
      case Ok(acls) => Ok(JobOutcome(jobsLog, Some(acls)))
  }

  /** `prune_jobs` (lines 130-171). */
  method PruneJobs(tags: seq<string>, clusters: seq<string>, src: seq<Job>, srcAcls: seq<Acl>,
                   dstJobs: Option<seq<Job>>, dstAclExists: bool, overwrite: bool) returns (r: Result<JobOutcome>)
    ensures r == JobStage(tags, clusters, src, srcAcls, dstJobs, dstAclExists, overwrite)
  {
    var jobsLog: Option<seq<Job>>;
    var atDestination: seq<Job>;
    if dstJobs.Some? && !overwrite {
      jobsLog, atDestination := None, dstJobs.value;
    } else {
      var written := FilterJobLog(tags, clusters, src);
      jobsLog, atDestination := Some(written), written;
    }
    if dstAclExists && !overwrite {
      return Ok(JobOutcome(jobsLog, None));
    }
    var jobIds := ReadJobIds(atDestination);
    var acls := FilterAclsById(srcAcls, JobAclPrefix, jobIds, "acl_jobs.log");
    match acls
    case Err(e) => r := Err(e);
    case Ok(kept) => r := Ok(JobOutcome(jobsLog, Some(kept)));
  }

  // ---------------------------------------------------------------------------
  // Properties of the stage.

  /** With overwrite on, the stage does not look at the destination. */
  lemma JobOverwriteIgnoresDestination(tags: seq<string>, clusters: seq<string>, src: seq<Job>, srcAcls: seq<Acl>,
                                       one: Option<seq<Job>>, oneAcls: bool, other: Option<seq<Job>>, otherAcls: bool)
    ensures JobStage(tags, clusters, src, srcAcls, one, oneAcls, true) ==
            JobStage(tags, clusters, src, srcAcls, other, otherAcls, true)
  {
  }

  /** Every kept job is justified: its `z_team` tag is requested, or it has no
      `custom_tags` and runs on a kept cluster. */
  lemma KeptJobsJustified(tags: seq<string>, clusters: seq<string>, jobs: seq<Job>, j: Job)
    requires j in KeptJobs(tags, clusters, jobs)
    ensures (j.settings.customTags.Some? && TeamKey in j.settings.customTags.value &&
             j.settings.customTags.value[TeamKey] in tags) ||
            (j.settings.customTags.None? && j.settings.existingClusterId.Some? &&
             j.settings.existingClusterId.value in clusters)
  {
  }

  /** A job with `custom_tags` is decided by its tag whatever its existing cluster:
      changing or dropping `existing_cluster_id`, or emptying the cluster keep-set,
      does not change whether it is kept. */
  lemma TagsOverrideCluster(tags: seq<string>, clusters: seq<string>, j: Job, other: Option<string>)
    requires j.settings.customTags.Some?
    ensures var moved := j.(settings := j.settings.(existingClusterId := other));
      (KeepJob(tags, clusters, j) <==> KeepJob(tags, clusters, moved)) &&
      (KeepJob(tags, clusters, j) <==> KeepJob(tags, [], j))
  {
  }

  /** The ACL keep-set is re-derived from the destination jobs.log: a written job ACL
      is the entry of a job present there, and an entry `/jobs/<id>` is written
      exactly when a job with that id is present there. */
  lemma JobAclsFollowDestination(tags: seq<string>, clusters: seq<string>, src: seq<Job>, srcAcls: seq<Acl>,
                                 dstJobs: Option<seq<Job>>, dstAclExists: bool, overwrite: bool, id: int)
    requires JobStage(tags, clusters, src, srcAcls, dstJobs, dstAclExists, overwrite).Ok?
    requires JobStage(tags, clusters, src, srcAcls, dstJobs, dstAclExists, overwrite).value.aclLog.Some?
    ensures var out := JobStage(tags, clusters, src, srcAcls, dstJobs, dstAclExists, overwrite).value;
      var present := JobsAtDestination(tags, clusters, src, dstJobs, overwrite);
      (forall a :: a in out.aclLog.value ==>
         HasNumericKey(a, JobAclPrefix) && exists j :: j in present && j.jobId == AclId(a, JobAclPrefix)) &&
      (Acl(JobAclPrefix + IntToString(id)) in srcAcls ==>
         (Acl(JobAclPrefix + IntToString(id)) in out.aclLog.value <==> exists j :: j in present && j.jobId == id))
  {
    var present := JobsAtDestination(tags, clusters, src, dstJobs, overwrite);
    var ids := JobIds(present);
    forall n
      ensures n in ids <==> exists j :: j in present && j.jobId == n
    {
      if n in ids {
        var i :| 0 <= i < |ids| && ids[i] == n;
        assert present[i] in present;
      }
      if j :| j in present && j.jobId == n {
        var i :| 0 <= i < |present| && present[i] == j;
        assert ids[i] == n;
      }
    }
    IdOfPrefixed(JobAclPrefix, id);
  }
}
