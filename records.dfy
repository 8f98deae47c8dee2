/** The export's records, one datatype per log, holding the fields the pruner
    reads. Every record is passed to the destination unchanged, so the fields it
    never reads are left out of the datatype. A field the pruner reads without a
    presence check is a plain field; one it checks for first is an Option or a map. */
module Records {
  import opened Base

  /** A line of clusters.log: `cluster_id` and the optional `custom_tags` mapping. */
  datatype Cluster = Cluster(clusterId: string, customTags: Option<map<string, string>>)

  /** The `settings` object of a job: optional `custom_tags` and `existing_cluster_id`. */
  datatype JobSettings = JobSettings(customTags: Option<map<string, string>>, existingClusterId: Option<string>)

  /** A line of jobs.log: the numeric `job_id` and its `settings`. */
  datatype Job = Job(jobId: int, settings: JobSettings)

  /** A line of one of the ACL logs (acl_clusters.log, acl_jobs.log,
      acl_directories.log, acl_notebooks.log): its `object_id` path. */
  datatype Acl = Acl(objectId: string)

  /** A line of instance_profiles.log: its `instance_profile_arn`. */
  datatype InstanceProfile = InstanceProfile(arn: string)

  /** A line of users.log: its `userName`. */
  datatype User = User(userName: string)

  /** A line of user_dirs.log: the directory `path` and its numeric `object_id`. */
  datatype Directory = Directory(path: string, objectId: int)

  /** A line of user_workspace.log: the object `path` and its numeric `object_id`. */
  datatype WorkspaceObject = WorkspaceObject(path: string, objectId: int)

  /** A line of libraries.log: its `path`. */
  datatype Library = Library(path: string)
}
