/** `prune_clusters` (pruneExport.py:84-127): keep the clusters tagged with one of
    the requested teams, record their ids, and filter the cluster ACLs by them. */
module Clusters {
  import opened Base
  import opened Strings
  import opened Records
  import opened Tags
  import opened Acls

  const ClusterAclPrefix: string := "/clusters/"

  /** Lines 105-113: a cluster is kept when it has `custom_tags`, they hold `z_team`,
      and its value is one of `tags`. A cluster lacking either is skipped, not an error. */
  predicate KeepCluster(tags: seq<string>, c: Cluster)
  {
    c.customTags.Some? && TeamTagIn(tags, c.customTags.value)
  }

  /** The clusters written to the destination clusters.log, in source order. */
  function KeptClusters(tags: seq<string>, clusters: seq<Cluster>): (kept: seq<Cluster>)
    decreases |clusters|
    ensures forall c :: c in kept <==> c in clusters && KeepCluster(tags, c)
    ensures IsSubsequence(kept, clusters)
    ensures forall c :: multiset(kept)[c] == if KeepCluster(tags, c) then multiset(clusters)[c] else 0
  {
    if clusters == [] then []
    else
      var init, last := clusters[..|clusters| - 1], clusters[|clusters| - 1];
      assert forall c :: c in clusters <==> c in init || c == last;
      MultisetSnoc(clusters);
      var kept := KeptClusters(tags, init);
      if KeepCluster(tags, last) then
        SubsequenceKeep(kept, clusters);
        kept + [last]
      else
        SubsequenceSkip(kept, clusters);
        kept
  }

  /** The `cluster_id` of each cluster, in order. */
  function ClusterIds(clusters: seq<Cluster>): (ids: seq<string>)
    decreases |clusters|
    ensures |ids| == |clusters|
    ensures forall i :: 0 <= i < |clusters| ==> ids[i] == clusters[i].clusterId
  {
    if clusters == [] then []
    else ClusterIds(clusters[..|clusters| - 1]) + [clusters[|clusters| - 1].clusterId]
  }

  /** The loop of lines 101-115: write each tagged cluster and record its id. */
  method FilterClusterLog(tags: seq<string>, src: seq<Cluster>) returns (written: seq<Cluster>, copied: seq<string>)
    ensures written == KeptClusters(tags, src)
    ensures copied == ClusterIds(written)
  {
    written, copied := [], [];
    for i := 0 to |src|
      invariant written == KeptClusters(tags, src[..i])
      invariant copied == ClusterIds(written)
    {
      assert src[..i + 1][..i] == src[..i];
      var cluster := src[i];
      if cluster.customTags.None? {
        continue;
      }
      var clusterTags := cluster.customTags.value;
      if TeamKey !in clusterTags {
        continue;
      } else if clusterTags[TeamKey] in tags {
        written := written + [cluster];
        copied := copied + [cluster.clusterId];
      }
    }
    assert src[..|src|] == src;
  }

  /** The loop of lines 94-97: the ids of the clusters already in the destination. */
  method ReadClusterIds(log: seq<Cluster>) returns (ids: seq<string>)
    ensures ids == ClusterIds(log)
  {
    ids := [];
    for i := 0 to |log|
      invariant ids == ClusterIds(log[..i])
    {
      assert log[..i + 1][..i] == log[..i];
      ids := ids + [log[i].clusterId];
    }
    assert log[..|log|] == log;
  }

  /** What the stage leaves behind: the new clusters.log and acl_clusters.log (None
      when the stage leaves the destination file as it was) and the returned
      `copied_clusters`. */
  datatype ClusterOutcome = ClusterOutcome(
    clustersLog: Option<seq<Cluster>>,
    aclLog: Option<seq<Acl>>,
    copied: seq<string>)

  /** `prune_clusters` as a function of the source logs, the destination's existing
      clusters.log (None when absent) and the overwrite flag. The ACL step is skipped
      whenever clusters.log exists and overwrite is off (line 118), and by then it
      always exists: it runs exactly when overwriting. */
  function ClusterStage(tags: seq<string>, src: seq<Cluster>, srcAcls: seq<Acl>,
                        dstClusters: Option<seq<Cluster>>, overwrite: bool): (r: Result<ClusterOutcome>)
  {
    var skip := dstClusters.Some? && !overwrite;
    var log := if skip then dstClusters.value else KeptClusters(tags, src);
    var copied := ClusterIds(log);
    var clustersLog := if skip then None else Some(log);
    if !overwrite then Ok(ClusterOutcome(clustersLog, None, copied))
    else
      match KeptAclsByName(srcAcls, ClusterAclPrefix, copied, "acl_clusters.log")
      case Err(e) => Err(e)
      case Ok(acls) => Ok(ClusterOutcome(clustersLog, Some(acls), copied))
  }

  /** `prune_clusters` (lines 84-127). */
  method PruneClusters(tags: seq<string>, src: seq<Cluster>, srcAcls: seq<Acl>,
                       dstClusters: Option<seq<Cluster>>, overwrite: bool) returns (r: Result<ClusterOutcome>)
    ensures r == ClusterStage(tags, src, srcAcls, dstClusters, overwrite)
  {
    var copied: seq<string>;
    var clustersLog: Option<seq<Cluster>>;
    if dstClusters.Some? && !overwrite {
      copied := ReadClusterIds(dstClusters.value);
      clustersLog := None;
    } else {
      var written;
      written, copied := FilterClusterLog(tags, src);
      clustersLog := Some(written);
    }
    if !overwrite {
      return Ok(ClusterOutcome(clustersLog, None, copied));
    }
    var acls := FilterAclsByName(srcAcls, ClusterAclPrefix, copied, "acl_clusters.log");
    match acls
    case Err(e) => r := Err(e);
    case Ok(kept) => r := Ok(ClusterOutcome(clustersLog, Some(kept), copied));
  }

  // ---------------------------------------------------------------------------
  // Properties of the stage.

  /** The keep-set: without skipping, an id is recorded exactly when some tagged source
      cluster carries it, in source order; when skipping, it is the list of ids of the
      clusters already at the destination. */
  lemma {:induction false} ClusterKeepSet(tags: seq<string>, src: seq<Cluster>, srcAcls: seq<Acl>,
                                          dstClusters: Option<seq<Cluster>>, overwrite: bool)
    requires ClusterStage(tags, src, srcAcls, dstClusters, overwrite).Ok?
    ensures var out := ClusterStage(tags, src, srcAcls, dstClusters, overwrite).value;
      if dstClusters.Some? && !overwrite then
        out.clustersLog.None? && out.copied == ClusterIds(dstClusters.value)
      else
        out.clustersLog == Some(KeptClusters(tags, src)) &&
        forall id :: id in out.copied <==> exists c :: c in src && KeepCluster(tags, c) && c.clusterId == id
  {
    var out := ClusterStage(tags, src, srcAcls, dstClusters, overwrite).value;
    if !(dstClusters.Some? && !overwrite) {
      var kept := KeptClusters(tags, src);
      forall id
        ensures id in out.copied <==> exists c :: c in src && KeepCluster(tags, c) && c.clusterId == id
      {
        if id in out.copied {
          var i :| 0 <= i < |out.copied| && out.copied[i] == id;
          assert kept[i] in kept;
        }
        if c :| c in src && KeepCluster(tags, c) && c.clusterId == id {
          var i :| 0 <= i < |kept| && kept[i] == c;
          assert out.copied[i] == id;
        }
      }
    }
  }

  /** With overwrite on, the stage does not look at the destination. */
  lemma ClusterOverwriteIgnoresDestination(tags: seq<string>, src: seq<Cluster>, srcAcls: seq<Acl>,
                                           one: Option<seq<Cluster>>, other: Option<seq<Cluster>>)
    ensures ClusterStage(tags, src, srcAcls, one, true) == ClusterStage(tags, src, srcAcls, other, true)
  {
  }

  /** acl_clusters.log is rewritten exactly when overwriting; without overwrite it is
      never touched, not even on a fresh destination (the code tests clusters.log at
      line 118, which the stage itself has just created). */
  lemma ClusterAclsOnlyWhenOverwriting(tags: seq<string>, src: seq<Cluster>, srcAcls: seq<Acl>,
                                       dstClusters: Option<seq<Cluster>>, overwrite: bool)
    requires ClusterStage(tags, src, srcAcls, dstClusters, overwrite).Ok?
    ensures ClusterStage(tags, src, srcAcls, dstClusters, overwrite).value.aclLog.Some? <==> overwrite
  {
  }

  /** Referential integrity: a written cluster ACL is the entry of a recorded cluster
      id, and an entry `/clusters/<id>` of a recorded id is written. */
  lemma ClusterAclsFollowKeepSet(tags: seq<string>, src: seq<Cluster>, srcAcls: seq<Acl>,
                                 dstClusters: Option<seq<Cluster>>, overwrite: bool, id: string)
    requires ClusterStage(tags, src, srcAcls, dstClusters, overwrite).Ok?
    requires ClusterStage(tags, src, srcAcls, dstClusters, overwrite).value.aclLog.Some?
    requires !Contains(ClusterAclPrefix, id)
    ensures var out := ClusterStage(tags, src, srcAcls, dstClusters, overwrite).value;
      (forall a :: a in out.aclLog.value ==> AclKey(a, ClusterAclPrefix).value in out.copied) &&
      (Acl(ClusterAclPrefix + id) in srcAcls ==> (Acl(ClusterAclPrefix + id) in out.aclLog.value <==> id in out.copied))
  {
    KeyOfPrefixed(ClusterAclPrefix, id);
  }
}
