# prune-exports, modelled in Dafny

`pruneExport.py` prunes a bulk export of a workspace down to the resources of a
set of teams, named by tags such as `team_alpha`. It runs a fixed chain of
filter stages. Each stage reads one or more logs of the export and writes a
filtered copy to the destination tree. Most stages also hand a *keep-set* on to
later stages:

- clusters keep the records whose `custom_tags.z_team` is a requested tag and
  yield the kept cluster ids;
- jobs keep the tagged jobs and the untagged jobs running on a kept cluster;
- instance profiles and group files match when a hyphenated tag occurs in the
  ARN or the file name;
- the member user names of the matching groups become the users to keep;
- directories are classified by path as top-level, user-owned or team-owned;
- workspace objects and libraries are kept when a kept directory path occurs in
  their path;
- each ACL log is filtered by `object_id.split(prefix)[1]` for a fixed prefix:
  the text between the first occurrence of the prefix and the next one, or the
  end of the string when there is no second one.

When a destination file exists and `overwrite` is off, a stage usually leaves
that file alone and reads the keep-set that file feeds back from the
destination. There are four exceptions, described under "Where the code differs
from its description": the two user logs are emptied, the workspace keep-sets
are always recomputed from the source logs, the groups stage reads members from
the source group files, and the cluster ACL step tests clusters.log.

The model follows the code. Each log is a sequence of already-parsed records
(`Records`). Each Python `for line in src` loop is a Dafny method with a `for`
loop, proved equal to a recursive specification function. Properties are proved
about those functions. Python's string operations are modelled character by
character in `Strings`: substring `in`, `split(sep)[k]`, `replace("_", "-")`,
`int()` and `str()`. The exceptions a stage can raise on its input become a
`Result`:

- `IndexError` for a missing ACL prefix, a path without `/`, or a tag without
  `team_` reaching the team test;
- `ValueError` for a non-numeric ACL suffix;
- `FileNotFound` for a matching group that has no source file;
- `NoDirectory` for a missing source groups directory.

Modules, in dependency order:

- `Base`;
- `Strings`;
- `Records`;
- `Tags`, the three tag predicates;
- `Acls`, the four ACL filters;
- `Clusters`, `Jobs`, `InstanceProfiles`, `Groups`, `Users` and `Workspace`,
  one per `prune_*` function;
- `Pipeline`, for `prune_all_resources`.

## Model

| member | source | states |
|---|---|---|
| Strings.IndexOf | pruneExport.py:190 | the position returned is where the needle first occurs in the haystack; None exactly when it occurs nowhere (Python's `needle in hay`) |
| Strings.ContainsIffOccurs | pruneExport.py:305 | `needle in hay` holds exactly when the needle starts at some position of the haystack |
| Strings.PrefixContained | pruneExport.py:305 | a string contains each of its prefixes, so a path extending a directory path contains that path |
| Strings.ContainedChars | pruneExport.py:286 | every character of a contained needle occurs in the haystack |
| Strings.MissingCharNotContained | pruneExport.py:286 | a needle with a character the haystack lacks is not contained in it |
| Strings.ContainsChar | pruneExport.py:270 | a one-character needle is contained exactly when that character occurs |
| Strings.Split | pruneExport.py:123 | `s.split(sep)` always yields at least one piece |
| Strings.SplitAtFirstOccurrence | pruneExport.py:123 | `s.split(sep)` cuts at the leftmost occurrence of `sep`: the first piece is the text before it and the remaining pieces are those of the text after it |
| Strings.JoinSplit | pruneExport.py:123 | joining the pieces of `s.split(sep)` with `sep` gives `s` back, so splitting loses nothing |
| Strings.SplitPiecesFree | pruneExport.py:270 | no piece of `s.split(sep)` contains the separator |
| Strings.SplitHasSecondPart | pruneExport.py:123 | `s.split(sep)[1]` exists (no IndexError) exactly when `sep` occurs in `s` |
| Strings.SplitWithout | pruneExport.py:286 | a string that lacks the separator splits into itself alone |
| Strings.SplitLeading | pruneExport.py:123 | `(sep + rest).split(sep)` is `""` followed by the pieces of `rest` |
| Strings.SplitAtChar | pruneExport.py:270 | with a one-character separator, the first piece runs up to its first occurrence |
| Strings.Part | pruneExport.py:123 | Python's `s.split(sep)[k]`, None standing for the IndexError when there are at most `k` pieces. Stated by `Strings.SplitHasSecondPart`, `Strings.SplitLeading` and `Acls.KeyOfPrefixed` |
| Strings.Hyphenate | pruneExport.py:190 | `s.replace("_", "-")` has the length of `s`, and each character is `s`'s own with `_` turned into `-` |
| Strings.HyphenateIdempotent | pruneExport.py:190 | the hyphenated form holds no underscore, and hyphenating it again changes nothing |
| Strings.NatToStringDigits | pruneExport.py:170 | `str(n)` of a natural number is a non-empty run of digits whose decimal value is `n` |
| Strings.IntToStringChars | pruneExport.py:170 | `str(n)` consists of digits and a minus sign only |
| Strings.ParseInt | pruneExport.py:170 | Python's `int(text)`: surrounding whitespace (the ASCII space, `\t` to `\r`, and Unicode whitespace above U+007F, but not U+001C to U+001F), an optional sign, then ASCII digits with single underscores allowed between digits, at most 4300 digits (CPython's default `int_max_str_digits`); None stands for the ValueError. Its round trip with `str()` is `Strings.ParseIntToString` |
| Strings.ParseIntToString | pruneExport.py:170 | `int(str(n)) == n` for every integer of at most 4300 digits, so an id written out by the exporter parses back to itself; a longer one raises ValueError |
| Strings.ParseIntRejectsSeparator | pruneExport.py:170 | `int()` rejects an ASCII record separator (U+001C) before the digits, so such an ACL suffix raises ValueError |
| Tags.TeamTagIn | pruneExport.py:110-113 | the exact test of clusters (and of jobs, lines 147-149): the tag mapping has a `z_team` entry whose value is a requested tag. Its consequences are stated by `Clusters.KeptClusters`, `Jobs.KeptJobsJustified` and `Jobs.TagsOverrideCluster` |
| Tags.HyphenTagIn | pruneExport.py:190 | the substring test of instance profiles (and of group file names, line 213, and team names, line 285): some tag, with `_` replaced by `-`, occurs in the string. Stated by `InstanceProfiles.HyphenatedTagAnywhere`, `Tags.TeamMatchCases` and `Groups.GroupScan` |
| Tags.StrippedTagIn | pruneExport.py:286 | the stripped test: some tag's `split("team_")[1]` occurs in the team name; None stands for the IndexError the eager comprehension raises at any tag without `team_`. Stated by `Tags.TeamMatchCases` and `Tags.StrippedTeamTag` |
| Tags.TeamMatch | pruneExport.py:285-286 | the team test: the hyphen test, and only when it fails the stripped test (Python's short-circuit `or`). Stated by `Tags.TeamMatchCases`, `Tags.MatchByStrippedTag` and `Tags.TeamAlphaMatchesAlpha` |
| Groups.GroupMatches | pruneExport.py:213 | a group file matches when some hyphenated tag occurs in its name (`Tags.HyphenTagIn`). Stated by `Groups.GroupScan` and `Groups.ScanUsers` |
| InstanceProfiles.KeepProfile | pruneExport.py:190 | a profile matches when some hyphenated tag occurs in its ARN (`Tags.HyphenTagIn`). Stated by `InstanceProfiles.KeptProfiles` and `InstanceProfiles.HyphenatedTagAnywhere` |
| Tags.TeamMatchCases | pruneExport.py:285-286 | the team test raises exactly when no hyphenated tag occurs in the team name and some tag lacks `team_`; otherwise it matches exactly when a hyphenated tag, or (all tags holding `team_`) a tag's text after `team_`, occurs in the name |
| Tags.StrippedTeamTag | pruneExport.py:286 | the tag `team_<x>` strips to `x` when `x` holds no further `team_` |
| Tags.MatchByStrippedTag | pruneExport.py:285-286 | a tag whose hyphenated form misses the team name still matches through its stripped form |
| Tags.TeamAlphaMatchesAlpha | pruneExport.py:285-286 | `team_alpha` matches the team directory `alpha` only through the stripped test, since `team-alpha` does not occur in `alpha` |
| Acls.KeptAclsByName | pruneExport.py:121-125 | on success, a cluster ACL entry is kept exactly when `object_id.split("/clusters/")[1]` (the text between the first `/clusters/` and the next one, or the end) is a kept id; the kept entries are in log order, and each entry appears as many times as in the log when kept and not at all otherwise; the call fails exactly when some entry lacks the prefix, and the IndexError names the first such entry |
| Acls.AclKey | pruneExport.py:123 | `object_id.split(prefix)[1]` of an ACL entry, None standing for the IndexError when the prefix does not occur (also lines 169, 316, 326). Stated by `Acls.KeyOfPrefixed` and `Acls.KeptAclsByName` |
| Acls.KeptAclsByNameFailsEarly | pruneExport.py:122-123 | once a prefix of the log raises, the whole log raises the same error |
| Acls.FilterAclsByName | pruneExport.py:121-125 | the loop writes exactly the entries of the specification, or stops at its error |
| Acls.KeptAclsById | pruneExport.py:167-171 | on success, an entry is kept exactly when `int()` of `object_id.split(prefix)[1]` is in the keep-set, and it appears as many times as in the log when kept and not at all otherwise; the call fails exactly when some entry is malformed, with IndexError (prefix missing) or ValueError (suffix not an integer) at the first malformed entry |
| Acls.ReadNumericKey | pruneExport.py:169-170 | `int(object_id.split(prefix)[1])`: IndexError without the prefix, ValueError when the key is not an integer, otherwise the integer (also lines 316-317, 326-327). Stated by `Acls.IdOfPrefixed` and `Acls.KeptAclsById` |
| Acls.KeptAclsByIdInOrder | pruneExport.py:167-171 | the kept ACL entries are a subsequence of the log, in order |
| Acls.KeptAclsByIdFailsEarly | pruneExport.py:168-170 | once a prefix of the log raises, the whole log raises the same error |
| Acls.FilterAclsById | pruneExport.py:314-318 | the job, directory and notebook ACL loops write exactly the specified entries, or stop at its error |
| Acls.KeyOfPrefixed | pruneExport.py:123 | an entry `<prefix><key>`, where `key` does not repeat the prefix, has key `key` |
| Acls.IdOfPrefixed | pruneExport.py:169-170 | an entry `/jobs/<str(n)>` (likewise `/directories/`, `/notebooks/`) is well formed exactly when `n` has at most 4300 digits, and then has identifier `n` |
| Clusters.KeptClusters | pruneExport.py:101-115 | a cluster is written exactly when it has `custom_tags`, they hold `z_team`, and its value is a requested tag; the output is an order-preserving subsequence, and each cluster appears as many times as in the log when kept and not at all otherwise |
| Clusters.KeepCluster | pruneExport.py:105-113 | a cluster is kept when it has `custom_tags`, they hold `z_team`, and that value is a requested tag; a cluster lacking either is skipped, not an error. Stated by `Clusters.KeptClusters` and `Clusters.ClusterKeepSet` |
| Clusters.ClusterIds | pruneExport.py:94-97 | `copied_clusters` has one entry per cluster, its `cluster_id`, in order |
| Clusters.FilterClusterLog | pruneExport.py:99-115 | the loop writes exactly the kept clusters and records exactly their ids |
| Clusters.ReadClusterIds | pruneExport.py:91-97 | in skip mode `copied_clusters` is the id list of the destination clusters.log |
| Clusters.ClusterStage | pruneExport.py:91-125 | the stage: skip mode reads `copied_clusters` back from the destination clusters.log and leaves it alone; otherwise the tagged clusters are written; the ACL step runs only when overwriting (line 118). Stated by `Clusters.ClusterKeepSet`, `Clusters.ClusterAclsOnlyWhenOverwriting`, `Clusters.ClusterAclsFollowKeepSet` and `Clusters.ClusterOverwriteIgnoresDestination` |
| Clusters.PruneClusters | pruneExport.py:84-127 | the stage's files and returned keep-set are those of the stage specification |
| Clusters.ClusterKeepSet | pruneExport.py:91-115 | without skipping, an id is recorded exactly when some tagged source cluster has it; when skipping, the keep-set is read from the destination and clusters.log is left alone |
| Clusters.ClusterAclsOnlyWhenOverwriting | pruneExport.py:117-125 | acl_clusters.log is written exactly when overwriting |
| Clusters.ClusterAclsFollowKeepSet | pruneExport.py:121-125 | every written cluster ACL names a recorded cluster id, and the entry of a recorded id is written |
| Clusters.ClusterOverwriteIgnoresDestination | pruneExport.py:91-125 | with overwrite on, the stage's files and keep-set do not depend on what the destination holds |
| Jobs.KeptJobs | pruneExport.py:142-155 | a job is written exactly when its `custom_tags` has `z_team` with a requested value, or it has no `custom_tags` and its `existing_cluster_id` is a kept cluster; the output is in order, with every repetition of a kept job |
| Jobs.KeepJob | pruneExport.py:144-155 | a job with `settings.custom_tags` is kept exactly when its `z_team` value is a requested tag; a job without them is kept exactly when its `existing_cluster_id` is a kept cluster id; a job with neither is dropped. Stated by `Jobs.KeptJobs`, `Jobs.KeptJobsJustified` and `Jobs.TagsOverrideCluster` |
| Jobs.JobIds | pruneExport.py:161-165 | one `job_id` per job of the log, in order |
| Jobs.FilterJobLog | pruneExport.py:141-155 | the loop writes exactly the kept jobs |
| Jobs.ReadJobIds | pruneExport.py:161-165 | the ACL keep-set is the id list of the destination jobs.log |
| Jobs.JobStage | pruneExport.py:137-171 | the stage, with separate skip tests for jobs.log (line 137) and acl_jobs.log (line 158); the ACL keep-set is read from the destination jobs.log. Stated by `Jobs.JobAclsFollowDestination` and `Jobs.JobOverwriteIgnoresDestination` |
| Jobs.PruneJobs | pruneExport.py:130-171 | the stage's files are those of the stage specification |
| Jobs.KeptJobsJustified | pruneExport.py:144-155 | every kept job has a requested `z_team` tag, or has no `custom_tags` and runs on a kept cluster |
| Jobs.TagsOverrideCluster | pruneExport.py:145-153 | a job with `custom_tags` is judged by its tag alone: neither its `existing_cluster_id` nor the cluster keep-set changes the verdict |
| Jobs.JobAclsFollowDestination | pruneExport.py:158-171 | every written job ACL names a job of the destination jobs.log, and `/jobs/<id>` is written exactly when such a job has that id |
| Jobs.JobOverwriteIgnoresDestination | pruneExport.py:137-171 | with overwrite on, the stage's files do not depend on what the destination holds |
| InstanceProfiles.KeptProfiles | pruneExport.py:184-191 | a profile is written exactly when some hyphenated tag occurs in its ARN, in order, with every repetition of a kept profile |
| InstanceProfiles.FilterProfileLog | pruneExport.py:183-191 | the loop writes exactly the kept profiles |
| InstanceProfiles.PruneInstanceProfiles | pruneExport.py:174-191 | the log is left alone when it exists and overwrite is off; otherwise it is rewritten with the kept profiles |
| InstanceProfiles.HyphenatedTagAnywhere | pruneExport.py:190 | an ARN with a tag's hyphenated form anywhere inside it matches |
| Groups.GroupScan | pruneExport.py:209-224 | the scan succeeds exactly when every matching listed group has a source file, and otherwise names the first matching group, in listing order, that has none; `users_to_keep` holds exactly the members of the matching groups; the destination listing gains exactly the matching names, and only when copying |
| Groups.AddName | pruneExport.py:215-216 | copying a group file into the destination directory: the name is listed afterwards, once, even when it was already there (the copy overwrites). Stated by `Groups.GroupScan` and `Groups.ScanIntoSuperset` |
| Groups.GroupScanFailsEarly | pruneExport.py:218 | once a prefix of the listing raises, the whole listing raises the same error |
| Groups.ScanGroups | pruneExport.py:210-224 | the loop computes exactly the scan's listing and users, or stops at its error |
| Groups.GroupStage | pruneExport.py:199-224 | the stage: with an existing destination directory and no overwrite the destination listing is scanned without copying; otherwise the source listing is scanned and copied, and a missing source directory raises. Stated by `Groups.ScanWithoutCopyKeepsListing`, `Groups.ScanUsers` and `Users.UsersFollowGroups` |
| Groups.PruneGroups | pruneExport.py:194-224 | the stage's result is that of the stage specification (skip mode scans the destination listing) |
| Groups.ScanWithoutCopyKeepsListing | pruneExport.py:199-216 | in skip mode the destination groups directory is left as it was |
| Groups.MembersConcatenate | pruneExport.py:210-222 | the members of a listing in two parts are the first part's members followed by the second's, duplicates kept |
| Groups.ScanUsers | pruneExport.py:210-222 | `users_to_keep` equals the members of the matching groups concatenated in listing order (defined front to back, independently of the loop) |
| Groups.ScanIntoSuperset | pruneExport.py:215-216 | copying into a directory that already has every matching group changes nothing and collects the same users |
| Users.KeptUsers | pruneExport.py:237-240 | a user is written exactly when its `userName` is in `users_to_keep`, in order, with every repetition of a kept user |
| Users.FilterUserLog | pruneExport.py:236-240 | the loop writes exactly the kept users |
| Users.PruneUsers | pruneExport.py:227-240 | users.log is left alone when it exists and overwrite is off; otherwise it is rewritten with the kept users |
| Users.NoKeepSetNoUsers | pruneExport.py:239 | an empty `users_to_keep` keeps no user |
| Users.UsersFollowGroups | pruneExport.py:211-240 | a source user is kept by the users filter (and so written, unless `users.log` exists and overwrite is off) exactly when it is a member of a matching group in the scanned listing |
| Workspace.ScanDirs | pruneExport.py:265-290 | the scan succeeds exactly when every directory can be classified, and otherwise names the first one that cannot; the owned directories are exactly the kept users' and matching teams' directories; the written lines are the top-level and owned directories when copying, and none otherwise. Their order and repetitions are stated by `Workspace.ScanDirsFilters` |
| Workspace.ClassifyDir | pruneExport.py:270-290 | how one directory path is treated: two `/`-pieces make it top-level, `Users` with a kept user or `teams` with a matching team make it owned, anything else is dropped; None stands for the IndexError. Stated by `Workspace.UserDirClass`, `Workspace.TeamDirClass`, `Workspace.OtherRootUnowned` and `Workspace.TopLevelNeverRecorded` |
| Workspace.ScanDirsFilters | pruneExport.py:266-290 | the owned directories are the log's lines filtered by "owned", and the written lines (when copying) are the log's lines filtered by "not dropped", both in log order with every repetition; the filter is a generic one whose own contract states membership, order and counts |
| Workspace.ScanDirsFailsEarly | pruneExport.py:270-286 | once a prefix of user_dirs.log raises, the whole log raises the same error |
| Workspace.Paths | pruneExport.py:279 | `copied_dirs` has one path per owned directory, in order |
| Workspace.DirIds | pruneExport.py:280 | `dir_ids` has one id per owned directory, in lockstep with `copied_dirs` |
| Workspace.FilterDirLog | pruneExport.py:263-290 | the loop writes exactly the scan's lines and builds `copied_dirs` and `dir_ids` from the owned directories, whether or not it writes; or it stops at the scan's error |
| Workspace.KeptObjects | pruneExport.py:301-308 | an object is kept exactly when some `copied_dirs` path occurs in its path, in order, with every repetition of a kept object |
| Workspace.UnderCopiedDir | pruneExport.py:305 | the containment test of lines 305 and 338: some `copied_dirs` path occurs anywhere in the path. Stated by `Workspace.ObjectBelowCopiedDirKept` and `Workspace.SiblingUserObjectKept` |
| Workspace.ObjectIds | pruneExport.py:308 | `file_ids` has one id per kept object, in order |
| Workspace.FilterObjectLog | pruneExport.py:293-308 | the loop writes the kept objects only when copying, and collects their ids in every case |
| Workspace.KeptLibraries | pruneExport.py:335-339 | a library is kept exactly when some `copied_dirs` path occurs in its path, in order, with every repetition of a kept library |
| Workspace.FilterLibraryLog | pruneExport.py:334-339 | the loop writes exactly the kept libraries |
| Workspace.WorkspaceStage | pruneExport.py:256-339 | the stage's five files: the two user logs are always opened for writing, the three others each have their own skip test, and the keep-sets are always computed from the source logs. Stated by `Workspace.UserLogs`, `Workspace.DirAclsFollowOwnedDirs`, `Workspace.NotebookAclsFollowKeptObjects` and `Workspace.WorkspaceOverwriteIgnoresDestination` |
| Workspace.PruneWorkspaceMetadata | pruneExport.py:243-339 | the stage's five files are those of the stage specification |
| Workspace.WorkspaceOverwriteIgnoresDestination | pruneExport.py:256-339 | with overwrite on, the stage's five files do not depend on which destination files exist |
| Workspace.ShortPathPieces | pruneExport.py:270 | `/<root>/<name>` splits on `/` into `""`, `root`, `name` |
| Workspace.LongPathPieces | pruneExport.py:270 | `/<root>/<name>/<rest>` splits into `""`, `root`, `name` and the pieces of `rest` |
| Workspace.UserDirClass | pruneExport.py:274-280 | `/Users/<u>` and everything below it is owned exactly when `u` is a kept user |
| Workspace.TeamDirClass | pruneExport.py:282-290 | `/teams/<t>` and everything below it is owned exactly when the team test matches `t`, and cannot be classified when that test raises |
| Workspace.OtherRootUnowned | pruneExport.py:270-290 | a directory below any root other than `Users` and `teams` is dropped |
| Workspace.AlphaTeamDirOwned | pruneExport.py:282-290 | with tags `["team_alpha"]`, `/teams/alpha/notebook_dir` is owned |
| Workspace.WorkspaceTeamDirDropped | pruneExport.py:274-282 | `/Workspace/teams/alpha/notebook_dir` is dropped whatever the tags |
| Workspace.RecordedPaths | pruneExport.py:274-290 | a path is in `copied_dirs` exactly when it is the path of an owned directory |
| Workspace.RecordedIds | pruneExport.py:274-290 | an id is in `dir_ids` exactly when it is the id of an owned directory |
| Workspace.TopLevelNeverRecorded | pruneExport.py:270-272 | a top-level directory is never in `copied_dirs` |
| Workspace.ObjectBelowCopiedDirKept | pruneExport.py:305 | an object whose path extends a `copied_dirs` path is kept |
| Workspace.SingleOwnedDir | pruneExport.py:274-280 | a log holding a single owned directory records exactly its path |
| Workspace.SiblingUserObjectKept | pruneExport.py:305-308 | when only user `al` is kept, `/Users/alice/nb` is still kept, because `/Users/al` occurs in its path |
| Workspace.UserLogs | pruneExport.py:256-308 | user_dirs.log and user_workspace.log are emptied when their skip test holds; otherwise they hold exactly the top-level and owned directories, and the objects under a recorded path |
| Workspace.DirAclsFollowOwnedDirs | pruneExport.py:311-318 | every written directory ACL names an owned source directory, and `/directories/<id>` is written exactly when an owned directory has that id |
| Workspace.ObjectIdsOf | pruneExport.py:308 | an id is in `file_ids` exactly when a kept object has it |
| Workspace.NotebookAclsFollowKeptObjects | pruneExport.py:321-328 | every written notebook ACL names a kept object, and `/notebooks/<id>` is written exactly when a kept object has that id |
| Pipeline.PruneAllResources | pruneExport.py:7-44 | the run returns exactly the outcome of the run specification: source missing, a stage's error, or the final destination tree |
| Pipeline.PruneAll | pruneExport.py:7-44 | the run: a missing source root stops it; a fresh destination gets an empty groups directory; the stages run in order, each keep-set feeding the next, and the first error ends the run. Stated by `Pipeline.FreshRunWithoutOverwrite`, `Pipeline.JobsThroughKeptClusters`, `Pipeline.JobsFollowExistingClusters`, `Pipeline.SkipRun` and `Pipeline.OverwriteIdempotent` |
| Pipeline.PruneUsersAndWorkspace | pruneExport.py:37-44 | the groups stage, then users with the groups' `users_to_keep`, then the workspace stage with the same keep-set; the first error ends the run. Stated by `Users.UsersFollowGroups`, `Pipeline.SkipRun` and `Pipeline.OverwriteIdempotent` |
| Pipeline.FreshRunWithoutOverwrite | pruneExport.py:20-41 | on a fresh destination without overwrite: the groups directory stays empty, users.log is written empty, acl_clusters.log is not written, and clusters.log holds the tagged clusters |
| Pipeline.JobsThroughKeptClusters | pruneExport.py:26-30 | on a fresh destination, or when overwriting, an untagged job is written exactly when its `existing_cluster_id` is the id of a tagged source cluster |
| Pipeline.JobsFollowExistingClusters | pruneExport.py:26-30 | with an existing clusters.log and no overwrite, untagged jobs are judged against the ids in that file |
| Pipeline.SkipRun | pruneExport.py:16-41 | a run without overwrite leaves every existing file as it was, except user_dirs.log and user_workspace.log, which it empties |
| Pipeline.OverwriteIdempotent | pruneExport.py:16-41 | repeating an overwriting run on the tree it produced yields that same tree |

## Where the code differs from its description

The model follows `pruneExport.py`. The following behaviours differ from how the
tool is usually described, and a lemma exhibits each one:

- **Cluster ACLs.** The skip test at line 118 looks at clusters.log, not
  acl_clusters.log. By then the stage itself has just written clusters.log. So
  acl_clusters.log is rewritten exactly when overwriting, and otherwise never,
  not even on a fresh destination (`Clusters.ClusterAclsOnlyWhenOverwriting`,
  `Pipeline.FreshRunWithoutOverwrite`).
- **Fresh destination.** A fresh destination gets an empty `groups` directory
  (line 24). Without overwrite, `prune_groups` then takes its skip branch over
  that empty listing. It keeps no users, and users.log is written empty
  (`Pipeline.FreshRunWithoutOverwrite`).
- **User logs in skip mode.** user_dirs.log and user_workspace.log are opened
  for writing before their skip flag is consulted (lines 265, 300). A run
  without overwrite therefore empties them, while every other existing file is
  kept (`Workspace.UserLogs`, `Pipeline.SkipRun`).
- **Directory paths.** Directories are classified by the second `/`-piece of
  the path. `/Workspace/teams/alpha/...` is therefore dropped, while
  `/teams/alpha/...` is kept for tag `team_alpha`
  (`Workspace.WorkspaceTeamDirDropped`, `Workspace.AlphaTeamDirOwned`).
- **Workspace keep-sets in skip mode.** `copied_dirs`, `dir_ids` and `file_ids`
  are always computed from the source user_dirs.log and user_workspace.log
  (lines 263-308), also when the destination files exist and are not
  rewritten; nothing is read back from the destination here
  (`Workspace.FilterDirLog`, `Workspace.FilterObjectLog`).
- **Groups in skip mode.** When the destination groups directory exists and
  overwrite is off, the destination listing is scanned, but each matching
  group's members are read from the source group file (line 218), which raises
  FileNotFoundError when that file is missing (`Groups.PruneGroups`,
  `Users.UsersFollowGroups`).
- **Objects and libraries.** They are matched by substring, not by parent
  directory. Any object whose path contains a kept directory path is kept,
  including one under the sibling directory `/Users/alice` when only `/Users/al`
  is kept (`Workspace.SiblingUserObjectKept`). An object directly inside a kept
  directory is always kept (`Workspace.ObjectBelowCopiedDirKept`).
- **Jobs.** The job tag is read from `settings.custom_tags`. A job that has
  that field is judged by its `z_team` tag alone (`Jobs.TagsOverrideCluster`).
  The job ACL keep-set is read back from the destination jobs.log (lines
  161-165). The id list built inside the job loop (lines 140, 151, 155) is
  discarded and is not modelled.
- **Errors.** Malformed records raise exceptions instead of being skipped. The
  affected records are ACL `object_id`s without the prefix or with a
  non-integer suffix, directory paths without `/`, and tags without `team_`
  that reach the team test.

## Left out

- Argument parsing and `main` (lines 342-369), and the console messages.
- File I/O. Logs are sequences of parsed records, and file existence is an
  `Option` or a flag. A run that raises is reported by its first error only;
  the files the earlier stages already wrote are not tracked for such a run.
- JSON parsing. A line that is not valid JSON, or a record without a key the
  code reads unconditionally (`cluster_id`, `job_id`, `settings`, `path`,
  `object_id`, `userName`, `instance_profile_arn`, `members`), raises in Python
  and is not modelled. Directory and object `object_id`s and job `job_id`s are
  taken to be JSON integers; the job ACL test of line 170 relies on this for
  `job_id`. Group members are taken to be user records.
- A missing source log file (FileNotFoundError on open) is not modelled, except
  for group files and the groups directory.
- `safe_copy` and the verbatim pass-through copies (lines 46-59, 65-81). A copied
  group file is modelled by its name appearing in the destination groups listing.
- Strings.ParseInt: the non-ASCII decimal digits that Python's `int()` accepts
  are not modelled; only ASCII digits parse. `Strings.IntToString` has no
  4300-digit limit, unlike CPython's `str()`; it appears only in contracts and
  lemmas, never on a path of the run.
- ScanDirs: its own contract states which directories are written and owned;
  their order and number of repetitions are stated by the separate lemma
  `Workspace.ScanDirsFilters`, which keeps the function's own proof small.
- Pipeline.PruneAllResources: the missing source root is the `SourceMissing`
  outcome; the `-1` and `0` return codes themselves are not modelled.
