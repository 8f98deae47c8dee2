/** `prune_groups` (pruneExport.py:194-224): copy the group files whose name
    contains a requested tag in hyphenated form, and collect their members'
    user names as the keep-set `users_to_keep`. */
module Groups {
  import opened Base
  import opened Strings
  import opened Tags

  const GroupsDir: string := "groups/"

  /** Line 213: some tag, with `_` replaced by `-`, occurs in the group file name. */
  predicate GroupMatches(tags: seq<string>, name: string)
  {
    HyphenTagIn(tags, name)
  }

  /** Entry `k` is the first matching group name of the listing without a source file. */
  predicate FirstMissing(tags: seq<string>, listing: seq<string>, files: map<string, seq<string>>, k: nat)
  {
    k < |listing| && GroupMatches(tags, listing[k]) && listing[k] !in files &&
    forall j :: 0 <= j < k && GroupMatches(tags, listing[j]) ==> listing[j] in files
  }

  /** A file name added to a directory listing; a name already listed stays once. */
  function AddName(listing: seq<string>, name: string): (r: seq<string>)
  {
    if name in listing then listing else listing + [name]
  }

  /** The destination groups directory after the loop, and `users_to_keep`. */
  datatype GroupOutcome = GroupOutcome(groups: seq<string>, users: seq<string>)

  /** The loop of lines 211-222 over the group file names `listing`, reading each
      matching file's members from the source group files `files` (name to member
      user names), copying it into the destination listing `dst` when `doCopy`.
      A matching name with no source file raises FileNotFoundError. */
  function GroupScan(tags: seq<string>, listing: seq<string>, files: map<string, seq<string>>,
                     doCopy: bool, dst: seq<string>): (r: Result<GroupOutcome>)
    decreases |listing|
    ensures r.Ok? <==> forall g :: g in listing && GroupMatches(tags, g) ==> g in files
    ensures r.Ok? ==> forall u :: u in r.value.users <==>
      exists g :: g in listing && GroupMatches(tags, g) && g in files && u in files[g]
    ensures r.Ok? ==> forall n :: n in r.value.groups <==>
      n in dst || (doCopy && n in listing && GroupMatches(tags, n))
    ensures r.Err? ==> exists k: nat :: FirstMissing(tags, listing, files, k) && r.error == FileNotFound(GroupsDir + listing[k])
  {
    if listing == [] then Ok(GroupOutcome(dst, []))
    else
      var init, name := listing[..|listing| - 1], listing[|listing| - 1];
      assert forall g :: g in listing <==> g in init || g == name;
      assert forall j :: 0 <= j < |init| ==> listing[j] == init[j];
      match GroupScan(tags, init, files, doCopy, dst)
      case Err(e) =>
        ghost var k: nat :| FirstMissing(tags, init, files, k) && e == FileNotFound(GroupsDir + init[k]);
        assert FirstMissing(tags, listing, files, k);
        Err(e)
      case Ok(out) =>
        if !GroupMatches(tags, name) then Ok(out)
        else if name !in files then
          assert FirstMissing(tags, listing, files, |listing| - 1);
          Err(FileNotFound(GroupsDir + name))
        else
          var groups := if doCopy then AddName(out.groups, name) else out.groups;
          Ok(GroupOutcome(groups, out.users + files[name]))
  }

  /** Once a prefix of the listing raises, so does the whole listing, with the same error. */
  lemma {:induction false} GroupScanFailsEarly(tags: seq<string>, listing: seq<string>, files: map<string, seq<string>>,
                                               doCopy: bool, dst: seq<string>, n: nat)
    requires n <= |listing|
    requires GroupScan(tags, listing[..n], files, doCopy, dst).Err?
    ensures GroupScan(tags, listing, files, doCopy, dst) == GroupScan(tags, listing[..n], files, doCopy, dst)
    decreases |listing|
  {
    if n < |listing| {
      var init := listing[..|listing| - 1];
      assert init[..n] == listing[..n];
      GroupScanFailsEarly(tags, init, files, doCopy, dst, n);
    } else {
      assert listing[..n] == listing;
    }
  }

  /** The loop of lines 211-222. */
  method ScanGroups(tags: seq<string>, listing: seq<string>, files: map<string, seq<string>>,
                    doCopy: bool, dst: seq<string>) returns (r: Result<GroupOutcome>)
    ensures r == GroupScan(tags, listing, files, doCopy, dst)
  {
    var groups, usersToKeep := dst, [];
    for i := 0 to |listing|
      invariant GroupScan(tags, listing[..i], files, doCopy, dst) == Ok(GroupOutcome(groups, usersToKeep))
    {
      assert listing[..i + 1][..i] == listing[..i];
      var group := listing[i];
      if exists x :: x in tags && Contains(Hyphenate(x), group) {
        if doCopy && group in files && group !in groups {
          groups := groups + [group];
        }
        if group !in files {
          GroupScanFailsEarly(tags, listing, files, doCopy, dst, i + 1);
          return Err(FileNotFound(GroupsDir + group));
        }
        usersToKeep := usersToKeep + files[group];
      }
    }
    assert listing[..|listing|] == listing;
    r := Ok(GroupOutcome(groups, usersToKeep));
  }

  /** `prune_groups` as a function of the source groups directory listing (None when
      the directory is absent), the source group files, the destination groups
      directory listing (None when absent) and the overwrite flag. When the
      destination directory exists and overwrite is off, its own listing is scanned
      (members are still read from the source files) and nothing is copied;
      otherwise the destination directory is created if needed and the source
      listing is scanned. */
  function GroupStage(tags: seq<string>, srcListing: Option<seq<string>>, files: map<string, seq<string>>,
                      dstGroups: Option<seq<string>>, overwrite: bool): (r: Result<GroupOutcome>)
  {
    if dstGroups.Some? && !overwrite then GroupScan(tags, dstGroups.value, files, false, dstGroups.value)
    else if srcListing.None? then Err(NoDirectory(GroupsDir))
    else GroupScan(tags, srcListing.value, files, true, if dstGroups.Some? then dstGroups.value else [])
  }

  /** `prune_groups` (lines 194-224). */
  method PruneGroups(tags: seq<string>, srcListing: Option<seq<string>>, files: map<string, seq<string>>,
                     dstGroups: Option<seq<string>>, overwrite: bool) returns (r: Result<GroupOutcome>)
    ensures r == GroupStage(tags, srcListing, files, dstGroups, overwrite)
  {
    if dstGroups.Some? && !overwrite {
      r := ScanGroups(tags, dstGroups.value, files, false, dstGroups.value);
    } else {
      var created := if dstGroups.Some? then dstGroups.value else [];
      if srcListing.None? {
        return Err(NoDirectory(GroupsDir));
      }
      r := ScanGroups(tags, srcListing.value, files, true, created);
    }
  }

  // ---------------------------------------------------------------------------
  // Properties of the stage.

  /** Without copying, the destination listing is left as it was. */
  lemma {:induction false} ScanWithoutCopyKeepsListing(tags: seq<string>, listing: seq<string>,
                                                       files: map<string, seq<string>>, dst: seq<string>)
    requires GroupScan(tags, listing, files, false, dst).Ok?
    ensures GroupScan(tags, listing, files, false, dst).value.groups == dst
    decreases |listing|
  {
    if listing != [] {
      ScanWithoutCopyKeepsListing(tags, listing[..|listing| - 1], files, dst);
    }
  }

  /** The members of the groups of `listing` that `selected` picks and that have a
      file, concatenated in listing order. */
  function Members(selected: string -> bool, listing: seq<string>, files: map<string, seq<string>>): (members: seq<string>)
  {
    if listing == [] then []
    else
      var name := listing[0];
      (if selected(name) && name in files then files[name] else []) + Members(selected, listing[1..], files)
  }

  /** The group file names the tags select (line 213). */
  function Matching(tags: seq<string>): (selected: string -> bool)
  {
    name => GroupMatches(tags, name)
  }

  /** The members of a listing made of two parts are those of the first part followed
      by those of the second. */
  lemma {:induction false} MembersConcatenate(selected: string -> bool, first: seq<string>, second: seq<string>,
                                              files: map<string, seq<string>>)
    ensures Members(selected, first + second, files) ==
            Members(selected, first, files) + Members(selected, second, files)
  {
    if first == [] {
      assert first + second == second;
    } else {
      assert (first + second)[0] == first[0];
      assert (first + second)[1..] == first[1..] + second;
      MembersConcatenate(selected, first[1..], second, files);
      var head := if selected(first[0]) && first[0] in files then files[first[0]] else [];
      var a, b := Members(selected, first[1..], files), Members(selected, second, files);
      assert head + (a + b) == (head + a) + b;
    }
  }

  /** `users_to_keep` is the concatenation, in listing order, of the members of the
      matching groups (duplicates kept). */
  lemma {:induction false} ScanUsers(tags: seq<string>, listing: seq<string>, files: map<string, seq<string>>,
                                     doCopy: bool, dst: seq<string>)
    requires GroupScan(tags, listing, files, doCopy, dst).Ok?
    ensures GroupScan(tags, listing, files, doCopy, dst).value.users == Members(Matching(tags), listing, files)
    decreases |listing|
  {
    if listing != [] {
      var init, name := listing[..|listing| - 1], listing[|listing| - 1];
      ScanUsers(tags, init, files, doCopy, dst);
      assert listing == init + [name];
      MembersConcatenate(Matching(tags), init, [name], files);
      assert [name][1..] == [];
    }
  }

  /** Scanning again into a listing that already holds every matching name changes
      nothing in it and collects the same users: the copy step is idempotent. */
  lemma {:induction false} ScanIntoSuperset(tags: seq<string>, listing: seq<string>, files: map<string, seq<string>>,
                                            dst: seq<string>, present: seq<string>)
    requires GroupScan(tags, listing, files, true, dst).Ok?
    requires forall n :: n in listing && GroupMatches(tags, n) ==> n in present
    ensures GroupScan(tags, listing, files, true, present) ==
            Ok(GroupOutcome(present, GroupScan(tags, listing, files, true, dst).value.users))
    decreases |listing|
  {
    if listing != [] {
      var init := listing[..|listing| - 1];
      assert forall n :: n in init ==> n in listing;
      ScanIntoSuperset(tags, init, files, dst, present);
    }
  }
}
