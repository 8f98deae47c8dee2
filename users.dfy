/** `prune_users` (pruneExport.py:227-240): keep the users named in `users_to_keep`. */
module Users {
  import opened Base
  import opened Records
  import opened Groups

  /** The users written to the destination users.log, in source order. */
  function KeptUsers(keep: seq<string>, users: seq<User>): (kept: seq<User>)
    decreases |users|
    ensures forall u :: u in kept <==> u in users && u.userName in keep
    ensures IsSubsequence(kept, users)
    ensures forall u :: multiset(kept)[u] == if u.userName in keep then multiset(users)[u] else 0
  {
    if users == [] then []
    else
      var init, last := users[..|users| - 1], users[|users| - 1];
      assert forall u :: u in users <==> u in init || u == last;
      MultisetSnoc(users);
      var kept := KeptUsers(keep, init);
      if last.userName in keep then
        SubsequenceKeep(kept, users);
        kept + [last]
      else
        SubsequenceSkip(kept, users);
        kept
  }

  /** The loop of lines 237-240. */
  method FilterUserLog(keep: seq<string>, src: seq<User>) returns (written: seq<User>)
    ensures written == KeptUsers(keep, src)
  {
    written := [];
    for i := 0 to |src|
      invariant written == KeptUsers(keep, src[..i])
    {
      assert src[..i + 1][..i] == src[..i];
      if src[i].userName in keep {
        written := written + [src[i]];
      }
    }
    assert src[..|src|] == src;
  }

  /** `prune_users` (lines 227-240): None when users.log exists at the destination and
      overwrite is off, which leaves it as it was. */
  method PruneUsers(keep: seq<string>, src: seq<User>, dstExists: bool, overwrite: bool)
    returns (log: Option<seq<User>>)
    ensures log == if dstExists && !overwrite then None else Some(KeptUsers(keep, src))
  {
    if dstExists && !overwrite {
      return None;
    }
    var written := FilterUserLog(keep, src);
    log := Some(written);
  }

  /** An empty keep-set keeps no user. */
  lemma {:induction false} NoKeepSetNoUsers(users: seq<User>)
    ensures KeptUsers([], users) == []
    decreases |users|
  {
    if users != [] {
      NoKeepSetNoUsers(users[..|users| - 1]);
    }
  }

  /** Groups and users together: a user of the source users.log reaches the
      destination users.log exactly when it is a member of some group, listed in the
      scanned groups directory and present among the source group files, whose name
      contains a requested tag in hyphenated form. */
  lemma UsersFollowGroups(tags: seq<string>, srcListing: Option<seq<string>>, files: map<string, seq<string>>,
                          dstGroups: Option<seq<string>>, overwrite: bool, src: seq<User>, u: User)
    requires GroupStage(tags, srcListing, files, dstGroups, overwrite).Ok?
    requires u in src
    ensures var scanned := if dstGroups.Some? && !overwrite then dstGroups.value else srcListing.value;
      var keep := GroupStage(tags, srcListing, files, dstGroups, overwrite).value.users;
      u in KeptUsers(keep, src) <==>
        exists g :: g in scanned && GroupMatches(tags, g) && g in files && u.userName in files[g]
  {
  }
}
