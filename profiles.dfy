/** `prune_instance_profiles` (pruneExport.py:174-191): keep the instance
    profiles whose ARN contains one of the requested tags in hyphenated form. */
module InstanceProfiles {
  import opened Base
  import opened Strings
  import opened Records
  import opened Tags

  /** Line 190: some tag, with `_` replaced by `-`, occurs in the ARN. */
  predicate KeepProfile(tags: seq<string>, p: InstanceProfile)
  {
    HyphenTagIn(tags, p.arn)
  }

  /** The instance profiles written to the destination, in source order. */
  function KeptProfiles(tags: seq<string>, profiles: seq<InstanceProfile>): (kept: seq<InstanceProfile>)
    decreases |profiles|
    ensures forall p :: p in kept <==> p in profiles && KeepProfile(tags, p)
    ensures IsSubsequence(kept, profiles)
    ensures forall p :: multiset(kept)[p] == if KeepProfile(tags, p) then multiset(profiles)[p] else 0
  {
    if profiles == [] then []
    else
      var init, last := profiles[..|profiles| - 1], profiles[|profiles| - 1];
      assert forall p :: p in profiles <==> p in init || p == last;
      MultisetSnoc(profiles);
      var kept := KeptProfiles(tags, init);
      if KeepProfile(tags, last) then
        SubsequenceKeep(kept, profiles);
        kept + [last]
      else
        SubsequenceSkip(kept, profiles);
        kept
  }

  /** The loop of lines 184-191. */
  method FilterProfileLog(tags: seq<string>, src: seq<InstanceProfile>) returns (written: seq<InstanceProfile>)
    ensures written == KeptProfiles(tags, src)
  {
    written := [];
    for i := 0 to |src|
      invariant written == KeptProfiles(tags, src[..i])
    {
      assert src[..i + 1][..i] == src[..i];
      var arn := src[i].arn;
      if exists x :: x in tags && Contains(Hyphenate(x), arn) {
        written := written + [src[i]];
      }
    }
    assert src[..|src|] == src;
  }

  /** `prune_instance_profiles` (lines 174-191): the new instance_profiles.log, or
      None when it exists at the destination and overwrite is off. */
  method PruneInstanceProfiles(tags: seq<string>, src: seq<InstanceProfile>, dstExists: bool, overwrite: bool)
    returns (log: Option<seq<InstanceProfile>>)
    ensures log == if dstExists && !overwrite then None else Some(KeptProfiles(tags, src))
  {
    if dstExists && !overwrite {
      return None;
    }
    var written := FilterProfileLog(tags, src);
    log := Some(written);
  }

  /** A name holding a requested tag in hyphenated form anywhere matches it, which is
      why the ARN `.../team-alpha-role` is kept for the tag `team_alpha`. */
  lemma HyphenatedTagAnywhere(tags: seq<string>, tag: string, before: string, after: string)
    requires tag in tags
    ensures HyphenTagIn(tags, before + Hyphenate(tag) + after)
  {
    var name := before + Hyphenate(tag) + after;
    assert Hyphenate(tag) <= name[|before|..];
    ContainsIffOccurs(Hyphenate(tag), name);
  }
}
