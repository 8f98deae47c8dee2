/** The three ways a record is matched against the requested team tags
    (pruneExport.py:113, :149, :190, :213, :285-286). */
module Tags {
  import opened Base
  import opened Strings

  /** The custom tag that names a cluster's or job's owning team. */
  const TeamKey: string := "z_team"

  /** The prefix `team_` that team directory names sometimes omit. */
  const TeamPrefix: string := "team_"

  /** Exact mode: the tag mapping has a `z_team` entry whose value is one of `tags`. */
  predicate TeamTagIn(tags: seq<string>, customTags: map<string, string>)
  {
    TeamKey in customTags && customTags[TeamKey] in tags
  }

  /** Substring mode: `[x for x in tags if x.replace("_", "-") in s]` is non-empty. */
  predicate HyphenTagIn(tags: seq<string>, s: string)
  {
    exists t :: t in tags && Contains(Hyphenate(t), s)
  }

  /** `tag.split("team_")[1]`; None stands for the IndexError raised when the tag
      holds no `team_`. */
  function StrippedTag(tag: string): (stripped: Option<string>)
  {
    Part(tag, TeamPrefix, 1)
  }

  /** `[x for x in tags if x.split("team_")[1] in team]` is non-empty; None stands
      for the IndexError the comprehension raises at any tag without `team_`. */
  function StrippedTagIn(tags: seq<string>, team: string): (r: Option<bool>)
  {
    if exists t :: t in tags && StrippedTag(t).None? then None
    else Some(exists t :: t in tags && StrippedTag(t).Some? && Contains(StrippedTag(t).value, team))
  }

  /** The team-directory test of lines 285-286: the hyphen test first, and only when
      it fails the stripped-prefix test (Python's `or` short-circuits). */
  function TeamMatch(tags: seq<string>, team: string): (r: Option<bool>)
  {
    if HyphenTagIn(tags, team) then Some(true) else StrippedTagIn(tags, team)
  }

  /** The team test fails (IndexError) exactly when the hyphen test fails and some
      tag holds no `team_`; otherwise it matches exactly when a hyphenated tag or a
      stripped tag occurs in the team name. */
  lemma TeamMatchCases(tags: seq<string>, team: string)
    ensures TeamMatch(tags, team).None? <==>
      !HyphenTagIn(tags, team) && exists t :: t in tags && !Contains(TeamPrefix, t)
    ensures TeamMatch(tags, team) == Some(true) <==>
      HyphenTagIn(tags, team) ||
      ((forall t :: t in tags ==> Contains(TeamPrefix, t)) &&
       exists t :: t in tags && StrippedTag(t).Some? && Contains(StrippedTag(t).value, team))
  {
    forall t | t in tags
      ensures StrippedTag(t).None? <==> !Contains(TeamPrefix, t)
    {
      SplitHasSecondPart(t, TeamPrefix);
    }
  }

  /** A tag `team_<x>`, with no further `team_` in `x`, strips to `x`. */
  lemma StrippedTeamTag(x: string)
    requires !Contains(TeamPrefix, x)
    ensures StrippedTag(TeamPrefix + x) == Some(x)
  {
    SplitLeading(TeamPrefix, x);
    SplitWithout(x, TeamPrefix);
  }

  /** A single tag whose hyphenated form is absent from the team name still matches
      when its stripped form occurs there. */
  lemma MatchByStrippedTag(tag: string, team: string)
    requires StrippedTag(tag).Some? && Contains(StrippedTag(tag).value, team)
    requires !Contains(Hyphenate(tag), team)
    ensures !HyphenTagIn([tag], team)
    ensures TeamMatch([tag], team) == Some(true)
  {
  }

  /** The tag `team_alpha` is `team_` followed by `alpha`. */
  lemma AlphaTag()
    ensures "team_alpha" == TeamPrefix + "alpha"
  {
  }

  /** Tag `team_alpha` matches the team directory name `alpha` through its stripped
      form, although its hyphenated form `team-alpha` does not occur in `alpha`. */
  lemma TeamAlphaMatchesAlpha()
    ensures !HyphenTagIn(["team_alpha"], "alpha")
    ensures TeamMatch(["team_alpha"], "alpha") == Some(true)
  {
    var tag, team := "team_alpha", "alpha";
    AlphaTag();
    assert TeamPrefix[4] !in team;
    MissingCharNotContained(TeamPrefix, team, 4);
    StrippedTeamTag(team);
    PrefixContained(team, team);
    var hyphenated := Hyphenate(tag);
    assert hyphenated[0] == 't' && 't' !in team;
    MissingCharNotContained(hyphenated, team, 0);
    MatchByStrippedTag(tag, team);
  }
}
