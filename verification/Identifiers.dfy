/** The identifier grammar the server validates with, and the ids it builds from parts. */
module Identifiers {
  import opened Wrappers

  const MAX_SAFE_ID := 64
  const MAX_SOURCE_ID := 20
  const MAX_SLUG := 35
  const MAX_ADOPTED_SLUG := 40

  /** The calibrated policy efforts. */
  const REASONING_EFFORTS: seq<string> := ["none", "low", "medium", "high", "xhigh", "max", "ultra"]

  predicate PolicyEffort(effort: string) { effort in REASONING_EFFORTS }

  predicate Alphanumeric(c: char) { 'a' <= c <= 'z' || '0' <= c <= '9' }

  predicate SafeChar(c: char) { Alphanumeric(c) || c in "._:-" }

  /** The documented grammar: 1 to 64 characters, the first a lower-case letter or a digit. */
  predicate Grammar(s: string) {
    1 <= |s| <= MAX_SAFE_ID && Alphanumeric(s[0]) && forall i :: 0 <= i < |s| ==> SafeChar(s[i])
  }

  /** The pattern's two character classes match the first `n` characters. */
  predicate MatchesUpTo(s: string, n: nat) {
    1 <= n <= 64 && n <= |s| && Alphanumeric(s[0]) && forall i :: 1 <= i < n ==> SafeChar(s[i])
  }

  /** Where `$` matches: at the end, and also just before a line feed that is the last character. */
  predicate DollarAt(s: string, n: nat) { n == |s| || (n + 1 == |s| && s[n] == '\n') }

  /** What the validator accepts: its pattern matches from the start up to some place where `$` matches. */
  predicate SafeId(s: string) { exists n: nat | n <= |s| :: MatchesUpTo(s, n) && DollarAt(s, n) }

  predicate FeedAfterGrammar(s: string) { |s| > 0 && s[|s| - 1] == '\n' && Grammar(s[..|s| - 1]) }

  /** The validator accepts the documented grammar and, beyond it, exactly its strings with one line feed after them. */
  lemma GrammarIff(s: string)
    ensures SafeId(s) <==> Grammar(s) || FeedAfterGrammar(s)
    ensures !(Grammar(s) && FeedAfterGrammar(s))
  {
    if Grammar(s) {
      assert MatchesUpTo(s, |s|) && DollarAt(s, |s|);
      assert SafeChar(s[|s| - 1]);
    }
    if FeedAfterGrammar(s) {
      var front := s[..|s| - 1];
      assert forall i :: 0 <= i < |front| ==> front[i] == s[i];
      assert MatchesUpTo(s, |s| - 1) && DollarAt(s, |s| - 1);
    }
    if SafeId(s) {
      var n: nat :| n <= |s| && MatchesUpTo(s, n) && DollarAt(s, n);
      if n < |s| { assert Grammar(s[..|s| - 1]); }
    }
  }

  predicate Lacks(s: string, c: char) { forall i :: 0 <= i < |s| ==> s[i] != c }

  predicate NoColon(s: string) { Lacks(s, ':') }

  /** The derived id of one model of a source, with an effort suffix when an effort is bound. */
  function ResourceId(source: string, slug: string, effort: Option<string>): Option<string> {
    if |slug| > MAX_ADOPTED_SLUG || |source| > MAX_SOURCE_ID || !NoColon(source) then None
    else if effort.Some? && !NoColon(effort.value) then None
    else if effort.None? && !NoColon(slug) then None
    else
      var id := source + ":" + slug + (if effort.Some? && effort.value != "" then ":" + effort.value else "");
      if SafeId(id) then Some(id) else None
  }

  /** Everything before the first `c`, and everything after it. */
  function Partition(s: string, c: char): Option<(string, string)> {
    if s == "" then None
    else if s[0] == c then Some(("", s[1..]))
    else
      match Partition(s[1..], c)
      case None => None
      case Some((head, tail)) => Some(([s[0]] + head, tail))
  }

  lemma {:induction false} PartitionOf(head: string, c: char, tail: string)
    requires Lacks(head, c)
    ensures Partition(head + [c] + tail, c) == Some((head, tail))
  {
    var s := head + [c] + tail;
    if head == "" {
      assert s[1..] == tail;
    } else {
      PartitionOf(head[1..], c, tail);
      assert s[1..] == head[1..] + [c] + tail;
      assert [head[0]] + head[1..] == head;
    }
  }

  /** Partitioning is the inverse of joining; it fails exactly where there is no separator. */
  lemma {:induction false} PartitionIs(s: string, c: char)
    ensures Partition(s, c).None? <==> Lacks(s, c)
    ensures Partition(s, c).Some? ==>
              s == Partition(s, c).value.0 + [c] + Partition(s, c).value.1 && Lacks(Partition(s, c).value.0, c)
  {
    if s != "" {
      PartitionIs(s[1..], c);
      assert s == [s[0]] + s[1..];
    }
  }

  /** Everything before the last `c`, and everything after it. */
  function RightPartition(s: string, c: char): Option<(string, string)> {
    if s == "" then None
    else if s[|s| - 1] == c then Some((s[..|s| - 1], ""))
    else
      match RightPartition(s[..|s| - 1], c)
      case None => None
      case Some((head, tail)) => Some((head, tail + [s[|s| - 1]]))
  }

  lemma {:induction false} RightPartitionOf(head: string, c: char, tail: string)
    requires Lacks(tail, c)
    ensures RightPartition(head + [c] + tail, c) == Some((head, tail))
  {
    var s := head + [c] + tail;
    if tail == "" {
      assert s[..|s| - 1] == head;
    } else {
      RightPartitionOf(head, c, tail[..|tail| - 1]);
      assert s[..|s| - 1] == head + [c] + tail[..|tail| - 1];
      assert tail[..|tail| - 1] + [tail[|tail| - 1]] == tail;
    }
  }

  lemma {:induction false} RightPartitionIs(s: string, c: char)
    ensures RightPartition(s, c).None? <==> Lacks(s, c)
    ensures RightPartition(s, c).Some? ==>
              s == RightPartition(s, c).value.0 + [c] + RightPartition(s, c).value.1
              && Lacks(RightPartition(s, c).value.1, c)
  {
    if s != "" {
      RightPartitionIs(s[..|s| - 1], c);
      assert s == s[..|s| - 1] + [s[|s| - 1]];
    }
  }

  /** The source and model part of a derived id. */
  function SplitResourceId(id: string): Option<(string, string)> {
    match Partition(id, ':')
    case None => None
    case Some((head, tail)) => if head == "" || tail == "" || |head| > MAX_SOURCE_ID then None else Some((head, tail))
  }

  /** The text after the last colon. */
  lemma SuffixIsUnique(a: string, x: string, b: string, y: string)
    requires a + ":" + x == b + ":" + y && NoColon(x) && NoColon(y)
    ensures a == b && x == y
  {
    var s, t := a + ":" + x, b + ":" + y;
    assert forall i :: |a| < i < |s| ==> s[i] == x[i - |a| - 1];
    assert forall i :: |b| < i < |t| ==> t[i] == y[i - |b| - 1];
    assert s[|a|] == ':' && t[|b|] == ':';
    assert |a| == |b|;
    assert a == s[..|a|] && b == t[..|b|];
    assert x == s[|a| + 1..] && y == t[|b| + 1..];
  }

  /** A derived id leads back to its source. */
  lemma OwnerIsReadBack(source: string, slug: string, effort: Option<string>)
    requires ResourceId(source, slug, effort).Some? && slug != "" && source != ""
    ensures SplitResourceId(ResourceId(source, slug, effort).value).Some?
    ensures SplitResourceId(ResourceId(source, slug, effort).value).value.0 == source
  {
    var rest := slug + (if effort.Some? && effort.value != "" then ":" + effort.value else "");
    PartitionOf(source, ':', rest);
    assert ResourceId(source, slug, effort).value == source + ":" + rest;
  }

  /** No two derived resources share an id. */
  lemma ResourceIdsAreInjective(
    source: string, slug: string, effort: Option<string>, source': string, slug': string, effort': Option<string>)
    requires ResourceId(source, slug, effort).Some?
    requires ResourceId(source, slug, effort) == ResourceId(source', slug', effort')
    requires effort != Some("") && effort' != Some("")
    ensures source == source' && slug == slug' && effort == effort'
  {
    var rest := slug + (if effort.Some? then ":" + effort.value else "");
    var rest' := slug' + (if effort'.Some? then ":" + effort'.value else "");
    assert ResourceId(source, slug, effort).value == source + ":" + rest;
    assert ResourceId(source', slug', effort').value == source' + ":" + rest';
    PartitionOf(source, ':', rest);
    PartitionOf(source', ':', rest');
    assert rest == rest';
    ColonMeansEffort(slug, effort);
    ColonMeansEffort(slug', effort');
    if effort.Some? {
      assert rest == slug + ":" + effort.value && rest' == slug' + ":" + effort'.value;
      SuffixIsUnique(slug, effort.value, slug', effort'.value);
    } else {
      assert rest == slug && rest' == slug';
    }
  }

  lemma ColonMeansEffort(slug: string, effort: Option<string>)
    requires effort.None? ==> NoColon(slug)
    ensures NoColon(slug + (if effort.Some? then ":" + effort.value else "")) <==> effort.None?
  {
    if effort.Some? { assert (slug + (":" + effort.value))[|slug|] == ':'; }
  }

  lemma EffortsAreShort(effort: string)
    requires PolicyEffort(effort)
    ensures 1 <= |effort| <= 7 && NoColon(effort)
    ensures forall i :: 0 <= i < |effort| ==> SafeChar(effort[i])
  {
  }

  /** A text built from parts, one of which ends in a line feed that is not the text's last character. */
  lemma FeedInside(s: string, at: nat)
    requires at < |s| - 1 && s[at] == '\n'
    ensures !SafeId(s)
  {
    hide SafeId;
    GrammarIff(s);
    var front := s[..|s| - 1];
    assert front[at] == s[at];
  }

  lemma FeedIsLast(s: string)
    requires SafeId(s)
    ensures |s| > 0 && (Grammar(s) <==> s[|s| - 1] != '\n')
  {
    hide SafeId;
    GrammarIff(s);
  }

  /**
   * A validated source id and a discovered slug (validated, at most 35 characters) yield an id with a policy effort
   * exactly if neither is one of those the validator lets through with a final line feed.
   */
  lemma IdsFit(source: string, slug: string, effort: string)
    requires SafeId(source) && |source| <= MAX_SOURCE_ID && NoColon(source)
    requires SafeId(slug) && |slug| <= MAX_SLUG && PolicyEffort(effort)
    ensures |source| > 0 && |slug| > 0
    ensures ResourceId(source, slug, Some(effort)).Some? <==>
            source[|source| - 1] != '\n' && slug[|slug| - 1] != '\n'
  {
    hide SafeId;
    FeedIsLast(source);
    FeedIsLast(slug);
    EffortsAreShort(effort);
    var id := source + ":" + slug + (":" + effort);
    if source[|source| - 1] == '\n' {
      FeedInside(id, |source| - 1);
    } else if slug[|slug| - 1] == '\n' {
      assert id[|source| + |slug|] == '\n';
      FeedInside(id, |source| + |slug|);
    } else {
      Spelled(source, slug, ":" + effort);
      GrammarIff(id);
    }
  }

  /** Without an effort the slug comes last, where its final line feed is let through; the source's is not. */
  lemma LaneIdsFit(source: string, slug: string)
    requires SafeId(source) && |source| <= MAX_SOURCE_ID && NoColon(source)
    requires SafeId(slug) && |slug| <= MAX_SLUG
    ensures |source| > 0
    ensures ResourceId(source, slug, None).Some? <==> NoColon(slug) && source[|source| - 1] != '\n'
  {
    hide SafeId;
    FeedIsLast(source);
    FeedIsLast(slug);
    var id := source + ":" + slug + "";
    if source[|source| - 1] == '\n' {
      FeedInside(id, |source| - 1);
    } else {
      var front := if slug[|slug| - 1] == '\n' then slug[..|slug| - 1] else slug;
      GrammarIff(slug);
      Spelled(source, front, "");
      GrammarIff(id);
      if front != slug { assert id[..|id| - 1] == source + ":" + front + ""; }
    }
  }

  /** Parts of the grammar, joined by colons, are in the grammar if they are short enough. */
  lemma Spelled(source: string, slug: string, suffix: string)
    requires Grammar(source) && Grammar(slug) && |source| + |slug| + |suffix| + 1 <= MAX_SAFE_ID
    requires forall i :: 0 <= i < |suffix| ==> SafeChar(suffix[i])
    ensures Grammar(source + ":" + slug + suffix)
  {
    var id, n := source + ":" + slug + suffix, |source|;
    forall i | 0 <= i < |id| ensures SafeChar(id[i]) {
      if i < n { assert id[i] == source[i]; }
      else if n < i <= n + |slug| { assert id[i] == slug[i - n - 1]; }
      else if i > n + |slug| { assert id[i] == suffix[i - n - |slug| - 1]; }
    }
    assert id[0] == source[0];
  }

  /**
   * Documented parts of any length yield an id exactly within three bounds: the source's, the slug's, and that of all
   * parts with their separators. Slugs of up to 35 characters always fit, whatever the source and the effort.
   */
  lemma LengthsFit(source: string, slug: string, effort: string)
    requires Grammar(source) && NoColon(source) && Grammar(slug) && PolicyEffort(effort)
    ensures ResourceId(source, slug, Some(effort)).Some? <==>
            |source| <= 20 && |slug| <= 40 && |source| + 1 + |slug| + 1 + |effort| <= 64
    ensures |source| <= 20 && |slug| <= 35 ==> ResourceId(source, slug, Some(effort)).Some?
  {
    hide SafeId;
    EffortsAreShort(effort);
    var id := source + ":" + slug + (":" + effort);
    GrammarIff(id);
    assert id[|id| - 1] == effort[|effort| - 1];
    if |id| <= 64 { Spelled(source, slug, ":" + effort); }
  }

  /** The shortest slug the validator accepts that yields no id with an effort, while it yields one without. */
  lemma FeedGetsNoId(effort: string)
    requires PolicyEffort(effort)
    ensures SafeId("m\n") && !Grammar("m\n") && |"m\n"| <= MAX_ADOPTED_SLUG
    ensures ResourceId("s", "m\n", Some(effort)) == None
    ensures ResourceId("s", "m\n", None) == Some("s:m\n")
  {
    hide SafeId;
    OneLetter();
    IdsFit("s", "m\n", effort);
    LaneIdsFit("s", "m\n");
    assert "s" + ":" + "m\n" + "" == "s:m\n";
  }

  /** The shortest source id the validator accepts that yields no id at all. */
  lemma SourceFeedGetsNoId(effort: string)
    requires PolicyEffort(effort)
    ensures SafeId("s\n") && !Grammar("s\n") && |"s\n"| <= MAX_SOURCE_ID && NoColon("s\n")
    ensures ResourceId("s\n", "m", Some(effort)) == None && ResourceId("s\n", "m", None) == None
  {
    hide SafeId;
    OneLetter();
    IdsFit("s\n", "m", effort);
    LaneIdsFit("s\n", "m");
  }

  lemma OneLetter()
    ensures SafeId("s") && SafeId("m") && SafeId("s\n") && SafeId("m\n") && !Grammar("s\n") && !Grammar("m\n")
  {
    hide SafeId;
    GrammarIff("s");
    GrammarIff("m");
    GrammarIff("s\n");
    GrammarIff("m\n");
    assert "s\n"[..1] == "s" && "m\n"[..1] == "m";
  }
}
