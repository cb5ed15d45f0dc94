/** Skill suggestions: `searchSkills` filters the popular-skill list by a
    query and by the skills the user already has, ranks prefix matches first
    and more used skills higher, and keeps at most ten. */
module PopularSkills {
  import opened Strings
  import opened Lists
  import opened Sorting

  datatype PopularSkill = PopularSkill(name: string, usageCount: int)

  /** The most suggestions returned. */
  const MaxResults: nat := 10

  /** The skills not yet chosen, in stored order; the test is exact and
      case-sensitive. */
  function NotExcluded(skills: seq<PopularSkill>, exclude: seq<string>): (r: seq<PopularSkill>)
    ensures forall i :: 0 <= i < |r| ==> r[i] in skills && r[i].name !in exclude
    ensures forall i :: 0 <= i < |skills| && skills[i].name !in exclude ==> skills[i] in r
  {
    var p := (s: PopularSkill) => s.name !in exclude;
    FilterFacts(skills, p);
    Filter(skills, p)
  }

  /** A skill matches the lower-cased query when its lower-cased name
      contains it. */
  predicate Matches(s: PopularSkill, q: string) {
    Includes(ToLower(s.name), q)
  }

  predicate IsPrefixMatch(s: PopularSkill, q: string) {
    StartsWith(ToLower(s.name), q)
  }

  /** The sort comparator: `a` may precede `b` when it is a prefix match and
      `b` is not, or both are alike and `a` is used at least as much. */
  predicate Ranks(q: string, a: PopularSkill, b: PopularSkill) {
    (IsPrefixMatch(a, q) && !IsPrefixMatch(b, q))
    || (IsPrefixMatch(a, q) == IsPrefixMatch(b, q) && a.usageCount >= b.usageCount)
  }

  function RankBefore(q: string): (PopularSkill, PopularSkill) -> bool {
    (a: PopularSkill, b: PopularSkill) => Ranks(q, a, b)
  }

  lemma RankBeforeIsOrder(q: string)
    ensures Total(RankBefore(q)) && Transitive(RankBefore(q))
  {
  }

  /** The skills a non-blank query finds, before ranking. */
  function Found(skills: seq<PopularSkill>, q: string, exclude: seq<string>): (r: seq<PopularSkill>)
    ensures forall i :: 0 <= i < |r| ==> r[i] in skills && Matches(r[i], q) && r[i].name !in exclude
    ensures forall i :: 0 <= i < |skills| && Matches(skills[i], q) && skills[i].name !in exclude ==> skills[i] in r
  {
    var p := (s: PopularSkill) => Matches(s, q) && s.name !in exclude;
    FilterFacts(skills, p);
    Filter(skills, p)
  }

  /** `searchSkills(query, excludeSkills)` over the loaded `skills`. */
  function SearchSkills(skills: seq<PopularSkill>, query: string, exclude: seq<string>): (r: seq<PopularSkill>)
    ensures |r| <= MaxResults
    ensures IsBlank(query) ==> r == Take(NotExcluded(skills, exclude), MaxResults)
  {
    if TrimIsEmpty(query) then
      Take(NotExcluded(skills, exclude), MaxResults)
    else
      var q := Trim(ToLower(query));
      Take(SortBy(Found(skills, q, exclude), RankBefore(q)), MaxResults)
  }

  /** Every suggestion is a stored skill the user does not have yet. */
  lemma SearchSkillsExcludes(skills: seq<PopularSkill>, query: string, exclude: seq<string>)
    ensures var r := SearchSkills(skills, query, exclude);
      forall i :: 0 <= i < |r| ==> r[i] in skills && r[i].name !in exclude
  {
    var r := SearchSkills(skills, query, exclude);
    if !IsBlank(query) {
      var q := Trim(ToLower(query));
      var found := Found(skills, q, exclude);
      forall i | 0 <= i < |r| ensures r[i] in found {
        assert r[i] in multiset(SortBy(found, RankBefore(q)));
      }
    }
  }

  /** For a non-blank query every suggestion contains the lower-cased,
      trimmed query; prefix matches come first; and within each group more
      used skills come first. */
  lemma SearchSkillsRanked(skills: seq<PopularSkill>, query: string, exclude: seq<string>)
    requires !IsBlank(query)
    ensures var r := SearchSkills(skills, query, exclude);
      var q := Trim(ToLower(query));
      && (forall i :: 0 <= i < |r| ==> Matches(r[i], q))
      && (forall i, j :: 0 <= i < j < |r| && IsPrefixMatch(r[j], q) ==> IsPrefixMatch(r[i], q))
      && (forall i, j :: 0 <= i < j < |r| && IsPrefixMatch(r[i], q) == IsPrefixMatch(r[j], q) ==>
            r[i].usageCount >= r[j].usageCount)
  {
    var q := Trim(ToLower(query));
    var found := Found(skills, q, exclude);
    var sorted := SortBy(found, RankBefore(q));
    var r := SearchSkills(skills, query, exclude);
    RankBeforeIsOrder(q);
    SortBySorted(found, RankBefore(q));
    forall i | 0 <= i < |r| ensures Matches(r[i], q) {
      assert r[i] in multiset(found);
    }
    forall i, j | 0 <= i < j < |r| ensures Ranks(q, r[i], r[j]) {
      assert r[i] == sorted[i] && r[j] == sorted[j];
      assert RankBefore(q)(sorted[i], sorted[j]);
    }
  }

  /** A short result leaves out no matching skill. */
  lemma SearchSkillsComplete(skills: seq<PopularSkill>, query: string, exclude: seq<string>, s: PopularSkill)
    requires !IsBlank(query) && s in skills && s.name !in exclude && Matches(s, Trim(ToLower(query)))
    requires |SearchSkills(skills, query, exclude)| < MaxResults
    ensures s in SearchSkills(skills, query, exclude)
  {
    var q := Trim(ToLower(query));
    var found := Found(skills, q, exclude);
    var k :| 0 <= k < |skills| && skills[k] == s;
    assert s in found;
    assert s in multiset(SortBy(found, RankBefore(q)));
  }

  /** A matching skill that was left out ranks no higher than any kept
      suggestion, and it was left out only because ten suggestions were
      already found: the suggestions are the ten best ranked. */
  lemma SearchSkillsBest(skills: seq<PopularSkill>, query: string, exclude: seq<string>, s: PopularSkill)
    requires !IsBlank(query) && s in skills && s.name !in exclude && Matches(s, Trim(ToLower(query)))
    requires s !in SearchSkills(skills, query, exclude)
    ensures var r := SearchSkills(skills, query, exclude);
      |r| == MaxResults && forall i :: 0 <= i < |r| ==> Ranks(Trim(ToLower(query)), r[i], s)
  {
    var q := Trim(ToLower(query));
    var found := Found(skills, q, exclude);
    var sorted := SortBy(found, RankBefore(q));
    var r := SearchSkills(skills, query, exclude);
    assert s in found;
    assert s in multiset(sorted);
    var k :| 0 <= k < |sorted| && sorted[k] == s;
    assert k >= MaxResults;
    RankBeforeIsOrder(q);
    SortBySorted(found, RankBefore(q));
    forall i | 0 <= i < |r| ensures Ranks(q, r[i], s) {
      assert r[i] == sorted[i];
      assert RankBefore(q)(sorted[i], sorted[k]);
    }
  }
}
