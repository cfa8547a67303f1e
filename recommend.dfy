/**
 * `generateRecommendations`: without a profile that lists skills, the first
 * three postings of the catalog; otherwise every posting scored, sorted by
 * descending score, and the first three of that order.
 */
module Recommend {
  import opened Wrappers
  import opened Forms
  import opened Scoring
  import opened Ranking
  import opened Strings

  const TopN := 3

  /** `slice(0, 3)`: how many entries the result keeps. */
  function TopCount(n: nat): (k: nat)
    ensures k <= n && k <= TopN && (k == n || k == TopN)
  {
    if n < TopN then n else TopN
  }

  /** The two shapes of the result: catalog entries as they are, or entries carrying a score. */
  datatype Recommendations = Featured(postings: seq<Posting>) | Matched(ranked: seq<Ranked>)

  /** `!profile || !profile.skills` */
  predicate Unpersonalised(profile: Option<Profile>) {
    profile.None? || profile.value.skills.None?
  }

  /** The `map` over the catalog: each posting with its score, in catalog order. */
  function ScoreAll(catalog: seq<Posting>, profile: Profile): (r: seq<Ranked>)
    requires profile.skills.Some?
    ensures |r| == |catalog|
    ensures forall i :: 0 <= i < |r| ==> r[i].posting == catalog[i]
    ensures forall i :: 0 <= i < |r| ==> r[i].score == ScoreOf(catalog[i], profile.skills.value, LocationOf(profile))
  {
    seq(|catalog|, i requires 0 <= i < |catalog| =>
      Ranked(catalog[i], ScoreOf(catalog[i], profile.skills.value, LocationOf(profile))))
  }

  /** What `generateRecommendations` returns for a catalog: three entries, or the whole catalog when it is smaller. */
  ghost function Recommended(profile: Option<Profile>, catalog: seq<Posting>): (r: Recommendations)
    ensures r.Featured? <==> Unpersonalised(profile)
    ensures r.Featured? ==> |r.postings| == TopCount(|catalog|)
    ensures r.Matched? ==> |r.ranked| == TopCount(|catalog|)
  {
    if Unpersonalised(profile) then Featured(catalog[..TopCount(|catalog|)])
    else Matched(InsertionSorted(ScoreAll(catalog, profile.value))[..TopCount(|catalog|)])
  }

  method GenerateRecommendations(profile: Option<Profile>, catalog: seq<Posting>) returns (r: Recommendations)
    ensures r == Recommended(profile, catalog)
  {
    if profile.None? || profile.value.skills.None? {
      return Featured(catalog[..TopCount(|catalog|)]);
    }
    var skills := profile.value.skills.value;
    var location := LocationOf(profile.value);
    var scored := new Ranked[|catalog|](i requires 0 <= i < |catalog| => Ranked(catalog[i], 0));
    var i := 0;
    while i < |catalog|
      invariant 0 <= i <= |catalog|
      invariant forall k :: 0 <= k < i ==> scored[k] == ScoreAll(catalog, profile.value)[k]
    {
      scored[i] := ScorePosting(catalog[i], skills, location);
      i := i + 1;
    }
    assert scored[..] == ScoreAll(catalog, profile.value);
    SortByScore(scored);
    r := Matched(scored[..TopCount(|catalog|)]);
  }

  /** Without a profile, or with one lacking skills, the result is the start of the catalog, unscored. */
  lemma FallbackIsCatalogPrefix(profile: Option<Profile>, catalog: seq<Posting>)
    requires Unpersonalised(profile)
    ensures forall i :: 0 <= i < TopCount(|catalog|) ==> Recommended(profile, catalog).postings[i] == catalog[i]
  {
  }

  /**
   * With skills, the result is the start of a permutation of the scored
   * catalog: scores non-increasing, no posting left out scoring more than
   * one kept, and within each score the catalog's order.
   */
  lemma MatchedIsStableTop(profile: Option<Profile>, catalog: seq<Posting>)
    requires !Unpersonalised(profile)
    ensures var all := ScoreAll(catalog, profile.value);
      var rs := Recommended(profile, catalog).ranked;
      && rs == InsertionSorted(all)[..|rs|]
      && multiset(InsertionSorted(all)) == multiset(all)
      && NonIncreasing(rs)
      && multiset(rs) <= multiset(all)
      && (forall i, j :: 0 <= i < |rs| <= j < |all| ==> InsertionSorted(all)[i].score >= InsertionSorted(all)[j].score)
      && (forall v :: |WithScore(rs, v)| <= |WithScore(all, v)| && WithScore(rs, v) == WithScore(all, v)[..|WithScore(rs, v)|])
  {
    var all := ScoreAll(catalog, profile.value);
    var k := TopCount(|catalog|);
    SortedIsOrderedPermutation(all);
    TopOfSortedIsBest(all, k);
    forall v ensures |WithScore(InsertionSorted(all)[..k], v)| <= |WithScore(all, v)|
                     && WithScore(InsertionSorted(all)[..k], v) == WithScore(all, v)[..|WithScore(InsertionSorted(all)[..k], v)|] {
      TopOfSortedIsStable(all, k, v);
    }
  }

  /** Every entry of a personalised result is a catalog posting carrying the score the formula gives it. */
  lemma MatchedScores(profile: Option<Profile>, catalog: seq<Posting>)
    requires !Unpersonalised(profile)
    ensures forall x :: x in Recommended(profile, catalog).ranked ==>
      x.posting in catalog &&
      x.score == ScoreOf(x.posting, profile.value.skills.value, LocationOf(profile.value))
  {
    var all := ScoreAll(catalog, profile.value);
    MatchedIsStableTop(profile, catalog);
    forall x | x in Recommended(profile, catalog).ranked
      ensures x.posting in catalog && x.score == ScoreOf(x.posting, profile.value.skills.value, LocationOf(profile.value))
    {
      assert x in multiset(all);
      var i :| 0 <= i < |all| && all[i] == x;
    }
  }

  /**
   * A profile listing JavaScript and Excel, located in "mumbai": the Mumbai
   * posting matches one skill and the location, three points.
   */
  lemma MumbaiPostingScoresThree(postingSkills: seq<string>, postingLocation: string, skills: seq<string>, location: string)
    requires postingSkills == ["React", "JavaScript", "CSS"] && postingLocation == "Mumbai, Maharashtra"
    requires skills == ["JavaScript", "Excel"] && location == "mumbai"
    ensures MatchCount(postingSkills, skills) == 1 && LocationBonus(location, postingLocation)
  {
    MatchCountOfThree(postingSkills, skills);
    assert "React" !in skills && "JavaScript" in skills && "CSS" !in skills;
    var lowered := ToLower(postingLocation);
    assert lowered[..6] == location;
    assert OccursAt(lowered, location, 0);
  }

  /** The same profile matches one skill of the data-entry posting in Delhi, and not its location: two points. */
  lemma ExcelPostingScoresTwo(postingSkills: seq<string>, postingLocation: string, skills: seq<string>, location: string)
    requires postingSkills == ["Excel", "Data Processing", "Attention to Detail"] && postingLocation == "Delhi, NCR"
    requires skills == ["JavaScript", "Excel"] && location == "mumbai"
    ensures MatchCount(postingSkills, skills) == 1 && !LocationBonus(location, postingLocation)
  {
    MatchCountOfThree(postingSkills, skills);
    assert "Excel" in skills && "Data Processing" !in skills && "Attention to Detail" !in skills;
    NoBonusWithout(postingLocation, location, 'm', 'M');
  }

  /** The marketing posting in Bangalore shares no skill and no location with the same profile. */
  lemma MarketingPostingScoresZero(postingSkills: seq<string>, postingLocation: string, skills: seq<string>, location: string)
    requires postingSkills == ["SEO", "Social Media", "Analytics"] && postingLocation == "Bangalore, Karnataka"
    requires skills == ["JavaScript", "Excel"] && location == "mumbai"
    ensures MatchCount(postingSkills, skills) == 0 && !LocationBonus(location, postingLocation)
  {
    MatchCountOfThree(postingSkills, skills);
    assert "SEO" !in skills && "Social Media" !in skills && "Analytics" !in skills;
    NoBonusWithout(postingLocation, location, 'm', 'M');
  }

  /** The remote writing posting shares no skill and no location with the same profile. */
  lemma WritingPostingScoresZero(postingSkills: seq<string>, postingLocation: string, skills: seq<string>, location: string)
    requires postingSkills == ["Writing", "Research", "SEO"] && postingLocation == "Remote"
    requires skills == ["JavaScript", "Excel"] && location == "mumbai"
    ensures MatchCount(postingSkills, skills) == 0 && !LocationBonus(location, postingLocation)
  {
    MatchCountOfThree(postingSkills, skills);
    assert "Writing" !in skills && "Research" !in skills && "SEO" !in skills;
    NoBonusWithout(postingLocation, location, 'u', 'U');
  }

  /** A profile location holding a letter the posting location lacks in either case earns no bonus. */
  lemma NoBonusWithout(postingLocation: string, location: string, lower: char, upper: char)
    requires lower in location
    requires 'a' <= lower <= 'z' && upper as int == lower as int - 32
    requires lower !in postingLocation && upper !in postingLocation
    ensures !LocationBonus(location, postingLocation)
  {
    LoweredLacks(postingLocation, lower, upper);
    var k :| 0 <= k < |location| && location[k] == lower;
    MissingCharacter(ToLower(postingLocation), location, k);
  }

  /** The match count of a posting listing three skills: one per skill the profile lists. */
  lemma MatchCountOfThree(postingSkills: seq<string>, profileSkills: seq<string>)
    requires |postingSkills| == 3
    ensures MatchCount(postingSkills, profileSkills)
         == (if postingSkills[0] in profileSkills then 1 else 0)
          + (if postingSkills[1] in profileSkills then 1 else 0)
          + (if postingSkills[2] in profileSkills then 1 else 0)
  {
    assert postingSkills[..2][..1] == [postingSkills[0]] && postingSkills[..2] == [postingSkills[0], postingSkills[1]];
    assert MatchCount([postingSkills[0]], profileSkills) == if postingSkills[0] in profileSkills then 1 else 0;
  }

  /** Four entries scoring 3, 0, 2 and 0 sort as the first, the third, the second and the fourth. */
  lemma SortExample(all: seq<Ranked>)
    requires |all| == 4
    requires all[0].score == 3 && all[1].score == 0 && all[2].score == 2 && all[3].score == 0
    ensures InsertionSorted(all) == [all[0], all[2], all[1], all[3]]
  {
    assert all[..1][..0] == [] && all[..2][..1] == all[..1] && all[..3][..2] == all[..2] && all[..4][..3] == all[..3];
    assert InsertionSorted(all[..1]) == [all[0]];
    assert InsertionSorted(all[..2]) == [all[0], all[1]];
    InsertionPoint([all[0], all[1]], 1, all[2]);
    assert InsertionSorted(all[..3]) == [all[0], all[2], all[1]];
    assert all[..4] == all;
  }

  /** The example profile's skills and location. */
  predicate ExampleProfile(profile: Profile) {
    profile == Profile(map["location" := "mumbai"], Some(["JavaScript", "Excel"]))
  }

  /** The scores of the catalog under the example profile, in catalog order: 3, 0, 2 and 0. */
  lemma ExampleScores(profile: Profile)
    requires ExampleProfile(profile)
    ensures var all := ScoreAll(Catalog, profile);
      all[0].score == 3 && all[1].score == 0 && all[2].score == 2 && all[3].score == 0
  {
    var skills, location := profile.skills.value, LocationOf(profile);
    assert location == "mumbai";
    MumbaiPostingScoresThree(Catalog[0].skills, Catalog[0].location, skills, location);
    MarketingPostingScoresZero(Catalog[1].skills, Catalog[1].location, skills, location);
    ExcelPostingScoresTwo(Catalog[2].skills, Catalog[2].location, skills, location);
    WritingPostingScoresZero(Catalog[3].skills, Catalog[3].location, skills, location);
  }

  /**
   * The profile of the scoring example (skills JavaScript and Excel, location
   * "mumbai"): the Mumbai posting first, then the data-entry posting, then the
   * marketing posting, which comes before the equally scored content posting.
   */
  lemma CatalogExample(profile: Profile)
    requires ExampleProfile(profile)
    ensures Recommended(Some(profile), Catalog)
         == Matched([Ranked(Catalog[0], 3), Ranked(Catalog[2], 2), Ranked(Catalog[1], 0)])
  {
    ExampleScores(profile);
    TopThreeOfFour(profile, Catalog);
  }

  /** For four postings scoring 3, 0, 2 and 0, the result is the first, the third and the second. */
  lemma TopThreeOfFour(profile: Profile, catalog: seq<Posting>)
    requires profile.skills.Some? && |catalog| == 4
    requires var all := ScoreAll(catalog, profile);
      all[0].score == 3 && all[1].score == 0 && all[2].score == 2 && all[3].score == 0
    ensures Recommended(Some(profile), catalog)
         == Matched([Ranked(catalog[0], 3), Ranked(catalog[2], 2), Ranked(catalog[1], 0)])
  {
    var all := ScoreAll(catalog, profile);
    SortExample(all);
    assert Recommended(Some(profile), catalog) == Matched(InsertionSorted(all)[..3]);
  }

  /** The four postings the source ranks. */
  const Catalog: seq<Posting> := [
    Posting("Frontend Developer Intern", "TechStart Solutions", "Mumbai, Maharashtra", "Paid",
            "3 months", "Web Development", ["React", "JavaScript", "CSS"],
            "Your JavaScript and React skills make you a perfect fit for this role.", "₹15,000/month"),
    Posting("Digital Marketing Intern", "Creative Agency", "Bangalore, Karnataka", "Paid",
            "6 months", "Marketing", ["SEO", "Social Media", "Analytics"],
            "Your interest in digital marketing and communication skills align well.", "₹12,000/month"),
    Posting("Data Entry Specialist", "DataCorp India", "Delhi, NCR", "Paid",
            "2 months", "Data Entry", ["Excel", "Data Processing", "Attention to Detail"],
            "Your Excel skills and attention to detail are exactly what we need.", "₹10,000/month"),
    Posting("Content Writer Intern", "Media House", "Remote", "Paid",
            "4 months", "Content Writing", ["Writing", "Research", "SEO"],
            "Your communication and writing skills make you ideal for this position.", "₹8,000/month")
  ]
}
