/**
 * How `generateRecommendations` scores one posting against a profile: two
 * points per posting skill the profile lists, one more when the profile's
 * location occurs in the lower-cased posting location.
 */
module Scoring {
  import opened Wrappers
  import opened Strings
  import opened Forms

  /** An internship of the catalog; `kind` is the source's `type`, `matchReason` its `match`. */
  datatype Posting = Posting(title: string, company: string, location: string, kind: string,
                             duration: string, category: string, skills: seq<string>,
                             matchReason: string, salary: string)

  /** `{ ...internship, score }`: the posting unchanged, with its score. */
  datatype Ranked = Ranked(posting: Posting, score: int)

  /** How many of the posting's skills, counted with repetition, the profile lists. */
  function MatchCount(postingSkills: seq<string>, profileSkills: seq<string>): (n: nat)
    ensures n <= |postingSkills|
  {
    if postingSkills == [] then 0
    else MatchCount(postingSkills[..|postingSkills| - 1], profileSkills)
         + (if postingSkills[|postingSkills| - 1] in profileSkills then 1 else 0)
  }

  /** `profile.location && internship.location.toLowerCase().includes(profile.location)` */
  predicate LocationBonus(profileLocation: string, postingLocation: string): (b: bool)
    ensures b ==> 0 < |profileLocation| <= |postingLocation|
  {
    profileLocation != "" && Contains(ToLower(postingLocation), profileLocation)
  }

  /** The score the source gives a posting. */
  function ScoreOf(posting: Posting, profileSkills: seq<string>, profileLocation: string): int {
    2 * MatchCount(posting.skills, profileSkills) + (if LocationBonus(profileLocation, posting.location) then 1 else 0)
  }

  /** `profile.location`; a missing field reads as `undefined`, which is false like the empty string. */
  function LocationOf(profile: Profile): string {
    if "location" in profile.fields then profile.fields["location"] else ""
  }

  /** The body of the `map` callback: the `forEach` over the posting's skills, then the location bonus. */
  method ScorePosting(posting: Posting, profileSkills: seq<string>, profileLocation: string) returns (r: Ranked)
    ensures r.posting == posting
    ensures r.score == 2 * MatchCount(posting.skills, profileSkills)
                       + (if LocationBonus(profileLocation, posting.location) then 1 else 0)
  {
    var score := 0;
    var i := 0;
    while i < |posting.skills|
      invariant 0 <= i <= |posting.skills|
      invariant score == 2 * MatchCount(posting.skills[..i], profileSkills)
    {
      assert posting.skills[..i + 1][..i] == posting.skills[..i];
      if posting.skills[i] in profileSkills {
        score := score + 2;
      }
      i := i + 1;
    }
    assert posting.skills[..i] == posting.skills;
    if profileLocation != "" && Contains(ToLower(posting.location), profileLocation) {
      score := score + 1;
    }
    r := Ranked(posting, score);
  }

  /** A score lies between 0 and two per posting skill plus one, and is odd exactly when the location matched. */
  lemma ScoreBounds(posting: Posting, profileSkills: seq<string>, profileLocation: string)
    ensures 0 <= ScoreOf(posting, profileSkills, profileLocation) <= 2 * |posting.skills| + 1
    ensures ScoreOf(posting, profileSkills, profileLocation) % 2 == 1
            <==> LocationBonus(profileLocation, posting.location)
  {
  }

  /** Every skill of the posting is listed exactly when the count reaches the number of skills. */
  lemma {:induction false} AllSkillsMatch(postingSkills: seq<string>, profileSkills: seq<string>)
    ensures MatchCount(postingSkills, profileSkills) == |postingSkills|
            <==> forall i :: 0 <= i < |postingSkills| ==> postingSkills[i] in profileSkills
  {
    if postingSkills != [] {
      var init := postingSkills[..|postingSkills| - 1];
      AllSkillsMatch(init, profileSkills);
      assert forall i :: 0 <= i < |init| ==> init[i] == postingSkills[i];
    }
  }

  /** The elements of a sequence, as a set. */
  function Elements(s: seq<string>): set<string> {
    set x | x in s
  }

  predicate Distinct(s: seq<string>) {
    forall i, j :: 0 <= i < j < |s| ==> s[i] != s[j]
  }

  /** For a posting without repeated skills, the count is the size of the intersection of the two skill sets. */
  lemma {:induction false} MatchCountIsIntersection(postingSkills: seq<string>, profileSkills: seq<string>)
    requires Distinct(postingSkills)
    ensures MatchCount(postingSkills, profileSkills) == |Elements(postingSkills) * Elements(profileSkills)|
  {
    if postingSkills == [] {
      assert Elements(postingSkills) == {};
    } else {
      var init := postingSkills[..|postingSkills| - 1];
      var last := postingSkills[|postingSkills| - 1];
      DistinctSnoc(init, last, postingSkills);
      MatchCountIsIntersection(init, profileSkills);
      IntersectAddOne(Elements(init), last, Elements(profileSkills));
    }
  }

  /** Adding a new element to one side of an intersection adds at most that element to it. */
  lemma IntersectAddOne(a: set<string>, x: string, b: set<string>)
    requires x !in a
    ensures |(a + {x}) * b| == |a * b| + (if x in b then 1 else 0)
  {
    if x in b {
      assert (a + {x}) * b == a * b + {x};
    } else {
      assert (a + {x}) * b == a * b;
    }
  }

  /** Peeling the last skill off a sequence without repetitions. */
  lemma DistinctSnoc(init: seq<string>, last: string, s: seq<string>)
    requires s == init + [last] && Distinct(s)
    ensures Distinct(init)
    ensures Elements(s) == Elements(init) + {last}
    ensures last !in Elements(init)
  {
    assert forall i :: 0 <= i < |init| ==> init[i] == s[i] != s[|init|];
    forall x
      ensures x in Elements(s) <==> x in Elements(init) || x == last
    {
      assert x in s <==> x in init || x == last;
    }
  }

  /** The profile location is not lower-cased: one holding a capital letter never earns the bonus. */
  lemma CapitalizedLocationNeverMatches(profileLocation: string, postingLocation: string, k: nat)
    requires k < |profileLocation| && IsUpperAscii(profileLocation[k])
    ensures !LocationBonus(profileLocation, postingLocation)
  {
    CapitalNeverInLowered(postingLocation, profileLocation, k);
  }
}
