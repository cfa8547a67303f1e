/**
 * `scored.sort((a, b) => b.score - a.score)`: a stable sort by descending
 * score, done in place. `Array.prototype.sort` is stable since the 2019
 * edition of ECMA-262 (section 23.1.3.30 in current editions), so its result
 * is the unique stable order, which insertion sort computes.
 */
module Ranking {
  import opened Scoring

  /** Scores never increase from left to right. */
  predicate NonIncreasing(s: seq<Ranked>) {
    forall i, j :: 0 <= i < j < |s| ==> s[i].score >= s[j].score
  }

  /** The postings scored `v`, in their order in `s`. */
  function WithScore(s: seq<Ranked>, v: int): seq<Ranked> {
    if s == [] then []
    else WithScore(s[..|s| - 1], v) + (if s[|s| - 1].score == v then [s[|s| - 1]] else [])
  }

  /** `t` and `u` hold the same postings of each score in the same order. */
  ghost predicate SameClasses(t: seq<Ranked>, u: seq<Ranked>) {
    forall v :: WithScore(t, v) == WithScore(u, v)
  }

  /** Puts `x` after every element scoring at least as much, walking in from the right. */
  function Insert(s: seq<Ranked>, x: Ranked): (r: seq<Ranked>)
    ensures |r| == |s| + 1
  {
    if s == [] then [x]
    else if s[|s| - 1].score < x.score then Insert(s[..|s| - 1], x) + [s[|s| - 1]]
    else s + [x]
  }

  /** Insertion sort, the element at the right end inserted last. */
  function InsertionSorted(s: seq<Ranked>): (r: seq<Ranked>)
    ensures |r| == |s|
  {
    if s == [] then [] else Insert(InsertionSorted(s[..|s| - 1]), s[|s| - 1])
  }

  /** The sort call, in place: `a` ends as the stable descending order of what it held. */
  method SortByScore(a: array<Ranked>)
    modifies a
    ensures a[..] == InsertionSorted(old(a[..]))
  {
    ghost var input := a[..];
    var i := 0;
    while i < a.Length
      invariant 0 <= i <= a.Length
      invariant a[..i] == InsertionSorted(input[..i])
      invariant a[i..] == input[i..]
    {
      assert input[..i + 1][..i] == input[..i];
      assert a[i] == input[i];
      InsertAt(a, i);
      i := i + 1;
    }
    assert input[..a.Length] == input;
  }

  /** One pass of the outer loop: moves `a[i]` left past every element scoring less. */
  method InsertAt(a: array<Ranked>, i: nat)
    requires i < a.Length
    modifies a
    ensures a[..i + 1] == Insert(old(a[..i]), old(a[i]))
    ensures a[i + 1..] == old(a[i + 1..])
  {
    var key := a[i];
    ghost var before := a[..];
    var j := i;
    while j > 0 && a[j - 1].score < key.score
      invariant 0 <= j <= i
      invariant forall k :: 0 <= k < j ==> a[k] == before[k]
      invariant forall k :: j < k <= i ==> a[k] == before[k - 1]
      invariant forall k :: i < k < a.Length ==> a[k] == before[k]
      invariant forall k :: j <= k < i ==> before[k].score < key.score
    {
      a[j] := a[j - 1];
      j := j - 1;
    }
    a[j] := key;
    ShiftedLayout(a[..], before, i, j, key);
    InsertionPoint(before[..i], j, key);
  }

  /** The array after the pass: the prefix before `j`, then `key`, then the rest of the first `i` shifted right. */
  lemma ShiftedLayout(after: seq<Ranked>, before: seq<Ranked>, i: nat, j: nat, key: Ranked)
    requires |after| == |before| && j <= i < |before|
    requires forall k :: 0 <= k < j ==> after[k] == before[k]
    requires after[j] == key
    requires forall k :: j < k <= i ==> after[k] == before[k - 1]
    requires forall k :: i < k < |before| ==> after[k] == before[k]
    ensures after[..i + 1] == before[..i][..j] + [key] + before[..i][j..]
    ensures after[i + 1..] == before[i + 1..]
  {
    var mid := before[..i][..j] + [key] + before[..i][j..];
    assert forall k :: 0 <= k <= i ==> after[k] == mid[k];
  }

  /**
   * Where `Insert` puts `key`: after a prefix ending in a score at least
   * `key`'s, and before a suffix of lower scores.
   */
  lemma {:induction false} InsertionPoint(sorted: seq<Ranked>, j: nat, key: Ranked)
    requires j <= |sorted| && (j == 0 || sorted[j - 1].score >= key.score)
    requires forall k :: j <= k < |sorted| ==> sorted[k].score < key.score
    ensures Insert(sorted, key) == sorted[..j] + [key] + sorted[j..]
    decreases |sorted|
  {
    if |sorted| == j {
      assert sorted[..j] == sorted && sorted[j..] == [];
    } else {
      var init, last := sorted[..|sorted| - 1], sorted[|sorted| - 1];
      assert init[..j] == sorted[..j];
      assert init[j..] + [last] == sorted[j..];
      InsertionPoint(init, j, key);
    }
  }

  lemma {:induction false} WithScoreConcat(s: seq<Ranked>, t: seq<Ranked>, v: int)
    ensures WithScore(s + t, v) == WithScore(s, v) + WithScore(t, v)
    decreases |t|
  {
    if t == [] {
      assert s + t == s;
    } else {
      var init, last := t[..|t| - 1], t[|t| - 1];
      assert (s + t)[..|s + t| - 1] == s + init;
      assert (s + t)[|s + t| - 1] == last;
      WithScoreConcat(s, init, v);
    }
  }

  /** Insertion adds `x` to the end of its own score class and leaves the other classes alone. */
  lemma {:induction false} InsertWithScore(s: seq<Ranked>, x: Ranked, v: int)
    ensures WithScore(Insert(s, x), v) == WithScore(s, v) + (if x.score == v then [x] else [])
  {
    if s == [] {
    } else if s[|s| - 1].score < x.score {
      var init, last := s[..|s| - 1], s[|s| - 1];
      InsertWithScore(init, x, v);
      WithScoreConcat(Insert(init, x), [last], v);
      WithScoreConcat(init, [last], v);
      assert init + [last] == s;
    } else {
      WithScoreConcat(s, [x], v);
    }
  }

  lemma {:induction false} InsertPermutes(s: seq<Ranked>, x: Ranked)
    ensures multiset(Insert(s, x)) == multiset(s) + multiset{x}
    ensures |Insert(s, x)| == |s| + 1
  {
    if s != [] && s[|s| - 1].score < x.score {
      var init, last := s[..|s| - 1], s[|s| - 1];
      InsertPermutes(init, x);
      assert init + [last] == s;
    }
  }

  /** Insertion keeps a sequence with non-increasing scores so. */
  lemma {:induction false} InsertNonIncreasing(s: seq<Ranked>, x: Ranked)
    requires NonIncreasing(s)
    ensures NonIncreasing(Insert(s, x))
  {
    if s != [] && s[|s| - 1].score < x.score {
      var init, last := s[..|s| - 1], s[|s| - 1];
      InsertNonIncreasing(init, x);
      InsertPermutes(init, x);
      var r := Insert(init, x);
      forall i | 0 <= i < |r| ensures r[i].score >= last.score {
        assert r[i] in multiset(init) + multiset{x};
        if r[i] != x {
          var k :| 0 <= k < |init| && init[k] == r[i];
          assert s[k] == init[k];
        }
      }
      assert Insert(s, x) == r + [last];
    }
  }

  /** The sorted order has non-increasing scores and is a permutation of the input. */
  lemma {:induction false} SortedIsOrderedPermutation(s: seq<Ranked>)
    ensures NonIncreasing(InsertionSorted(s))
    ensures multiset(InsertionSorted(s)) == multiset(s)
    ensures |InsertionSorted(s)| == |s|
  {
    if s != [] {
      var init := s[..|s| - 1];
      SortedIsOrderedPermutation(init);
      InsertNonIncreasing(InsertionSorted(init), s[|s| - 1]);
      InsertPermutes(InsertionSorted(init), s[|s| - 1]);
      assert init + [s[|s| - 1]] == s;
    }
  }

  /** Stability: the postings of each score keep their relative order. */
  lemma {:induction false} SortedIsStable(s: seq<Ranked>, v: int)
    ensures WithScore(InsertionSorted(s), v) == WithScore(s, v)
  {
    if s != [] {
      var init := s[..|s| - 1];
      SortedIsStable(init, v);
      InsertWithScore(InsertionSorted(init), s[|s| - 1], v);
    }
  }

  lemma {:induction false} WithScoreMembers(s: seq<Ranked>, v: int)
    ensures forall x :: x in WithScore(s, v) <==> x in s && x.score == v
  {
    if s != [] {
      WithScoreMembers(s[..|s| - 1], v);
      assert s == s[..|s| - 1] + [s[|s| - 1]];
    }
  }

  /** Orders agreeing on every score class have the same length. */
  lemma SameClassesSameEmptiness(t: seq<Ranked>, u: seq<Ranked>)
    requires SameClasses(t, u)
    ensures t == [] <==> u == []
  {
    if u != [] {
      var b := u[|u| - 1];
      WithScoreMembers(u, b.score);
      WithScoreMembers(t, b.score);
      assert b in WithScore(u, b.score);
    }
    if t != [] {
      var a := t[|t| - 1];
      WithScoreMembers(u, a.score);
      WithScoreMembers(t, a.score);
      assert a in WithScore(t, a.score);
    }
  }

  /** The element at the right end of a non-increasing order scores least. */
  lemma {:induction false} LastScoresLeast(t: seq<Ranked>, x: Ranked)
    requires NonIncreasing(t) && x in t
    ensures x.score >= t[|t| - 1].score
  {
    var k :| 0 <= k < |t| && t[k] == x;
  }

  /** Two such orders end in the same element, and agree on every class once it is dropped. */
  lemma {:induction false} SameLast(t: seq<Ranked>, u: seq<Ranked>)
    requires NonIncreasing(t) && NonIncreasing(u) && t != [] && u != []
    requires SameClasses(t, u)
    ensures t[|t| - 1] == u[|u| - 1]
    ensures SameClasses(t[..|t| - 1], u[..|u| - 1])
  {
    var t', a := t[..|t| - 1], t[|t| - 1];
    var u', b := u[..|u| - 1], u[|u| - 1];
    WithScoreMembers(t, b.score);
    WithScoreMembers(u, b.score);
    assert b in WithScore(u, b.score);
    LastScoresLeast(t, b);
    WithScoreMembers(t, a.score);
    WithScoreMembers(u, a.score);
    assert a in WithScore(t, a.score);
    LastScoresLeast(u, a);
    var m := a.score;
    var p, q := WithScore(t', m), WithScore(u', m);
    assert WithScore(t, m) == p + [a];
    assert WithScore(u, m) == q + [b];
    assert p == (p + [a])[..|p|] && q == (q + [b])[..|q|];
    forall v ensures WithScore(t', v) == WithScore(u', v) {
      if v != m {
        assert WithScore(t, v) == WithScore(t', v);
        assert WithScore(u, v) == WithScore(u', v);
      }
    }
  }

  /**
   * Two orders with non-increasing scores that agree on the order within
   * every score class are the same order.
   */
  lemma {:induction false} StableOrderUnique(t: seq<Ranked>, u: seq<Ranked>)
    requires NonIncreasing(t) && NonIncreasing(u)
    requires SameClasses(t, u)
    ensures t == u
    decreases |t|
  {
    SameClassesSameEmptiness(t, u);
    if t != [] {
      SameLast(t, u);
      StableOrderUnique(t[..|t| - 1], u[..|u| - 1]);
      assert t == t[..|t| - 1] + [t[|t| - 1]] && u == u[..|u| - 1] + [u[|u| - 1]];
    }
  }

  /**
   * Any stable sort by descending score gives the insertion sort's order, so
   * the model does not depend on which stable algorithm the engine runs.
   */
  lemma AnyStableSortAgrees(s: seq<Ranked>, t: seq<Ranked>)
    requires NonIncreasing(t)
    requires SameClasses(t, s)
    ensures t == InsertionSorted(s)
  {
    SortedIsOrderedPermutation(s);
    forall v ensures WithScore(t, v) == WithScore(InsertionSorted(s), v) {
      SortedIsStable(s, v);
    }
    StableOrderUnique(t, InsertionSorted(s));
  }

  /**
   * The first `k` of the sorted order: scores still non-increasing, drawn
   * from the input, and none of them below a score that was cut off.
   */
  lemma TopOfSortedIsBest(s: seq<Ranked>, k: nat)
    requires k <= |s|
    ensures NonIncreasing(InsertionSorted(s)[..k])
    ensures multiset(InsertionSorted(s)[..k]) <= multiset(s)
    ensures forall i, j :: 0 <= i < k <= j < |s| ==> InsertionSorted(s)[i].score >= InsertionSorted(s)[j].score
  {
    SortedIsOrderedPermutation(s);
    PrefixOfOrdered(InsertionSorted(s), k);
  }

  /** A prefix of a non-increasing sequence is non-increasing, part of it, and outscores the rest. */
  lemma PrefixOfOrdered(t: seq<Ranked>, k: nat)
    requires k <= |t| && NonIncreasing(t)
    ensures NonIncreasing(t[..k])
    ensures multiset(t[..k]) <= multiset(t)
    ensures forall i, j :: 0 <= i < k <= j < |t| ==> t[i].score >= t[j].score
  {
    assert t == t[..k] + t[k..];
  }

  /** Within each score, the first `k` of the sorted order are the first postings of that score in the input. */
  lemma TopOfSortedIsStable(s: seq<Ranked>, k: nat, v: int)
    requires k <= |s|
    ensures var top := WithScore(InsertionSorted(s)[..k], v);
      |top| <= |WithScore(s, v)| && top == WithScore(s, v)[..|top|]
  {
    var sorted := InsertionSorted(s);
    SortedIsStable(s, v);
    assert sorted == sorted[..k] + sorted[k..];
    WithScoreConcat(sorted[..k], sorted[k..], v);
  }
}
