/**
 * The final ordering of a scan: `executables.sort(key=score, reverse=True)`.
 * Python's sort is stable, so programs with equal scores keep the order the
 * walk found them in. The sort is given here as a stable insertion sort on
 * values, with the three things the caller relies on proved about it: the
 * result is ordered by descending score, it holds the same programs, and
 * among equal scores the discovery order is kept.
 */
module Ranking {
  import opened Records

  /** Scores never increase from left to right. */
  predicate SortedDesc(s: seq<ExecutableProgram>) {
    forall i, j :: 0 <= i < j < |s| ==> s[i].score >= s[j].score
  }

  /** Put x after every program scoring at least as high, in a list sorted descending. */
  function Insert(t: seq<ExecutableProgram>, x: ExecutableProgram): (r: seq<ExecutableProgram>)
    ensures |r| == |t| + 1
  {
    if t == [] then [x]
    else if t[0].score >= x.score then [t[0]] + Insert(t[1..], x)
    else [x] + t
  }

  /** The stable descending sort by score. */
  function SortByScore(s: seq<ExecutableProgram>): (r: seq<ExecutableProgram>)
    ensures |r| == |s|
  {
    if s == [] then [] else Insert(SortByScore(s[..|s| - 1]), s[|s| - 1])
  }

  /** The programs of s with score v, in the order of s. */
  function WithScore(s: seq<ExecutableProgram>, v: int): seq<ExecutableProgram> {
    if s == [] then []
    else (if s[0].score == v then [s[0]] else []) + WithScore(s[1..], v)
  }

  // ---------------------------------------------------------------------------
  // Insert

  lemma {:induction false} InsertElements(t: seq<ExecutableProgram>, x: ExecutableProgram)
    ensures multiset(Insert(t, x)) == multiset(t) + multiset{x}
    ensures forall y :: y in Insert(t, x) <==> y in t || y == x
  {
    if t != [] && t[0].score >= x.score {
      InsertElements(t[1..], x);
      assert t == [t[0]] + t[1..];
    }
  }

  lemma {:induction false} InsertSorted(t: seq<ExecutableProgram>, x: ExecutableProgram)
    requires SortedDesc(t)
    ensures SortedDesc(Insert(t, x))
  {
    if t != [] && t[0].score >= x.score {
      InsertSorted(t[1..], x);
      InsertElements(t[1..], x);
      var r := Insert(t[1..], x);
      forall j | 0 <= j < |r|
        ensures t[0].score >= r[j].score
      {
        assert r[j] in r;
        if r[j] != x {
          var k :| 0 <= k < |t[1..]| && t[1..][k] == r[j];
          assert t[k + 1] == r[j];
        }
      }
    }
  }

  lemma {:induction false} WithScoreAppend(a: seq<ExecutableProgram>, b: seq<ExecutableProgram>, v: int)
    ensures WithScore(a + b, v) == WithScore(a, v) + WithScore(b, v)
  {
    if a == [] {
      assert a + b == b;
    } else {
      assert (a + b)[1..] == a[1..] + b;
      WithScoreAppend(a[1..], b, v);
    }
  }

  lemma {:induction false} WithScoreNone(s: seq<ExecutableProgram>, v: int)
    requires forall i :: 0 <= i < |s| ==> s[i].score != v
    ensures WithScore(s, v) == []
  {
    if s != [] {
      WithScoreNone(s[1..], v);
    }
  }

  /** Inserting x adds it at the end of the programs with its score. */
  lemma {:induction false} InsertStable(t: seq<ExecutableProgram>, x: ExecutableProgram, v: int)
    requires SortedDesc(t)
    ensures WithScore(Insert(t, x), v) == WithScore(t, v) + (if x.score == v then [x] else [])
  {
    if t == [] {
    } else if t[0].score >= x.score {
      InsertStable(t[1..], x, v);
      WithScoreAppend([t[0]], Insert(t[1..], x), v);
      WithScoreAppend([t[0]], t[1..], v);
      assert [t[0]] + t[1..] == t;
    } else {
      WithScoreAppend([x], t, v);
      if x.score == v {
        WithScoreNone(t, v);
      }
    }
  }

  // ---------------------------------------------------------------------------
  // The sort

  /** The result is ordered by descending score and holds the same programs. */
  lemma {:induction false} SortByScoreSortedPermutation(s: seq<ExecutableProgram>)
    ensures SortedDesc(SortByScore(s))
    ensures multiset(SortByScore(s)) == multiset(s)
  {
    if s != [] {
      var init, last := s[..|s| - 1], s[|s| - 1];
      SortByScoreSortedPermutation(init);
      var t := SortByScore(init);
      assert SortByScore(s) == Insert(t, last);
      InsertSorted(t, last);
      InsertElements(t, last);
      assert multiset(s) == multiset(init) + multiset{last} by {
        assert s == init + [last];
      }
    }
  }

  /** Stability: for every score, the programs with that score appear in the
      result in the order the walk found them. */
  lemma {:induction false} SortByScoreStable(s: seq<ExecutableProgram>, v: int)
    ensures WithScore(SortByScore(s), v) == WithScore(s, v)
  {
    if s != [] {
      var init, last := s[..|s| - 1], s[|s| - 1];
      var t := SortByScore(init);
      var here := if last.score == v then [last] else [];
      calc {
        WithScore(SortByScore(s), v);
        WithScore(Insert(t, last), v);
        { SortByScoreSortedPermutation(init);
          InsertStable(t, last, v); }
        WithScore(t, v) + here;
        { SortByScoreStable(init, v); }
        WithScore(init, v) + here;
        { assert WithScore([last], v) == here by { assert [last][1..] == []; }
          WithScoreAppend(init, [last], v); }
        WithScore(init + [last], v);
        { assert s == init + [last]; }
        WithScore(s, v);
      }
    }
  }

  /** A list already in descending order is left as it is. */
  lemma {:induction false} SortByScoreKeepsSorted(s: seq<ExecutableProgram>)
    requires SortedDesc(s)
    ensures SortByScore(s) == s
  {
    if s != [] {
      var init, last := s[..|s| - 1], s[|s| - 1];
      SortByScoreKeepsSorted(init);
      InsertAtEnd(init, last);
      assert s == init + [last];
    }
  }

  lemma {:induction false} InsertAtEnd(t: seq<ExecutableProgram>, x: ExecutableProgram)
    requires forall i :: 0 <= i < |t| ==> t[i].score >= x.score
    ensures Insert(t, x) == t + [x]
  {
    if t != [] {
      InsertAtEnd(t[1..], x);
      assert [t[0]] + (t[1..] + [x]) == t + [x];
    }
  }

  // ---------------------------------------------------------------------------
  // Distinct files

  /** No two programs come from the same file. */
  predicate DistinctPaths(s: seq<ExecutableProgram>) {
    forall i, j :: 0 <= i < j < |s| ==> s[i].relativeParts != s[j].relativeParts
  }

  lemma {:induction false} InsertDistinct(t: seq<ExecutableProgram>, x: ExecutableProgram)
    requires DistinctPaths(t)
    requires forall y :: y in t ==> y.relativeParts != x.relativeParts
    ensures DistinctPaths(Insert(t, x))
  {
    if t != [] && t[0].score >= x.score {
      assert forall y :: y in t[1..] ==> y in t;
      InsertDistinct(t[1..], x);
      InsertElements(t[1..], x);
      var r := Insert(t[1..], x);
      forall j | 0 <= j < |r|
        ensures t[0].relativeParts != r[j].relativeParts
      {
        assert r[j] in r;
        if r[j] != x {
          var k :| 0 <= k < |t[1..]| && t[1..][k] == r[j];
          assert t[k + 1] == r[j];
        } else {
          assert t[0] in t;
        }
      }
    } else if t != [] {
      forall i, j | 0 <= i < j < |[x] + t|
        ensures ([x] + t)[i].relativeParts != ([x] + t)[j].relativeParts
      {
        if i == 0 {
          assert ([x] + t)[j] == t[j - 1] && t[j - 1] in t;
        }
      }
    }
  }

  /** Sorting never makes two programs share a file: the result is a
      permutation of distinct programs. */
  lemma {:induction false} SortByScoreKeepsDistinct(s: seq<ExecutableProgram>)
    requires DistinctPaths(s)
    ensures DistinctPaths(SortByScore(s))
    ensures forall p :: p in SortByScore(s) <==> p in s
  {
    if s != [] {
      var init, last := s[..|s| - 1], s[|s| - 1];
      assert DistinctPaths(init);
      SortByScoreKeepsDistinct(init);
      forall y | y in SortByScore(init)
        ensures y.relativeParts != last.relativeParts
      {
        var k :| 0 <= k < |init| && init[k] == y;
        assert s[k] == y;
      }
      InsertDistinct(SortByScore(init), last);
      InsertElements(SortByScore(init), last);
      assert s == init + [last];
    }
  }
}
