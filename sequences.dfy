/** Facts about sequences of rows that the table model relies on. */
module Sequences {

  /** The elements of `s` that satisfy `keep`, in their original order. */
  function Filter<T(!new)>(s: seq<T>, keep: T -> bool): (r: seq<T>)
    ensures |r| <= |s|
    ensures forall x :: x in r <==> x in s && keep(x)
  {
    if s == [] then []
    else if keep(s[0]) then [s[0]] + Filter(s[1..], keep)
    else Filter(s[1..], keep)
  }

  /** Filtering with a condition every element meets changes nothing. */
  lemma {:induction false} FilterKeepsAll<T(!new)>(s: seq<T>, keep: T -> bool)
    requires forall x :: x in s ==> keep(x)
    ensures Filter(s, keep) == s
  {
    if s != [] {
      assert forall x :: x in s[1..] ==> x in s;
      FilterKeepsAll(s[1..], keep);
    }
  }

  /** Every two rows of `s`, taken in table order, are related by `ok`. */
  predicate Pairwise<T>(s: seq<T>, ok: (T, T) -> bool)
  {
    forall i, j :: 0 <= i < j < |s| ==> ok(s[i], s[j])
  }

  /** Appending a row that is `ok` after every existing row keeps `Pairwise`. */
  lemma PairwiseAppend<T>(s: seq<T>, x: T, ok: (T, T) -> bool)
    requires Pairwise(s, ok)
    requires forall y :: y in s ==> ok(y, x)
    ensures Pairwise(s + [x], ok)
  {
  }

  /** Deleting rows keeps every pairwise relation the remaining rows had. */
  lemma {:induction false} FilterPairwise<T(!new)>(s: seq<T>, keep: T -> bool, ok: (T, T) -> bool)
    requires Pairwise(s, ok)
    ensures Pairwise(Filter(s, keep), ok)
  {
    if s != [] {
      var tail := s[1..];
      forall i, j | 0 <= i < j < |tail| ensures ok(tail[i], tail[j]) {
        assert tail[i] == s[i + 1] && tail[j] == s[j + 1];
      }
      FilterPairwise(tail, keep, ok);
      if keep(s[0]) {
        var rest := Filter(tail, keep);
        var r := [s[0]] + rest;
        forall i, j | 0 <= i < j < |r| ensures ok(r[i], r[j]) {
          if i == 0 {
            assert r[j] == rest[j - 1] && rest[j - 1] in rest;
            var k :| 0 <= k < |tail| && tail[k] == rest[j - 1];
            assert ok(s[0], s[k + 1]);
          } else {
            assert r[i] == rest[i - 1] && r[j] == rest[j - 1];
          }
        }
      }
    }
  }

  /** A sequence without repetitions drawn from `allowed` is no longer than `allowed` is large. */
  lemma {:induction false} DistinctWithin<T>(s: seq<T>, allowed: set<T>)
    requires forall i, j :: 0 <= i < j < |s| ==> s[i] != s[j]
    requires forall i :: 0 <= i < |s| ==> s[i] in allowed
    ensures |s| <= |allowed|
  {
    if s != [] {
      var rest := allowed - {s[0]};
      var tail := s[1..];
      forall i | 0 <= i < |tail| ensures tail[i] in rest {
        assert tail[i] == s[i + 1] && s[0] != s[i + 1];
      }
      forall i, j | 0 <= i < j < |tail| ensures tail[i] != tail[j] {
        assert tail[i] == s[i + 1] && tail[j] == s[j + 1];
      }
      DistinctWithin(tail, rest);
      assert allowed == rest + {s[0]};
    }
  }

  /** Filtering with a condition no element meets leaves nothing. */
  lemma {:induction false} FilterKeepsNone<T(!new)>(s: seq<T>, keep: T -> bool)
    requires forall x :: x in s ==> !keep(x)
    ensures Filter(s, keep) == []
  {
    if s != [] {
      assert forall x :: x in s[1..] ==> x in s;
      FilterKeepsNone(s[1..], keep);
    }
  }

  /** When no two matching rows may stand in relation `ok`, a `Pairwise` table holds at most one match. */
  lemma {:induction false} AtMostOneMatch<T(!new)>(s: seq<T>, ok: (T, T) -> bool, matches: T -> bool)
    requires Pairwise(s, ok)
    requires forall a, b :: matches(a) && matches(b) ==> !ok(a, b)
    ensures |Filter(s, matches)| <= 1
  {
    if s != [] {
      var tail := s[1..];
      forall i, j | 0 <= i < j < |tail| ensures ok(tail[i], tail[j]) {
        assert tail[i] == s[i + 1] && tail[j] == s[j + 1];
      }
      AtMostOneMatch(tail, ok, matches);
      if matches(s[0]) {
        forall x | x in tail ensures !matches(x) {
          var k :| 0 <= k < |tail| && tail[k] == x;
          assert ok(s[0], s[k + 1]);
        }
        FilterKeepsNone(tail, matches);
      }
    }
  }
}
