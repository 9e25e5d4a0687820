/**
 * Sequence vocabulary shared by every component: Python's stable descending
 * sort, the key order of a dict, and loops seen as folds from the right end.
 */
module Sequences {

  datatype Option<+T> = None | Some(value: T)

  function OrElse<T>(a: Option<T>, b: Option<T>): Option<T> {
    if a.Some? then a else b
  }

  /** All elements but the last: the part of a list that a loop has already visited. */
  function Init<T>(s: seq<T>): (r: seq<T>)
    requires s != []
    ensures |r| == |s| - 1 && s == r + [s[|s| - 1]]
  {
    s[..|s| - 1]
  }

  function Last<T>(s: seq<T>): T
    requires s != []
  {
    s[|s| - 1]
  }

  lemma InitOfPrefix<T>(s: seq<T>, i: nat)
    requires i < |s|
    ensures Init(s[..i + 1]) == s[..i] && Last(s[..i + 1]) == s[i]
  {
  }

  lemma InitOfConcat<T>(a: seq<T>, b: seq<T>)
    requires b != []
    ensures Init(a + b) == a + Init(b) && Last(a + b) == Last(b)
  {
  }

  lemma AppendAssociates<T>(a: seq<T>, b: seq<T>, c: seq<T>)
    ensures a + (b + c) == a + b + c
    ensures a + [] == a
  {
  }

  ghost predicate NoDuplicates<T>(s: seq<T>) {
    forall i, j :: 0 <= i < j < |s| ==> s[i] != s[j]
  }

  lemma NoDuplicatesSnoc<T>(s: seq<T>, x: T)
    ensures NoDuplicates(s + [x]) <==> NoDuplicates(s) && x !in s
  {
    if NoDuplicates(s + [x]) {
      forall i, j | 0 <= i < j < |s| ensures s[i] != s[j] {
        assert (s + [x])[i] != (s + [x])[j];
      }
      forall i | 0 <= i < |s| ensures s[i] != x {
        assert (s + [x])[i] != (s + [x])[|s|];
      }
    }
  }

  /** The distinct elements of s in order of first occurrence: the key order of a Python dict. */
  function Distinct<T(==)>(s: seq<T>): seq<T> {
    if s == [] then []
    else
      var r := Distinct(Init(s));
      if Last(s) in r then r else r + [Last(s)]
  }

  lemma DistinctSnoc<T>(s: seq<T>, x: T)
    ensures Distinct(s + [x]) == if x in Distinct(s) then Distinct(s) else Distinct(s) + [x]
  {
    assert Init(s + [x]) == s;
  }

  lemma {:induction false} DistinctElements<T(!new)>(s: seq<T>)
    ensures NoDuplicates(Distinct(s))
    ensures forall x :: x in Distinct(s) <==> x in s
  {
    if s != [] {
      DistinctElements(Init(s));
      assert forall x :: x in s <==> x in Init(s) || x == Last(s);
    }
  }

  /** Key order is the order of first occurrence: what comes first in it has an occurrence before any of the other. */
  lemma {:induction false} DistinctOrder<T(!new)>(s: seq<T>, i: nat, j: nat) returns (k: nat)
    requires i < j < |Distinct(s)|
    ensures k < |s| && s[k] == Distinct(s)[i] && Distinct(s)[j] !in s[..k + 1]
  {
    var r := Distinct(Init(s));
    if j < |r| {
      k := DistinctOrder(Init(s), i, j);
    } else {
      DistinctElements(Init(s));
      assert r[i] in r;
      k :| 0 <= k < |Init(s)| && Init(s)[k] == r[i];
    }
    assert s[..k + 1] == Init(s)[..k + 1];
  }

  // ---------------------------------------------------------------------
  // list.sort(key=lambda f: -score(f))
  // ---------------------------------------------------------------------

  ghost predicate Descending<T>(s: seq<T>, score: T -> real) {
    forall i, j :: 0 <= i < j < |s| ==> score(s[i]) >= score(s[j])
  }

  /** The elements whose score is k, in order. */
  ghost function WithScore<T>(s: seq<T>, score: T -> real, k: real): seq<T> {
    if s == [] then []
    else if score(Last(s)) == k then WithScore(Init(s), score, k) + [Last(s)]
    else WithScore(Init(s), score, k)
  }

  /** out is in descending order, and elements of equal score keep the order they have in s. */
  ghost predicate IsStableSort<T>(s: seq<T>, out: seq<T>, score: T -> real) {
    && Descending(out, score)
    && forall k :: WithScore(out, score, k) == WithScore(s, score, k)
  }

  function Insert<T>(s: seq<T>, x: T, score: T -> real): seq<T> {
    if s == [] || score(Last(s)) >= score(x) then s + [x]
    else Insert(Init(s), x, score) + [Last(s)]
  }

  function StableSort<T>(s: seq<T>, score: T -> real): seq<T> {
    if s == [] then [] else Insert(StableSort(Init(s), score), Last(s), score)
  }

  lemma WithScoreSnoc<T>(s: seq<T>, x: T, score: T -> real, k: real)
    ensures WithScore(s + [x], score, k) ==
            if score(x) == k then WithScore(s, score, k) + [x] else WithScore(s, score, k)
  {
    assert Init(s + [x]) == s;
  }

  lemma {:induction false} InsertBucket<T>(s: seq<T>, x: T, score: T -> real, k: real)
    ensures WithScore(Insert(s, x, score), score, k) ==
            if score(x) == k then WithScore(s, score, k) + [x] else WithScore(s, score, k)
  {
    if s == [] || score(Last(s)) >= score(x) {
      WithScoreSnoc(s, x, score, k);
    } else {
      InsertBucket(Init(s), x, score, k);
      WithScoreSnoc(Insert(Init(s), x, score), Last(s), score, k);
    }
  }

  lemma {:induction false} InsertMultiset<T>(s: seq<T>, x: T, score: T -> real)
    ensures multiset(Insert(s, x, score)) == multiset(s) + multiset{x}
  {
    if s != [] && score(Last(s)) < score(x) {
      InsertMultiset(Init(s), x, score);
      assert multiset(s) == multiset(Init(s)) + multiset{Last(s)};
    }
  }

  lemma DescendingSnoc<T>(s: seq<T>, x: T, score: T -> real)
    requires Descending(s, score) && forall i :: 0 <= i < |s| ==> score(s[i]) >= score(x)
    ensures Descending(s + [x], score)
  {
  }

  lemma LastIsLeast<T>(s: seq<T>, x: T, score: T -> real)
    requires Descending(s, score) && s != [] && score(Last(s)) >= score(x)
    ensures forall i :: 0 <= i < |s| ==> score(s[i]) >= score(x)
  {
  }

  lemma {:induction false} InsertDescending<T>(s: seq<T>, x: T, score: T -> real)
    requires Descending(s, score)
    ensures Descending(Insert(s, x, score), score)
  {
    hide Descending;
    if s == [] {
      assert s + [x] == [x];
      NothingDescends(x, score);
    } else if score(Last(s)) >= score(x) {
      LastIsLeast(s, x, score);
      DescendingSnoc(s, x, score);
    } else {
      var front, t := Init(s), Insert(Init(s), x, score);
      DescendingInit(s, score);
      InsertDescending(front, x, score);
      InsertMultiset(front, x, score);
      forall i | 0 <= i < |t| ensures score(t[i]) >= score(Last(s)) {
        assert t[i] in multiset(t);
        assert t[i] == x || t[i] in front;
      }
      DescendingSnoc(t, Last(s), score);
    }
  }

  lemma NothingDescends<T>(x: T, score: T -> real)
    ensures Descending([x], score)
  {
  }

  lemma DescendingInit<T>(s: seq<T>, score: T -> real)
    requires Descending(s, score) && s != []
    ensures Descending(Init(s), score)
    ensures forall y :: y in Init(s) ==> score(y) >= score(Last(s))
  {
  }

  lemma {:induction false} StableSortIsStable<T>(s: seq<T>, score: T -> real)
    ensures IsStableSort(s, StableSort(s, score), score)
  {
    if s != [] {
      StableSortIsStable(Init(s), score);
      InsertDescending(StableSort(Init(s), score), Last(s), score);
      forall k ensures WithScore(StableSort(s, score), score, k) == WithScore(s, score, k) {
        InsertBucket(StableSort(Init(s), score), Last(s), score, k);
      }
    }
  }

  lemma {:induction false} StableSortPermutes<T>(s: seq<T>, score: T -> real)
    ensures multiset(StableSort(s, score)) == multiset(s)
  {
    if s != [] {
      StableSortPermutes(Init(s), score);
      InsertMultiset(StableSort(Init(s), score), Last(s), score);
      assert multiset(s) == multiset(Init(s)) + multiset{Last(s)};
    }
  }

  lemma {:induction false} WithScoreCount<T>(s: seq<T>, score: T -> real, x: T)
    ensures multiset(s)[x] == multiset(WithScore(s, score, score(x)))[x]
  {
    if s != [] {
      WithScoreCount(Init(s), score, x);
      assert multiset(s) == multiset(Init(s)) + multiset{Last(s)};
      var w := WithScore(Init(s), score, score(x));
      if score(Last(s)) == score(x) {
        assert multiset(w + [Last(s)]) == multiset(w) + multiset{Last(s)};
      }
    }
  }

  /** Whatever a stable sort is, it is a permutation. */
  lemma StableSortKeepsElements<T>(s: seq<T>, out: seq<T>, score: T -> real)
    requires IsStableSort(s, out, score)
    ensures multiset(out) == multiset(s)
  {
    forall x ensures multiset(out)[x] == multiset(s)[x] {
      WithScoreCount(s, score, x);
      WithScoreCount(out, score, x);
    }
  }

  lemma SameMembers<T(!new)>(a: seq<T>, b: seq<T>)
    requires multiset(a) == multiset(b)
    ensures forall x :: x in a <==> x in b
  {
    forall x ensures x in a <==> x in b {
      assert x in a <==> x in multiset(a);
      assert x in b <==> x in multiset(b);
    }
  }

  ghost predicate DistinctTags<T, U>(s: seq<T>, tag: T -> U) {
    forall i, j :: 0 <= i < j < |s| ==> tag(s[i]) != tag(s[j])
  }

  lemma {:induction false} TwoIndices<T>(s: seq<T>, x: T) returns (i: nat, j: nat)
    requires multiset(s)[x] >= 2
    ensures i < j < |s| && s[i] == s[j] == x
  {
    assert s != [];
    assert multiset(s) == multiset(Init(s)) + multiset{Last(s)};
    if Last(s) == x {
      assert x in multiset(Init(s));
      i :| 0 <= i < |Init(s)| && Init(s)[i] == x;
      j := |s| - 1;
    } else {
      i, j := TwoIndices(Init(s), x);
    }
  }

  /** A permutation of a sequence without equal tags has none either. */
  lemma PermutationKeepsDistinctTags<T, U>(s: seq<T>, out: seq<T>, tag: T -> U)
    requires multiset(out) == multiset(s) && DistinctTags(s, tag)
    ensures DistinctTags(out, tag)
  {
    forall i, j | 0 <= i < j < |out| ensures tag(out[i]) != tag(out[j]) {
      var x, y := out[i], out[j];
      assert x in multiset(out) && y in multiset(out);
      assert x in s && y in s;
      if x == y {
        assert out == out[..j] + [y] + out[j + 1..];
        assert out[..j][i] == x;
        var a, b := TwoIndices(s, x);
      }
    }
  }

  /** A stable descending sort has exactly one possible result, so the algorithm does not matter. */
  lemma StableSortUnique<T>(s: seq<T>, a: seq<T>, b: seq<T>, score: T -> real)
    requires IsStableSort(s, a, score) && IsStableSort(s, b, score)
    ensures a == b
  {
    SameBucketsSameSequence(a, b, score);
  }

  lemma InSomeBucket<T>(a: seq<T>, b: seq<T>, score: T -> real, x: T)
    requires forall k :: WithScore(a, score, k) == WithScore(b, score, k)
    requires x in a
    ensures x in b
  {
    WithScoreCount(a, score, x);
    WithScoreCount(b, score, x);
    assert x in multiset(a);
    assert x in multiset(b);
  }

  lemma SameLast<T>(a: seq<T>, b: seq<T>, score: T -> real)
    requires Descending(a, score) && Descending(b, score) && a != []
    requires forall k :: WithScore(a, score, k) == WithScore(b, score, k)
    ensures b != [] && Last(a) == Last(b)
  {
    InSomeBucket(a, b, score, Last(a));
    InSomeBucket(b, a, score, Last(b));
    var k := score(Last(a));
    assert score(Last(b)) == k;
    assert Last(WithScore(a, score, k)) == Last(a);
    assert Last(WithScore(b, score, k)) == Last(b);
  }

  lemma SameInitBucket<T>(a: seq<T>, b: seq<T>, score: T -> real, k: real)
    requires a != [] && b != [] && Last(a) == Last(b)
    requires WithScore(a, score, k) == WithScore(b, score, k)
    ensures WithScore(Init(a), score, k) == WithScore(Init(b), score, k)
  {
    var u, v, x := WithScore(Init(a), score, k), WithScore(Init(b), score, k), Last(a);
    if score(x) == k {
      assert u == (u + [x])[..|u|] && v == (v + [x])[..|v|];
    }
  }

  lemma {:induction false} SameBucketsSameSequence<T>(a: seq<T>, b: seq<T>, score: T -> real)
    requires Descending(a, score) && Descending(b, score)
    requires forall k :: WithScore(a, score, k) == WithScore(b, score, k)
    ensures a == b
    decreases |a|
  {
    if a != [] {
      SameLast(a, b, score);
      forall k ensures WithScore(Init(a), score, k) == WithScore(Init(b), score, k) {
        SameInitBucket(a, b, score, k);
      }
      SameBucketsSameSequence(Init(a), Init(b), score);
    } else if b != [] {
      InSomeBucket(b, a, score, Last(b));
    }
  }
}
