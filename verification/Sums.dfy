/** Integer sums over the elements of a sequence, and how they change with one element. */
module Sums {

  function Sum<T>(s: seq<T>, weight: T -> int): int {
    if s == [] then 0 else weight(s[0]) + Sum(s[1..], weight)
  }

  lemma {:induction false} SumConcat<T>(a: seq<T>, b: seq<T>, weight: T -> int)
    ensures Sum(a + b, weight) == Sum(a, weight) + Sum(b, weight)
  {
    if a == [] {
      assert a + b == b;
    } else {
      SumConcat(a[1..], b, weight);
      assert (a + b)[1..] == a[1..] + b;
    }
  }

  lemma SumAppend<T>(s: seq<T>, x: T, weight: T -> int)
    ensures Sum(s + [x], weight) == Sum(s, weight) + weight(x)
  {
    SumConcat(s, [x], weight);
  }

  lemma SumSplit<T>(s: seq<T>, i: nat, weight: T -> int)
    requires i < |s|
    ensures Sum(s, weight) == Sum(s[..i], weight) + weight(s[i]) + Sum(s[i + 1..], weight)
  {
    assert s == s[..i] + ([s[i]] + s[i + 1..]);
    SumConcat(s[..i], [s[i]] + s[i + 1..], weight);
    SumConcat([s[i]], s[i + 1..], weight);
  }

  lemma SumUpdate<T>(s: seq<T>, i: nat, x: T, weight: T -> int)
    requires i < |s|
    ensures Sum(s[i := x], weight) == Sum(s, weight) - weight(s[i]) + weight(x)
  {
    SumSplit(s, i, weight);
    SumSplit(s[i := x], i, weight);
    assert s[i := x][..i] == s[..i] && s[i := x][i + 1..] == s[i + 1..];
  }

  lemma SumRemove<T>(s: seq<T>, i: nat, weight: T -> int)
    requires i < |s|
    ensures Sum(s[..i] + s[i + 1..], weight) == Sum(s, weight) - weight(s[i])
  {
    SumSplit(s, i, weight);
    SumConcat(s[..i], s[i + 1..], weight);
  }

  lemma SumInsert<T>(s: seq<T>, i: nat, x: T, weight: T -> int)
    requires i <= |s|
    ensures Sum(s[..i] + [x] + s[i..], weight) == Sum(s, weight) + weight(x)
  {
    var t := s[..i] + [x] + s[i..];
    SumRemove(t, i, weight);
    assert t[..i] + t[i + 1..] == s;
  }

  lemma {:induction false} SumSame<T>(s: seq<T>, t: seq<T>, weight: T -> int)
    requires |s| == |t|
    requires forall i :: 0 <= i < |s| ==> weight(s[i]) == weight(t[i])
    ensures Sum(s, weight) == Sum(t, weight)
  {
    if s != [] {
      SumSame(s[1..], t[1..], weight);
    }
  }

  /** A positive sum has a positive term. */
  lemma {:induction false} PositiveTerm<T>(s: seq<T>, weight: T -> int) returns (i: nat)
    requires Sum(s, weight) > 0
    ensures i < |s| && weight(s[i]) > 0
  {
    if weight(s[0]) > 0 {
      i := 0;
    } else {
      var j := PositiveTerm(s[1..], weight);
      i := j + 1;
    }
  }

  /** Terms that are all zero sum to zero. */
  lemma {:induction false} ZeroSum<T>(s: seq<T>, weight: T -> int)
    requires forall i :: 0 <= i < |s| ==> weight(s[i]) == 0
    ensures Sum(s, weight) == 0
  {
    if s != [] {
      ZeroSum(s[1..], weight);
    }
  }

  /** Terms that are never negative have a sum at least as large as any one of them. */
  lemma {:induction false} TermBelowSum<T>(s: seq<T>, weight: T -> int, i: nat)
    requires i < |s|
    requires forall j :: 0 <= j < |s| ==> weight(s[j]) >= 0
    ensures Sum(s, weight) >= weight(s[i])
  {
    SumSplit(s, i, weight);
    NonNegativeSum(s[..i], weight);
    NonNegativeSum(s[i + 1..], weight);
  }

  lemma {:induction false} NonNegativeSum<T>(s: seq<T>, weight: T -> int)
    requires forall j :: 0 <= j < |s| ==> weight(s[j]) >= 0
    ensures Sum(s, weight) >= 0
  {
    if s != [] {
      NonNegativeSum(s[1..], weight);
    }
  }
}
