/** Weighted sums over sequences.  Every conservation argument of this project is
    "the weight of something, summed over where it can be, does not change". */
module Counting {

  function Sum<T>(s: seq<T>, w: T -> nat): nat
  {
    if s == [] then 0 else w(s[0]) + Sum(s[1..], w)
  }

  lemma {:induction false} SumAppend<T>(a: seq<T>, b: seq<T>, w: T -> nat)
    ensures Sum(a + b, w) == Sum(a, w) + Sum(b, w)
  {
    if a == [] {
      assert a + b == b;
    } else {
      assert (a + b)[1..] == a[1..] + b;
      SumAppend(a[1..], b, w);
    }
  }

  lemma SumOne<T>(x: T, w: T -> nat)
    ensures Sum([x], w) == w(x)
  {
    assert Sum([x][1..], w) == 0;
  }

  lemma SumSnoc<T>(s: seq<T>, x: T, w: T -> nat)
    ensures Sum(s + [x], w) == Sum(s, w) + w(x)
  {
    SumAppend(s, [x], w);
    SumOne(x, w);
  }

  /** Splitting out one position: the workhorse of update and removal. */
  lemma SumSplit<T>(s: seq<T>, i: nat, w: T -> nat)
    requires i < |s|
    ensures Sum(s, w) == Sum(s[..i], w) + w(s[i]) + Sum(s[i + 1..], w)
  {
    assert s == s[..i] + ([s[i]] + s[i + 1..]);
    SumAppend(s[..i], [s[i]] + s[i + 1..], w);
    SumAppend([s[i]], s[i + 1..], w);
    SumOne(s[i], w);
  }

  lemma SumUpdate<T>(s: seq<T>, i: nat, x: T, w: T -> nat)
    requires i < |s|
    ensures Sum(s[i := x], w) + w(s[i]) == Sum(s, w) + w(x)
  {
    SumSplit(s, i, w);
    SumSplit(s[i := x], i, w);
    assert s[i := x][..i] == s[..i] && s[i := x][i + 1..] == s[i + 1..];
  }

  lemma SumRemove<T>(s: seq<T>, i: nat, w: T -> nat)
    requires i < |s|
    ensures Sum(s[..i] + s[i + 1..], w) + w(s[i]) == Sum(s, w)
  {
    SumSplit(s, i, w);
    SumAppend(s[..i], s[i + 1..], w);
  }

  lemma SumAt<T>(s: seq<T>, i: nat, w: T -> nat)
    requires i < |s|
    ensures w(s[i]) <= Sum(s, w)
  {
    SumSplit(s, i, w);
  }

  lemma SumTwo<T>(s: seq<T>, i: nat, j: nat, w: T -> nat)
    requires i < j < |s|
    ensures w(s[i]) + w(s[j]) <= Sum(s, w)
  {
    SumSplit(s, j, w);
    SumAt(s[..j], i, w);
  }

  lemma {:induction false} SumPositive<T>(s: seq<T>, w: T -> nat) returns (i: nat)
    requires Sum(s, w) > 0
    ensures i < |s| && w(s[i]) > 0
  {
    if w(s[0]) > 0 {
      i := 0;
    } else {
      i := SumPositive(s[1..], w);
      i := i + 1;
    }
  }

  lemma {:induction false} SumZero<T>(s: seq<T>, w: T -> nat)
    requires forall i :: 0 <= i < |s| ==> w(s[i]) == 0
    ensures Sum(s, w) == 0
  {
    if s != [] {
      SumZero(s[1..], w);
    }
  }

  /** Two sequences of pointwise equal weight. */
  lemma {:induction false} SumPointwise<S, T>(a: seq<S>, v: S -> nat, b: seq<T>, w: T -> nat)
    requires |a| == |b|
    requires forall i :: 0 <= i < |a| ==> v(a[i]) == w(b[i])
    ensures Sum(a, v) == Sum(b, w)
  {
    if a != [] {
      SumPointwise(a[1..], v, b[1..], w);
    }
  }
}
