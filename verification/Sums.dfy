/** Sums over sequences that do not depend on the order of the elements. */
module Sums {

  function Sum<T>(s: seq<T>, f: T -> real): real {
    if s == [] then 0.0 else f(s[0]) + Sum(s[1..], f)
  }

  lemma {:induction false} SumOfConcat<T>(a: seq<T>, b: seq<T>, f: T -> real)
    ensures Sum(a + b, f) == Sum(a, f) + Sum(b, f)
  {
    if a == [] {
      assert a + b == b;
    } else {
      assert (a + b)[1..] == a[1..] + b;
      SumOfConcat(a[1..], b, f);
    }
  }

  /** Taking out one element. */
  lemma SumWithout<T>(s: seq<T>, k: nat, f: T -> real)
    requires k < |s|
    ensures Sum(s, f) == f(s[k]) + Sum(s[..k] + s[k + 1..], f)
    ensures multiset(s) == multiset{s[k]} + multiset(s[..k] + s[k + 1..])
  {
    hide Sum;
    var front, back := s[..k], s[k + 1..];
    SplitAt(s, k);
    SumOfConcat(front, [s[k]] + back, f);
    SumOfConcat(front, back, f);
    SumOfFirst(s[k], back, f);
  }

  lemma SplitAt<T>(s: seq<T>, k: nat)
    requires k < |s|
    ensures s == s[..k] + ([s[k]] + s[k + 1..])
    ensures multiset(s) == multiset{s[k]} + multiset(s[..k] + s[k + 1..])
  {
    assert s == s[..k] + ([s[k]] + s[k + 1..]);
  }

  lemma SumOfFirst<T>(x: T, back: seq<T>, f: T -> real)
    ensures Sum([x] + back, f) == f(x) + Sum(back, f)
  {
    assert ([x] + back)[1..] == back;
  }

  lemma Cancel<T>(x: T, a: multiset<T>, b: multiset<T>)
    requires multiset{x} + a == multiset{x} + b
    ensures a == b
  {
    assert a == multiset{x} + a - multiset{x};
  }

  lemma WithoutFirst<T>(a: seq<T>)
    requires a != []
    ensures a[..0] + a[1..] == a[1..]
  {
  }

  /** The place of the first element in a permutation, without which the rests are permutations. */
  lemma FirstElsewhere<T>(a: seq<T>, b: seq<T>) returns (k: nat)
    requires multiset(a) == multiset(b) && a != []
    ensures k < |b| && b[k] == a[0] && multiset(a[1..]) == multiset(b[..k] + b[k + 1..])
  {
    assert a[0] in multiset(b);
    k :| k < |b| && b[k] == a[0];
    SplitAt(b, k);
    SplitAt(a, 0);
    WithoutFirst(a);
    Cancel(a[0], multiset(a[1..]), multiset(b[..k] + b[k + 1..]));
  }

  lemma NothingElsewhere<T>(b: seq<T>)
    requires multiset(b) == multiset{}
    ensures b == []
  {
    assert |b| == |multiset(b)|;
  }

  /** A permutation keeps the sum. */
  lemma {:induction false} SumOfPermutation<T>(a: seq<T>, b: seq<T>, f: T -> real)
    requires multiset(a) == multiset(b)
    ensures Sum(a, f) == Sum(b, f)
    decreases |a|
  {
    if a == [] {
      NothingElsewhere(b);
    } else {
      var k := FirstElsewhere(a, b);
      SumWithout(b, k, f);
      SumOfPermutation(a[1..], b[..k] + b[k + 1..], f);
    }
  }

  lemma {:induction false} SumIsAtLeast<T>(s: seq<T>, f: T -> real, low: real)
    requires forall k :: 0 <= k < |s| ==> f(s[k]) >= low
    ensures Sum(s, f) >= |s| as real * low
  {
    if s == [] {
    } else {
      SumIsAtLeast(s[1..], f, low);
      assert |s| as real * low == low + (|s| - 1) as real * low;
    }
  }
}
