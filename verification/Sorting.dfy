/** The sorting of the standard library, and what it is used for here. */
module Sorting {
  ghost predicate Orders<T(!new)>(le: (T, T) -> bool) {
    && (forall a, b :: le(a, b) || le(b, a))
    && (forall a, b, c :: le(a, b) && le(b, c) ==> le(a, c))
  }

  ghost predicate Sorted<T>(s: seq<T>, le: (T, T) -> bool) {
    forall i, j | 0 <= i < j < |s| :: le(s[i], s[j])
  }

  method Sort<T(!new)>(s: seq<T>, le: (T, T) -> bool) returns (r: seq<T>)
    requires Orders(le)
    ensures Sorted(r, le) && multiset(r) == multiset(s)
  {
    r := [];
    for n := 0 to |s|
      invariant Sorted(r, le) && multiset(r) == multiset(s[..n])
    {
      var k := |r|;
      while k > 0 && !le(r[k - 1], s[n])
        invariant 0 <= k <= |r|
        invariant forall j | k <= j < |r| :: !le(r[j], s[n])
      {
        k := k - 1;
      }
      Inserted(r, s[n], k, le);
      r := r[..k] + [s[n]] + r[k..];
      assert s[..n + 1] == s[..n] + [s[n]];
    }
    assert s[..|s|] == s;
  }

  lemma Inserted<T(!new)>(r: seq<T>, x: T, k: nat, le: (T, T) -> bool)
    requires Orders(le) && Sorted(r, le) && k <= |r|
    requires k > 0 ==> le(r[k - 1], x)
    requires forall j | k <= j < |r| :: !le(r[j], x)
    ensures Sorted(r[..k] + [x] + r[k..], le)
    ensures multiset(r[..k] + [x] + r[k..]) == multiset(r) + multiset{x}
  {
    var more := r[..k] + [x] + r[k..];
    InsertedAt(r, x, k);
    forall i, j | 0 <= i < j < |more| ensures le(more[i], more[j]) {
      if j == k {
        assert i == k - 1 || le(r[i], r[k - 1]);
      } else if i == k {
        assert !le(r[j - 1], x);
      }
    }
  }

  lemma InsertedAt<T>(r: seq<T>, x: T, k: nat)
    requires k <= |r|
    ensures var more := r[..k] + [x] + r[k..];
      forall i | 0 <= i < |more| :: more[i] == if i < k then r[i] else if i == k then x else r[i - 1]
    ensures multiset(r[..k] + [x] + r[k..]) == multiset(r) + multiset{x}
  {
    assert r == r[..k] + r[k..];
  }

  lemma SameMembers<T>(a: seq<T>, b: seq<T>)
    requires multiset(a) == multiset(b)
    ensures forall x :: x in a <==> x in b
  {
    forall x ensures x in a <==> x in b {
      assert x in multiset(a) <==> x in multiset(b);
    }
  }

  lemma TwiceIsTwo<T>(s: seq<T>, i: nat, j: nat)
    requires i < j < |s| && s[i] == s[j]
    ensures multiset(s)[s[i]] >= 2
  {
    assert s == s[..j] + [s[j]] + s[j + 1..];
    assert s[i] in s[..j];
  }

  /** Reordering distinct elements leaves them distinct. */
  lemma StillDistinct<T>(a: seq<T>, b: seq<T>)
    requires multiset(a) == multiset(b) && forall i, j | 0 <= i < j < |a| :: a[i] != a[j]
    ensures forall i, j | 0 <= i < j < |b| :: b[i] != b[j]
  {
    forall i, j | 0 <= i < j < |b| ensures b[i] != b[j] {
      if b[i] == b[j] {
        TwiceIsTwo(b, i, j);
        OnceEach(a, b[i]);
      }
    }
  }

  lemma {:induction false} OnceEach<T>(a: seq<T>, x: T)
    requires forall i, j | 0 <= i < j < |a| :: a[i] != a[j]
    ensures multiset(a)[x] <= 1
  {
    if a != [] {
      var front, last := a[..|a| - 1], a[|a| - 1];
      assert a == front + [last];
      OnceEach(front, x);
      if last == x { assert x !in front; }
    }
  }
}
