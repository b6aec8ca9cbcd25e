/** Sequence helpers of the standard library that several files use. */
module Text {
  import opened Wrappers

  /** `split_once(c)`: the text before and after the first `c`. */
  function SplitOnce<T(==)>(s: seq<T>, c: T): (r: Option<(seq<T>, seq<T>)>)
    ensures r.Some? ==> s == r.value.0 + [c] + r.value.1 && c !in r.value.0
    ensures r.None? <==> c !in s
  {
    if s == [] then None
    else if s[0] == c then Some(([], s[1..]))
    else match SplitOnce(s[1..], c)
      case None => None
      case Some((a, b)) => Some(([s[0]] + a, b))
  }

  /** The first separator is where `SplitOnce` cuts, whatever follows it. */
  lemma {:induction false} SplitsAtFirst<T>(a: seq<T>, c: T, b: seq<T>)
    requires c !in a
    ensures SplitOnce(a + [c] + b, c) == Some((a, b))
  {
    var s := a + [c] + b;
    if a == [] {
      assert s[1..] == b;
    } else {
      assert s[1..] == a[1..] + [c] + b;
      assert forall x | x in a[1..] :: x in a;
      assert a[0] in a;
      SplitsAtFirst(a[1..], c, b);
      assert a == [a[0]] + a[1..];
    }
  }

  /** `split(c)`: the pieces between all separators, at least one. */
  function Split<T(==)>(s: seq<T>, c: T): (pieces: seq<seq<T>>)
    ensures |pieces| >= 1
  {
    if s == [] then [[]]
    else
      var rest := Split(s[1..], c);
      if s[0] == c then [[]] + rest else [[s[0]] + rest[0]] + rest[1..]
  }

  lemma {:induction false} OnePiece<T>(b: seq<T>, c: T)
    requires c !in b
    ensures Split(b, c) == [b]
  {
    if b != [] {
      assert b[0] in b && forall x | x in b[1..] :: x in b;
      OnePiece(b[1..], c);
      assert [b[0]] + b[1..] == b;
    }
  }

  /** A piece after the last separator is the last piece. */
  lemma {:induction false} SplitLast<T>(a: seq<T>, c: T, b: seq<T>)
    requires c !in b
    ensures Split(a + [c] + b, c) == Split(a, c) + [b]
  {
    var s := a + [c] + b;
    if a == [] {
      OnePiece(b, c);
      assert s[1..] == b;
    } else {
      var t := a[1..] + [c] + b;
      assert s[1..] == t && s[0] == a[0];
      SplitLast(a[1..], c, b);
      var front, whole := Split(a[1..], c), Split(t, c);
      assert Split(a, c) == if a[0] == c then [[]] + front else [[a[0]] + front[0]] + front[1..];
      assert Split(s, c) == if a[0] == c then [[]] + whole else [[a[0]] + whole[0]] + whole[1..];
      hide *;
      assert whole[0] == front[0] && whole[1..] == front[1..] + [b];
    }
  }
}
