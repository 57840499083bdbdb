/** Sizes of sets, and what mapping a function over a sequence does to the multiset of its elements. */
module Bags {
  lemma {:induction false} SubsetSize<T>(a: set<T>, b: set<T>)
    requires a <= b
    ensures |a| <= |b|
    decreases |a|
  {
    if a != {} {
      var x :| x in a;
      SubsetSize(a - {x}, b - {x});
    }
  }

  function Map<T, U>(f: T -> U, s: seq<T>): (r: seq<U>)
    ensures |r| == |s|
    ensures forall i :: 0 <= i < |s| ==> r[i] == f(s[i])
  {
    if s == [] then [] else [f(s[0])] + Map(f, s[1..])
  }

  function Without<T>(s: seq<T>, i: nat): seq<T>
    requires i < |s|
  {
    s[..i] + s[i + 1..]
  }

  lemma WithoutRemovesOne<T>(s: seq<T>, i: nat)
    requires i < |s|
    ensures multiset(Without(s, i)) == multiset(s) - multiset{s[i]}
    ensures multiset(s) == multiset(Without(s, i)) + multiset{s[i]}
  {
    assert s == s[..i] + [s[i]] + s[i + 1..];
  }

  lemma {:induction false} MapWithout<T, U>(f: T -> U, s: seq<T>, i: nat)
    requires i < |s|
    ensures multiset(Map(f, Without(s, i))) == multiset(Map(f, s)) - multiset{f(s[i])}
    ensures multiset(Map(f, s)) == multiset(Map(f, Without(s, i))) + multiset{f(s[i])}
  {
    var t, u := Map(f, Without(s, i)), Without(Map(f, s), i);
    forall j | 0 <= j < |t| ensures t[j] == u[j] {
      assert Without(s, i)[j] == if j < i then s[j] else s[j + 1];
    }
    assert t == u;
    WithoutRemovesOne(Map(f, s), i);
  }

  lemma {:induction false} MapPermutes<T, U>(f: T -> U, a: seq<T>, b: seq<T>)
    requires multiset(a) == multiset(b)
    ensures multiset(Map(f, a)) == multiset(Map(f, b))
  {
    if a == [] {
      assert |multiset(b)| == 0;
    } else {
      assert a[0] in multiset(b);
      var i :| 0 <= i < |b| && b[i] == a[0];
      WithoutRemovesOne(b, i);
      WithoutRemovesOne(a, 0);
      MapPermutes(f, Without(a, 0), Without(b, i));
      MapWithout(f, a, 0);
      MapWithout(f, b, i);
    }
  }

  ghost predicate InjectiveOn<T(!new), U>(f: T -> U, a: seq<T>, b: seq<T>) {
    forall x, y :: (x in a || x in b) && (y in a || y in b) && f(x) == f(y) ==> x == y
  }

  lemma WithoutIsPart<T>(s: seq<T>, i: nat)
    requires i < |s|
    ensures forall x :: x in Without(s, i) ==> x in s
  {}

  /** An element of `b` with the same image as the first of `a`. */
  lemma Partner<T(!new), U>(f: T -> U, a: seq<T>, b: seq<T>) returns (i: nat)
    requires a != [] && InjectiveOn(f, a, b) && multiset(Map(f, a)) == multiset(Map(f, b))
    ensures i < |b| && b[i] == a[0]
  {
    assert Map(f, a)[0] in multiset(Map(f, b));
    i :| 0 <= i < |Map(f, b)| && Map(f, b)[i] == f(a[0]);
    assert a[0] in a && b[i] in b;
  }

  lemma {:induction false} MapReflects<T(!new), U>(f: T -> U, a: seq<T>, b: seq<T>)
    requires InjectiveOn(f, a, b)
    requires multiset(Map(f, a)) == multiset(Map(f, b))
    ensures multiset(a) == multiset(b)
    decreases |a|
  {
    if a == [] {
      assert |multiset(Map(f, b))| == 0;
    } else {
      var i := Partner(f, a, b);
      var a', b' := Without(a, 0), Without(b, i);
      MapWithout(f, a, 0);
      MapWithout(f, b, i);
      WithoutIsPart(a, 0);
      WithoutIsPart(b, i);
      MapReflects(f, a', b');
      WithoutRemovesOne(b, i);
      WithoutRemovesOne(a, 0);
    }
  }
}
