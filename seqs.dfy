/** Sequence vocabulary for Swift's `filter`, `flatMap`, `contains` and `Set(_).count`. */
module Seqs {

  /** `a` is obtained from `b` by deleting elements; the order of what is kept is unchanged. */
  predicate Subseq<T(==,!new)>(a: seq<T>, b: seq<T>)
    decreases |b|
  {
    if a == [] then true
    else if b == [] then false
    else if a[0] == b[0] then Subseq(a[1..], b[1..])
    else Subseq(a, b[1..])
  }

  lemma {:induction false} SubseqReflexive<T(!new)>(s: seq<T>)
    ensures Subseq(s, s)
  {
    if s != [] {
      SubseqReflexive(s[1..]);
    }
  }

  /** `r` keeps, in order, exactly the occurrences of `s` that satisfy `p`. */
  ghost predicate KeepsExactly<T(!new)>(r: seq<T>, s: seq<T>, p: T -> bool) {
    && Subseq(r, s)
    && forall x :: multiset(r)[x] == if p(x) then multiset(s)[x] else 0
  }

  /** Swift's `s.filter(p)`. */
  function Filter<T(==,!new)>(s: seq<T>, p: T -> bool): (r: seq<T>)
    ensures Subseq(r, s)
    ensures forall x :: x in r <==> x in s && p(x)
    ensures forall x :: multiset(r)[x] == if p(x) then multiset(s)[x] else 0
  {
    if s == [] then []
    else
      assert s == [s[0]] + s[1..];
      if p(s[0]) then [s[0]] + Filter(s[1..], p) else Filter(s[1..], p)
  }

  lemma {:induction false} SubseqMultiset<T(!new)>(a: seq<T>, b: seq<T>)
    requires Subseq(a, b)
    ensures multiset(a) <= multiset(b)
    decreases |b|
  {
    if a != [] {
      assert b == [b[0]] + b[1..];
      if a[0] == b[0] {
        assert a == [a[0]] + a[1..];
        SubseqMultiset(a[1..], b[1..]);
      } else {
        SubseqMultiset(a, b[1..]);
      }
    }
  }

  /** The contract of `Filter` determines its result: nothing else keeps exactly the same occurrences. */
  lemma {:induction false} FilterIsUnique<T(!new)>(r: seq<T>, s: seq<T>, p: T -> bool)
    requires KeepsExactly(r, s, p)
    ensures r == Filter(s, p)
    decreases |s|
  {
    if s == [] {
    } else {
      var a, t := s[0], s[1..];
      assert s == [a] + t;
      if p(a) {
        assert multiset(r)[a] == multiset(s)[a] > 0;
        assert r != [];
        if r[0] != a {
          assert Subseq(r, t);
          SubseqMultiset(r, t);
          assert false;
        }
        assert r == [a] + r[1..];
        assert Subseq(r[1..], t);
        forall x ensures multiset(r[1..])[x] == if p(x) then multiset(t)[x] else 0 {
          assert multiset(r)[x] == multiset(r[1..])[x] + (if x == a then 1 else 0);
          assert multiset(s)[x] == multiset(t)[x] + (if x == a then 1 else 0);
        }
        FilterIsUnique(r[1..], t, p);
      } else {
        if r != [] && r[0] == a {
          assert false;
        }
        assert Subseq(r, t);
        forall x ensures multiset(r)[x] == if p(x) then multiset(t)[x] else 0 {
          assert multiset(s)[x] == multiset(t)[x] + (if x == a then 1 else 0);
        }
        FilterIsUnique(r, t, p);
      }
    }
  }

  /** Swift's `s.flatMap(f)` for a function returning an array. */
  function FlatMap<T(!new), U(==,!new)>(s: seq<T>, f: T -> seq<U>): (r: seq<U>)
    ensures forall y :: y in r <==> exists x :: x in s && y in f(x)
  {
    if s == [] then []
    else
      assert forall x :: x in s <==> x == s[0] || x in s[1..];
      f(s[0]) + FlatMap(s[1..], f)
  }

  /** `flatMap` concatenates the images of the elements in order. */
  lemma {:induction false} FlatMapConcatenates<T(!new), U(!new)>(a: seq<T>, b: seq<T>, f: T -> seq<U>)
    ensures FlatMap([], f) == []
    ensures |a| == 1 ==> FlatMap(a, f) == f(a[0])
    ensures FlatMap(a + b, f) == FlatMap(a, f) + FlatMap(b, f)
  {
    if a != [] {
      assert (a + b)[1..] == a[1..] + b;
      FlatMapConcatenates(a[1..], b, f);
    } else {
      assert a + b == b;
    }
    if |a| == 1 {
      assert a[1..] == [];
    }
  }

  /** Some element occurs twice. */
  ghost predicate HasRepeat<T(!new)>(s: seq<T>) {
    exists i, j :: 0 <= i < j < |s| && s[i] == s[j]
  }

  /** Swift's `Set(s)`. */
  function Elements<T(==,!new)>(s: seq<T>): set<T> {
    set x | x in s
  }

  /** `Set(s).count` differs from `s.count` exactly when some element is repeated. */
  lemma {:induction false} ElementsCountDetectsRepeat<T(!new)>(s: seq<T>)
    ensures |Elements(s)| <= |s|
    ensures |Elements(s)| != |s| <==> HasRepeat(s)
  {
    if s != [] {
      var a, t := s[0], s[1..];
      ElementsCountDetectsRepeat(t);
      assert Elements(s) == {a} + Elements(t) by {
        assert forall x :: x in s <==> x == a || x in t;
      }
      if a in t {
        var j :| 0 <= j < |t| && t[j] == a;
        assert s[0] == s[j + 1];
        assert Elements(s) == Elements(t);
      } else {
        assert |Elements(s)| == |Elements(t)| + 1;
        if HasRepeat(s) {
          var i, j :| 0 <= i < j < |s| && s[i] == s[j];
          assert i > 0 by { assert s[j] == t[j - 1]; }
          assert t[i - 1] == t[j - 1];
        }
        if HasRepeat(t) {
          var i, j :| 0 <= i < j < |t| && t[i] == t[j];
          assert s[i + 1] == s[j + 1];
        }
      }
    }
  }
}
