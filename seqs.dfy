/** LINQ's `Where` over a sequence and the facts the queries rely on. */
module Seqs {

  /** `s.Where(p)`: the elements of `s` that satisfy `p`, in their original order. */
  function Where<T>(s: seq<T>, p: T -> bool): (r: seq<T>)
    ensures |r| <= |s|
    ensures forall x :: x in r ==> x in s && p(x)
  {
    if s == [] then []
    else if p(s[0]) then [s[0]] + Where(s[1..], p)
    else Where(s[1..], p)
  }

  /** `r` is `s` with some elements dropped and the rest in the same order. */
  ghost predicate IsSubsequence<T>(r: seq<T>, s: seq<T>)
    decreases |s|
  {
    || r == []
    || (s != [] && r[0] == s[0] && IsSubsequence(r[1..], s[1..]))
    || (s != [] && IsSubsequence(r, s[1..]))
  }

  function Negate<T>(p: T -> bool): T -> bool {
    x => !p(x)
  }

  lemma {:induction false} WhereAppend<T>(a: seq<T>, b: seq<T>, p: T -> bool)
    ensures Where(a + b, p) == Where(a, p) + Where(b, p)
  {
    if a == [] {
      assert a + b == b;
    } else {
      assert (a + b)[1..] == a[1..] + b;
      WhereAppend(a[1..], b, p);
    }
  }

  /** Filtering keeps the relative order of what it keeps. */
  lemma {:induction false} WhereIsSubsequence<T>(s: seq<T>, p: T -> bool)
    ensures IsSubsequence(Where(s, p), s)
  {
    if s != [] {
      WhereIsSubsequence(s[1..], p);
    }
  }

  /** Filtering keeps every satisfying element, as often as it occurs, and nothing else. */
  lemma {:induction false} WhereCount<T>(s: seq<T>, p: T -> bool, x: T)
    ensures multiset(Where(s, p))[x] == if p(x) then multiset(s)[x] else 0
  {
    if s != [] {
      WhereCount(s[1..], p, x);
      assert s == [s[0]] + s[1..];
    }
  }

  /** A filter that every element passes is the identity; one that none passes yields nothing. */
  lemma {:induction false} WhereAllOrNone<T>(s: seq<T>, p: T -> bool)
    ensures (forall x :: x in s ==> p(x)) <==> Where(s, p) == s
    ensures (forall x :: x in s ==> !p(x)) <==> Where(s, p) == []
  {
    if s != [] {
      WhereAllOrNone(s[1..], p);
      assert s[0] in s;
      if Where(s, p) == s {
        assert s[0] in Where(s, p);
      }
      if Where(s, p) == [] {
        forall x | x in s ensures !p(x) {
          if x != s[0] { assert x in s[1..]; }
        }
      }
    }
  }

  /** A filter and its negation split the sequence: their lengths add up to its length. */
  lemma {:induction false} WhereSplitLength<T>(s: seq<T>, p: T -> bool)
    ensures |Where(s, p)| + |Where(s, Negate(p))| == |s|
  {
    if s != [] {
      WhereSplitLength(s[1..], p);
    }
  }
}
