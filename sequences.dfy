/**
  Order-preserving selection on sequences: the subsequence relation and the
  stable filter that JavaScript's `Array.prototype.filter` performs.
*/
module Sequences {

  /**
    `p` can be obtained from `t` by deleting elements, keeping the order of
    the rest. Defined by the last element of each.
  */
  predicate Subseq<T(==)>(p: seq<T>, t: seq<T>)
    decreases |t|
  {
    if p == [] then true
    else if t == [] then false
    else (p[|p| - 1] == t[|t| - 1] && Subseq(p[..|p| - 1], t[..|t| - 1])) || Subseq(p, t[..|t| - 1])
  }

  lemma {:induction false} SubseqRefl<T>(s: seq<T>)
    ensures Subseq(s, s)
  {
    if s != [] {
      SubseqRefl(s[..|s| - 1]);
    }
  }

  lemma {:induction false} SubseqLength<T>(p: seq<T>, t: seq<T>)
    requires Subseq(p, t)
    ensures |p| <= |t|
    decreases |t|
  {
    if p != [] {
      if p[|p| - 1] == t[|t| - 1] && Subseq(p[..|p| - 1], t[..|t| - 1]) {
        SubseqLength(p[..|p| - 1], t[..|t| - 1]);
      } else {
        SubseqLength(p, t[..|t| - 1]);
      }
    }
  }

  /** Dropping the tail of the subsequence keeps it a subsequence. */
  lemma {:induction false} SubseqPrefix<T>(p: seq<T>, t: seq<T>, k: nat)
    requires Subseq(p, t) && k <= |p|
    ensures Subseq(p[..k], t)
    decreases |t|, |p|
  {
    if k == |p| {
      assert p[..k] == p;
    } else if k > 0 {
      var t' := t[..|t| - 1];
      assert Subseq(p[..k], t') by {
        var p' := p[..|p| - 1];
        if p[|p| - 1] == t[|t| - 1] && Subseq(p', t') {
          SubseqPrefix(p', t', k);
          assert p'[..k] == p[..k];
        } else {
          SubseqPrefix(p, t', k);
        }
      }
      SubseqWeaken(p[..k], t', t[|t| - 1]);
      assert t' + [t[|t| - 1]] == t;
    }
  }

  /** Growing the sequence by one element keeps every subsequence. */
  lemma SubseqWeaken<T>(p: seq<T>, t': seq<T>, y: T)
    requires Subseq(p, t')
    ensures Subseq(p, t' + [y])
  {
    assert (t' + [y])[..|t'|] == t';
  }

  /** Growing the sequence at the end keeps every subsequence. */
  lemma {:induction false} SubseqAppend<T>(p: seq<T>, t: seq<T>, u: seq<T>)
    requires Subseq(p, t)
    ensures Subseq(p, t + u)
    decreases |u|
  {
    if u == [] {
      assert t + u == t;
    } else {
      var u' := u[..|u| - 1];
      SubseqAppend(p, t, u');
      assert t + u == (t + u') + [u[|u| - 1]];
      SubseqWeaken(p, t + u', u[|u| - 1]);
    }
  }

  /** The elements of `s` that satisfy `f`, in their original order. */
  function Filter<T(!new)>(s: seq<T>, f: T -> bool): (r: seq<T>)
    ensures |r| <= |s|
    decreases |s|
  {
    if s == [] then []
    else
      var r' := Filter(s[..|s| - 1], f);
      if f(s[|s| - 1]) then r' + [s[|s| - 1]] else r'
  }

  /** A filter keeps exactly the elements that satisfy the predicate, as a subsequence of the input. */
  lemma {:induction false} FilterFacts<T(!new)>(s: seq<T>, f: T -> bool)
    ensures forall x :: x in Filter(s, f) <==> x in s && f(x)
    ensures Subseq(Filter(s, f), s)
    decreases |s|
  {
    if s != [] {
      var s', x := s[..|s| - 1], s[|s| - 1];
      var r' := Filter(s', f);
      FilterFacts(s', f);
      assert s == s' + [x];
      SubseqWeaken(r', s', x);
      if f(x) {
        assert (r' + [x])[..|r'|] == r';
      }
    }
  }

  /** A filter keeps every copy of each element that satisfies the predicate, and no copy of any other. */
  lemma {:induction false} FilterCount<T(!new)>(s: seq<T>, f: T -> bool)
    ensures forall x :: multiset(Filter(s, f))[x] == if f(x) then multiset(s)[x] else 0
    decreases |s|
  {
    if s != [] {
      var s', y := s[..|s| - 1], s[|s| - 1];
      FilterCount(s', f);
      assert s == s' + [y];
      assert multiset(s) == multiset(s') + multiset{y};
    }
  }

  /** Filtering a sequence grown by one element. */
  lemma FilterSnoc<T(!new)>(s: seq<T>, x: T, f: T -> bool)
    ensures Filter(s + [x], f) == Filter(s, f) + (if f(x) then [x] else [])
  {
    assert (s + [x])[..|s|] == s;
  }

  /** Two filters in a row keep exactly what a filter by their conjunction `h` keeps. */
  lemma {:induction false} FilterFilter<T(!new)>(s: seq<T>, f: T -> bool, g: T -> bool, h: T -> bool)
    requires forall x :: h(x) == (f(x) && g(x))
    ensures Filter(Filter(s, f), g) == Filter(s, h)
    decreases |s|
  {
    if s != [] {
      var s', x := s[..|s| - 1], s[|s| - 1];
      FilterFilter(s', f, g, h);
      var r' := Filter(s', f);
      if f(x) {
        assert (r' + [x])[..|r'|] == r';
      }
    }
  }

  /** A filter whose predicate holds everywhere keeps everything. */
  lemma {:induction false} FilterAll<T(!new)>(s: seq<T>, f: T -> bool)
    requires forall k :: 0 <= k < |s| ==> f(s[k])
    ensures Filter(s, f) == s
    decreases |s|
  {
    if s != [] {
      var s' := s[..|s| - 1];
      FilterAll(s', f);
      assert s == s' + [s[|s| - 1]];
    }
  }

  /** Filters with predicates that agree everywhere keep the same elements. */
  lemma {:induction false} FilterSame<T(!new)>(s: seq<T>, f: T -> bool, g: T -> bool)
    requires forall x :: f(x) == g(x)
    ensures Filter(s, f) == Filter(s, g)
    decreases |s|
  {
    if s != [] {
      FilterSame(s[..|s| - 1], f, g);
    }
  }
}
