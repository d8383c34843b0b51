/** Sequence filtering and the subsequence order, used to state that the
    scanners and filters keep a selection of their input in its order. */
module Seqs {

  /** `a` can be obtained from `b` by deleting elements. */
  ghost predicate IsSubseq<T>(a: seq<T>, b: seq<T>)
    decreases |b|
  {
    || a == []
    || (b != [] && ((a[0] == b[0] && IsSubseq(a[1..], b[1..])) || IsSubseq(a, b[1..])))
  }

  /** `[x for x in s if keep(x)]`. */
  function Filter<T(!new)>(keep: T -> bool, s: seq<T>): (r: seq<T>)
    ensures |r| <= |s|
    ensures forall x :: x in r <==> x in s && keep(x)
  {
    if s == [] then []
    else
      var rest := Filter(keep, s[1..]);
      assert s == [s[0]] + s[1..];
      if keep(s[0]) then [s[0]] + rest else rest
  }

  /** The filter keeps every occurrence of a kept element and none of a
      dropped one. */
  lemma {:induction false} FilterCounts<T(!new)>(keep: T -> bool, s: seq<T>)
    ensures forall x :: multiset(Filter(keep, s))[x] == if keep(x) then multiset(s)[x] else 0
    decreases |s|
  {
    if s != [] {
      FilterCounts(keep, s[1..]);
      assert s == [s[0]] + s[1..];
      assert multiset(s) == multiset{s[0]} + multiset(s[1..]);
      if keep(s[0]) {
        assert multiset(Filter(keep, s)) == multiset{s[0]} + multiset(Filter(keep, s[1..]));
      }
    }
  }

  /** Tests that agree on the elements of `s` select the same elements. */
  lemma {:induction false} FilterAgree<T(!new)>(p: T -> bool, q: T -> bool, s: seq<T>)
    requires forall x :: x in s ==> p(x) == q(x)
    ensures Filter(p, s) == Filter(q, s)
    decreases |s|
  {
    if s != [] {
      assert forall x :: x in s[1..] ==> x in s;
      FilterAgree(p, q, s[1..]);
    }
  }

  /** Concatenation regroups freely. */
  lemma ConcatAssoc<T>(x: seq<T>, y: seq<T>, z: seq<T>)
    ensures (x + y) + z == x + (y + z)
  {
  }

  /** The filter keeps its input's order. */
  lemma {:induction false} FilterIsSubseq<T(!new)>(keep: T -> bool, s: seq<T>)
    ensures IsSubseq(Filter(keep, s), s)
    decreases |s|
  {
    if s != [] {
      var rest := Filter(keep, s[1..]);
      FilterIsSubseq(keep, s[1..]);
      if keep(s[0]) {
        assert ([s[0]] + rest)[1..] == rest;
      }
    }
  }

  /** `[f(x) for x in s]`. */
  function Map<T, U>(f: T -> U, s: seq<T>): (r: seq<U>)
    ensures |r| == |s|
    ensures forall i :: 0 <= i < |s| ==> r[i] == f(s[i])
  {
    seq(|s|, i requires 0 <= i < |s| => f(s[i]))
  }

  /** Mapping distributes over concatenation. */
  lemma MapConcat<T, U>(f: T -> U, a: seq<T>, b: seq<T>)
    ensures Map(f, a + b) == Map(f, a) + Map(f, b)
  {
    var l, r := Map(f, a + b), Map(f, a) + Map(f, b);
    forall i | 0 <= i < |l| ensures l[i] == r[i] {
      if i < |a| {
        assert (a + b)[i] == a[i];
      } else {
        assert (a + b)[i] == b[i - |a|];
      }
    }
  }

  /** One step of `[f(x) for x in s if keep(x)]`: the head, if kept, comes
      first. */
  lemma MapFilterCons<T(!new), U>(f: T -> U, keep: T -> bool, s: seq<T>)
    requires s != []
    ensures Map(f, Filter(keep, s)) == (if keep(s[0]) then [f(s[0])] else []) + Map(f, Filter(keep, s[1..]))
  {
    var head: seq<T> := if keep(s[0]) then [s[0]] else [];
    assert Filter(keep, s) == head + Filter(keep, s[1..]);
    MapConcat(f, head, Filter(keep, s[1..]));
  }

  /** Elements placed in front of the larger sequence do not matter. */
  lemma {:induction false} SubseqPrepend<T>(a: seq<T>, c: seq<T>, b: seq<T>)
    requires IsSubseq(a, b)
    ensures IsSubseq(a, c + b)
    decreases |c|
  {
    if c != [] {
      SubseqPrepend(a, c[1..], b);
      assert (c + b)[1..] == c[1..] + b;
    } else {
      assert c + b == b;
    }
  }

  /** Subsequences of the parts give a subsequence of the whole. */
  lemma {:induction false} SubseqConcat<T>(a1: seq<T>, b1: seq<T>, a2: seq<T>, b2: seq<T>)
    requires IsSubseq(a1, b1) && IsSubseq(a2, b2)
    ensures IsSubseq(a1 + a2, b1 + b2)
    decreases |b1|
  {
    if a1 == [] {
      assert a1 + a2 == a2;
      SubseqPrepend(a2, b1, b2);
    } else {
      assert b1 != [];
      assert (b1 + b2)[1..] == b1[1..] + b2;
      if a1[0] == b1[0] && IsSubseq(a1[1..], b1[1..]) {
        SubseqConcat(a1[1..], b1[1..], a2, b2);
        assert (a1 + a2)[1..] == a1[1..] + a2;
      } else {
        SubseqConcat(a1, b1[1..], a2, b2);
      }
    }
  }

  /** A weaker filter keeps a supersequence of what a stronger one keeps. */
  lemma {:induction false} FilterMono<T(!new)>(strong: T -> bool, weak: T -> bool, s: seq<T>)
    requires forall x :: strong(x) ==> weak(x)
    ensures IsSubseq(Filter(strong, s), Filter(weak, s))
    decreases |s|
  {
    if s != [] {
      FilterMono(strong, weak, s[1..]);
      var rs := Filter(strong, s[1..]);
      var rw := Filter(weak, s[1..]);
      if strong(s[0]) {
        assert ([s[0]] + rs)[1..] == rs;
        assert ([s[0]] + rw)[1..] == rw;
      } else if weak(s[0]) {
        assert ([s[0]] + rw)[1..] == rw;
        SubseqPrepend(rs, [s[0]], rw);
      }
    }
  }
}
