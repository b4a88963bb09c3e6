/** Sequence operations the views build on: JavaScript's Array filter, find,
    slice(0, n), and de-duplication through a Set (which keeps first-insertion
    order). */
module Seqs {

  datatype Option<+T> = None | Some(value: T)

  /** `s` occurs in `t` in order, possibly with gaps (matched greedily from the back). */
  predicate IsSubsequence<T(==)>(s: seq<T>, t: seq<T>)
    decreases |t|
  {
    if s == [] then true
    else if t == [] then false
    else if s[|s| - 1] == t[|t| - 1] then IsSubsequence(s[..|s| - 1], t[..|t| - 1])
    else IsSubsequence(s, t[..|t| - 1])
  }

  /** No element occurs twice. */
  predicate Distinct<T(==)>(s: seq<T>)
  {
    forall i, j :: 0 <= i < j < |s| ==> s[i] != s[j]
  }

  /** Array.prototype.filter: the elements that satisfy `p`, in their order. */
  function Filter<T>(p: T -> bool, s: seq<T>): (r: seq<T>)
    ensures |r| <= |s|
    ensures forall i :: 0 <= i < |r| ==> p(r[i])
    decreases |s|
  {
    if s == [] then []
    else Filter(p, s[..|s| - 1]) + (if p(s[|s| - 1]) then [s[|s| - 1]] else [])
  }

  /** Filtering keeps exactly the elements of `s` that satisfy `p`, each as
      often as it occurs in `s`. */
  lemma {:induction false} FilterMultiset<T>(p: T -> bool, s: seq<T>)
    ensures forall x :: multiset(Filter(p, s))[x] == if p(x) then multiset(s)[x] else 0
    ensures forall x :: x in Filter(p, s) <==> x in s && p(x)
    decreases |s|
  {
    if s != [] {
      var init, last := s[..|s| - 1], s[|s| - 1];
      assert s == init + [last];
      FilterMultiset(p, init);
      assert multiset(Filter(p, s)) == multiset(Filter(p, init)) + multiset(if p(last) then [last] else []);
      forall x ensures x in Filter(p, s) <==> x in s && p(x) {
        assert x in Filter(p, s) <==> multiset(Filter(p, s))[x] > 0;
        assert x in s <==> multiset(s)[x] > 0;
      }
    }
  }

  lemma FilterSnoc<T>(p: T -> bool, s: seq<T>, x: T)
    ensures Filter(p, s + [x]) == Filter(p, s) + (if p(x) then [x] else [])
  {
    assert (s + [x])[..|s|] == s;
  }

  lemma {:induction false} FilterAppend<T>(p: T -> bool, s: seq<T>, t: seq<T>)
    ensures Filter(p, s + t) == Filter(p, s) + Filter(p, t)
    decreases |t|
  {
    if t == [] {
      assert s + t == s;
    } else {
      var init, last := t[..|t| - 1], t[|t| - 1];
      assert t == init + [last];
      assert s + t == (s + init) + [last];
      FilterAppend(p, s, init);
      FilterSnoc(p, s + init, last);
      FilterSnoc(p, init, last);
    }
  }

  lemma {:induction false} SubsequenceSnoc<T>(s: seq<T>, t: seq<T>, x: T)
    requires IsSubsequence(s, t)
    ensures IsSubsequence(s, t + [x])
    decreases |t|, 1
  {
    var t' := t + [x];
    assert t'[..|t'| - 1] == t;
    if s != [] && s[|s| - 1] == x {
      SubsequenceDropLast(s, t);
    }
  }

  lemma {:induction false} SubsequenceDropLast<T>(s: seq<T>, t: seq<T>)
    requires s != [] && IsSubsequence(s, t)
    ensures IsSubsequence(s[..|s| - 1], t)
    decreases |t|, 0
  {
    var init := t[..|t| - 1];
    if s[|s| - 1] == t[|t| - 1] {
      assert IsSubsequence(s[..|s| - 1], init);
      SubsequenceSnoc(s[..|s| - 1], init, t[|t| - 1]);
      assert init + [t[|t| - 1]] == t;
    } else {
      SubsequenceDropLast(s, init);
      SubsequenceSnoc(s[..|s| - 1], init, t[|t| - 1]);
      assert init + [t[|t| - 1]] == t;
    }
  }

  lemma {:induction false} SubsequenceRefl<T>(s: seq<T>)
    ensures IsSubsequence(s, s)
    decreases |s|
  {
    if s != [] {
      SubsequenceRefl(s[..|s| - 1]);
    }
  }

  /** Filtering keeps the relative order of the kept elements. */
  lemma {:induction false} FilterIsSubsequence<T>(p: T -> bool, s: seq<T>)
    ensures IsSubsequence(Filter(p, s), s)
    decreases |s|
  {
    if s != [] {
      var init, last := s[..|s| - 1], s[|s| - 1];
      FilterIsSubsequence(p, init);
      if p(last) {
        var r := Filter(p, s);
        assert r[..|r| - 1] == Filter(p, init);
      } else {
        assert Filter(p, s) == Filter(p, init);
        SubsequenceSnoc(Filter(p, init), init, last);
        assert init + [last] == s;
      }
    }
  }

  /** A filter that every element passes is the identity. */
  lemma {:induction false} FilterAll<T>(p: T -> bool, s: seq<T>)
    requires forall i :: 0 <= i < |s| ==> p(s[i])
    ensures Filter(p, s) == s
    decreases |s|
  {
    if s != [] {
      FilterAll(p, s[..|s| - 1]);
      assert s[..|s| - 1] + [s[|s| - 1]] == s;
    }
  }

  /** A filter keeps its whole input exactly when every element passes. */
  lemma {:induction false} FilterKeepsAll<T>(p: T -> bool, s: seq<T>)
    ensures |Filter(p, s)| == |s| <==> forall i :: 0 <= i < |s| ==> p(s[i])
    decreases |s|
  {
    if s != [] {
      var init := s[..|s| - 1];
      FilterKeepsAll(p, init);
      if |Filter(p, s)| == |s| {
        forall i | 0 <= i < |s| ensures p(s[i]) {
          if i < |init| {
            assert s[i] == init[i];
          }
        }
      } else if forall i :: 0 <= i < |s| ==> p(s[i]) {
        FilterAll(p, s);
      }
    }
  }

  /** A filter that no element passes is empty. */
  lemma {:induction false} FilterNone<T>(p: T -> bool, s: seq<T>)
    requires forall i :: 0 <= i < |s| ==> !p(s[i])
    ensures Filter(p, s) == []
    decreases |s|
  {
    if s != [] {
      FilterNone(p, s[..|s| - 1]);
    }
  }

  /** `p` and its negation split `s`: every element lands in exactly one half. */
  lemma {:induction false} FilterPartition<T>(p: T -> bool, q: T -> bool, s: seq<T>)
    requires forall i :: 0 <= i < |s| ==> q(s[i]) == !p(s[i])
    ensures |Filter(p, s)| + |Filter(q, s)| == |s|
    ensures multiset(Filter(p, s)) + multiset(Filter(q, s)) == multiset(s)
    decreases |s|
  {
    if s != [] {
      var init, last := s[..|s| - 1], s[|s| - 1];
      FilterPartition(p, q, init);
      assert init + [last] == s;
    }
  }

  /** Array.prototype.slice(0, n). */
  function Take<T>(s: seq<T>, n: nat): (r: seq<T>)
    ensures |r| == if n < |s| then n else |s|
    ensures r == s[..|r|]
  {
    if n < |s| then s[..n] else s
  }

  /** Array.prototype.find: the first element that satisfies `p`, if any. */
  function Find<T>(p: T -> bool, s: seq<T>): (r: Option<T>)
    ensures r.None? <==> forall i :: 0 <= i < |s| ==> !p(s[i])
    ensures r.Some? ==> exists i :: 0 <= i < |s| && s[i] == r.value && p(s[i]) &&
                                    forall j :: 0 <= j < i ==> !p(s[j])
  {
    if s == [] then None
    else if p(s[0]) then Some(s[0])
    else
      var r := Find(p, s[1..]);
      assert r.Some? ==> exists i :: 0 < i < |s| && s[i] == r.value && p(s[i]) &&
                                     forall j :: 0 <= j < i ==> !p(s[j]) by {
        if r.Some? {
          var i :| 0 <= i < |s[1..]| && s[1..][i] == r.value && p(s[1..][i]) &&
                   forall j :: 0 <= j < i ==> !p(s[1..][j]);
          assert forall j :: 1 <= j < i + 1 ==> s[j] == s[1..][j - 1];
        }
      }
      r
  }

  /** Index of the first occurrence of `x`. */
  function IndexOf<T(==)>(s: seq<T>, x: T): (k: nat)
    requires x in s
    ensures k < |s| && s[k] == x && forall j :: 0 <= j < k ==> s[j] != x
  {
    if s[0] == x then 0 else 1 + IndexOf(s[1..], x)
  }

  lemma IndexOfSnoc<T>(s: seq<T>, x: T, y: T)
    requires y in s
    ensures IndexOf(s + [x], y) == IndexOf(s, y)
  {
    var k := IndexOf(s, y);
    var k' := IndexOf(s + [x], y);
    assert (s + [x])[k] == y;
  }

  /** Array.from(new Set(s)): each value once, in order of first appearance. */
  function Dedup<T(==,!new)>(s: seq<T>): (r: seq<T>)
    ensures Distinct(r)
    ensures forall x :: x in r <==> x in s
    ensures forall i, j :: 0 <= i < j < |r| ==> IndexOf(s, r[i]) < IndexOf(s, r[j])
    decreases |s|
  {
    if s == [] then []
    else
      var init, last := s[..|s| - 1], s[|s| - 1];
      assert s == init + [last];
      var r := Dedup(init);
      forall y | y in init ensures IndexOf(s, y) == IndexOf(init, y) {
        IndexOfSnoc(init, last, y);
      }
      if last in r then r
      else
        assert IndexOf(s, last) == |s| - 1;
        r + [last]
  }
}
