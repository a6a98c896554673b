/** Order-preserving filters and counts over sequences.

    Every filtered list the dashboard derives from its mock tables (the
    visible navigation items, the filtered project list, the pending
    projects, the tasks of a calendar day, the active municipalities) is an
    `Array.prototype.filter`; this module
    defines that operation once and characterises it independently of its
    recursive definition. */
module Seqs {

  /** `a` is obtained from `b` by deleting elements, without reordering. */
  predicate IsSubsequence<T(==)>(a: seq<T>, b: seq<T>)
    decreases |b|
  {
    if |b| == 0 then |a| == 0
    else IsSubsequence(a, b[1..]) || (|a| > 0 && a[0] == b[0] && IsSubsequence(a[1..], b[1..]))
  }

  /** Number of elements of `s` that satisfy `p`. */
  function CountWhere<T>(s: seq<T>, p: T -> bool): (n: nat)
    ensures n <= |s|
    ensures n == 0 <==> forall i :: 0 <= i < |s| ==> !p(s[i])
    ensures n == |s| <==> forall i :: 0 <= i < |s| ==> p(s[i])
  {
    if |s| == 0 then 0
    else
      var rest := CountWhere(s[1..], p);
      assert forall i :: 1 <= i < |s| ==> s[i] == s[1..][i - 1];
      (if p(s[0]) then 1 else 0) + rest
  }

  /** `Array.prototype.filter`: the elements of `s` satisfying `p`, in order. */
  function Filter<T>(s: seq<T>, p: T -> bool): (r: seq<T>)
    ensures |r| == CountWhere(s, p)
    ensures forall i :: 0 <= i < |r| ==> p(r[i])
  {
    if |s| == 0 then []
    else
      var rest := Filter(s[1..], p);
      if p(s[0]) then [s[0]] + rest else rest
  }

  /** The filter keeps exactly the elements satisfying `p`. */
  lemma {:induction false} FilterMembership<T>(s: seq<T>, p: T -> bool)
    ensures forall i :: 0 <= i < |Filter(s, p)| ==> Filter(s, p)[i] in s
    ensures forall i :: 0 <= i < |s| && p(s[i]) ==> s[i] in Filter(s, p)
    decreases |s|
  {
    if |s| > 0 {
      FilterMembership(s[1..], p);
      var rest := Filter(s[1..], p);
      forall i | 0 <= i < |s| && p(s[i])
        ensures s[i] in Filter(s, p)
      {
        if i > 0 {
          assert s[i] == s[1..][i - 1];
        }
      }
      forall i | 0 <= i < |Filter(s, p)|
        ensures Filter(s, p)[i] in s
      {
        if p(s[0]) && i > 0 {
          assert Filter(s, p)[i] == rest[i - 1];
        }
      }
    }
  }

  /** An element satisfying `p` survives the filter. */
  lemma FilterKeeps<T>(s: seq<T>, p: T -> bool, k: nat)
    requires k < |s| && p(s[k])
    ensures s[k] in Filter(s, p)
  {
    FilterMembership(s, p);
  }

  /** What survives the filter was in the input and satisfies `p`. */
  lemma FilterSource<T>(s: seq<T>, p: T -> bool, x: T)
    requires x in Filter(s, p)
    ensures p(x)
    ensures exists i :: 0 <= i < |s| && s[i] == x
  {
    FilterMembership(s, p);
    var j :| 0 <= j < |Filter(s, p)| && Filter(s, p)[j] == x;
    assert x in s;
  }

  /** The filter deletes elements and never reorders them. */
  lemma {:induction false} FilterIsSubsequence<T>(s: seq<T>, p: T -> bool)
    ensures IsSubsequence(Filter(s, p), s)
    decreases |s|
  {
    if |s| > 0 {
      FilterIsSubsequence(s[1..], p);
      if p(s[0]) {
        assert ([s[0]] + Filter(s[1..], p))[1..] == Filter(s[1..], p);
      }
    }
  }

  /** A subsequence whose elements all satisfy `p` is no longer than the
      number of elements of the original that satisfy `p`. */
  lemma {:induction false} SubsequenceCountBound<T>(r: seq<T>, s: seq<T>, p: T -> bool)
    requires IsSubsequence(r, s)
    requires forall i :: 0 <= i < |r| ==> p(r[i])
    ensures |r| <= CountWhere(s, p)
    decreases |s|
  {
    if |s| == 0 {
    } else if IsSubsequence(r, s[1..]) {
      SubsequenceCountBound(r, s[1..], p);
    } else {
      assert |r| > 0 && r[0] == s[0];
      SubsequenceCountBound(r[1..], s[1..], p);
    }
  }

  /** The contract of `Filter` determines its result: the filter is the one and
      only subsequence of `s` that keeps exactly the elements satisfying `p`. */
  lemma {:induction false} FilterCharacterisation<T>(s: seq<T>, p: T -> bool, r: seq<T>)
    ensures r == Filter(s, p) <==>
              IsSubsequence(r, s)
              && (forall i :: 0 <= i < |r| ==> p(r[i]))
              && |r| == CountWhere(s, p)
    decreases |s|
  {
    FilterIsSubsequence(s, p);
    if IsSubsequence(r, s) && (forall i :: 0 <= i < |r| ==> p(r[i])) && |r| == CountWhere(s, p) {
      if |s| > 0 {
        if p(s[0]) {
          if IsSubsequence(r, s[1..]) {
            SubsequenceCountBound(r, s[1..], p);
            assert false;
          }
          assert r[0] == s[0] && IsSubsequence(r[1..], s[1..]);
          FilterCharacterisation(s[1..], p, r[1..]);
          assert r == [s[0]] + r[1..];
        } else {
          if !IsSubsequence(r, s[1..]) {
            assert false;
          }
          FilterCharacterisation(s[1..], p, r);
        }
      }
    }
  }

  /** A filter whose predicate holds everywhere keeps the whole sequence. */
  lemma FilterKeepsAll<T>(s: seq<T>, p: T -> bool)
    requires forall i :: 0 <= i < |s| ==> p(s[i])
    ensures Filter(s, p) == s
  {
    FilterCharacterisation(s, p, s);
    IsSubsequenceReflexive(s);
  }

  lemma {:induction false} IsSubsequenceReflexive<T>(s: seq<T>)
    ensures IsSubsequence(s, s)
    decreases |s|
  {
    if |s| > 0 {
      IsSubsequenceReflexive(s[1..]);
    }
  }

  /** Filtering twice by the same predicate changes nothing the second time. */
  lemma FilterIdempotent<T>(s: seq<T>, p: T -> bool)
    ensures Filter(Filter(s, p), p) == Filter(s, p)
  {
    FilterKeepsAll(Filter(s, p), p);
  }

  /** Filtering a concatenation filters each part. */
  lemma {:induction false} FilterConcat<T>(a: seq<T>, b: seq<T>, p: T -> bool)
    ensures Filter(a + b, p) == Filter(a, p) + Filter(b, p)
    decreases |a|
  {
    if |a| > 0 {
      assert (a + b)[1..] == a[1..] + b;
      FilterConcat(a[1..], b, p);
    } else {
      assert a + b == b;
    }
  }

  /** Two predicates that agree on every element of `s` filter it alike. */
  lemma {:induction false} FilterCongruence<T>(s: seq<T>, p: T -> bool, q: T -> bool)
    requires forall i :: 0 <= i < |s| ==> p(s[i]) == q(s[i])
    ensures Filter(s, p) == Filter(s, q)
    ensures CountWhere(s, p) == CountWhere(s, q)
    decreases |s|
  {
    if |s| > 0 {
      FilterCongruence(s[1..], p, q);
    }
  }

  /** Counting over a sequence extended at the end, as a left fold sees it. */
  lemma CountWhereSnoc<T>(a: seq<T>, x: T, p: T -> bool)
    ensures CountWhere(a + [x], p) == CountWhere(a, p) + (if p(x) then 1 else 0)
  {
    FilterConcat(a, [x], p);
    assert [x][1..] == [];
  }

  /** The part of `[x]` that `Filter` keeps. */
  function Keep<T>(x: T, p: T -> bool): (r: seq<T>)
    ensures r == Filter([x], p)
  {
    assert [x][1..] == [];
    if p(x) then [x] else []
  }

  /** One step of the filter at position `k`, for unrolling it over a table. */
  lemma FilterFrom<T>(s: seq<T>, p: T -> bool, k: nat)
    requires k < |s|
    ensures Filter(s[k..], p) == Keep(s[k], p) + Filter(s[k + 1..], p)
  {
    assert s[k..][1..] == s[k + 1..];
  }

  /** The filter over a table of seven, element by element. */
  lemma Filter7<T>(s: seq<T>, p: T -> bool)
    requires |s| == 7
    ensures Filter(s, p)
         == Keep(s[0], p) + (Keep(s[1], p) + (Keep(s[2], p) + (Keep(s[3], p)
          + (Keep(s[4], p) + (Keep(s[5], p) + Keep(s[6], p))))))
  {
    FilterFrom(s, p, 6);
    assert s[7..] == [];
    var f6 := Filter(s[6..], p);
    assert f6 == Keep(s[6], p);
    FilterFrom(s, p, 5);
    FilterFrom(s, p, 4);
    FilterFrom(s, p, 3);
    FilterFrom(s, p, 2);
    FilterFrom(s, p, 1);
    FilterFrom(s, p, 0);
    assert s[0..] == s;
  }

  /** One for an element satisfying `p`, zero otherwise. */
  function Indicator<T>(x: T, p: T -> bool): (n: nat)
    ensures n == CountWhere([x], p)
  {
    assert [x][1..] == [];
    if p(x) then 1 else 0
  }

  /** One step of the count at position `k`. */
  lemma CountFrom<T>(s: seq<T>, p: T -> bool, k: nat)
    requires k < |s|
    ensures CountWhere(s[k..], p) == Indicator(s[k], p) + CountWhere(s[k + 1..], p)
  {
    assert s[k..][1..] == s[k + 1..];
  }

  /** The count over a table of six, element by element. */
  lemma Count6<T>(s: seq<T>, p: T -> bool)
    requires |s| == 6
    ensures CountWhere(s, p)
         == Indicator(s[0], p) + Indicator(s[1], p) + Indicator(s[2], p)
          + Indicator(s[3], p) + Indicator(s[4], p) + Indicator(s[5], p)
  {
    CountFrom(s, p, 5);
    assert s[6..] == [];
    CountFrom(s, p, 4);
    CountFrom(s, p, 3);
    CountFrom(s, p, 2);
    CountFrom(s, p, 1);
    CountFrom(s, p, 0);
    assert s[0..] == s;
  }

  /** The count over a table of five, element by element. */
  lemma Count5<T>(s: seq<T>, p: T -> bool)
    requires |s| == 5
    ensures CountWhere(s, p)
         == Indicator(s[0], p) + Indicator(s[1], p) + Indicator(s[2], p)
          + Indicator(s[3], p) + Indicator(s[4], p)
  {
    CountFrom(s, p, 4);
    assert s[5..] == [];
    CountFrom(s, p, 3);
    CountFrom(s, p, 2);
    CountFrom(s, p, 1);
    CountFrom(s, p, 0);
    assert s[0..] == s;
  }
}
