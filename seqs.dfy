/**
 * Order-preserving filtering of sequences, the value-level meaning of
 * `Array.prototype.filter`, and the sub-sequence relation it produces.
 */
module Seqs {

  /** The elements of `s` that satisfy `keep`, in their original order. */
  function Filter<T(!new)>(s: seq<T>, keep: T -> bool): (r: seq<T>)
    ensures |r| <= |s|
    ensures forall x :: x in r <==> x in s && keep(x)
  {
    if s == [] then []
    else (if keep(s[0]) then [s[0]] else []) + Filter(s[1..], keep)
  }

  /** `r` can be obtained from `s` by deleting elements: each head of `s` is kept or dropped. */
  ghost predicate IsSubsequence<T>(r: seq<T>, s: seq<T>)
    decreases |s|
  {
    r == [] ||
    (s != [] &&
     ((r[0] == s[0] && IsSubsequence(r[1..], s[1..])) || IsSubsequence(r, s[1..])))
  }

  /** Filtering never reorders: its result is a sub-sequence of its input. */
  lemma {:induction false} FilterIsSubsequence<T(!new)>(s: seq<T>, keep: T -> bool)
    ensures IsSubsequence(Filter(s, keep), s)
  {
    if s != [] {
      FilterIsSubsequence(s[1..], keep);
      var r := Filter(s, keep);
      if keep(s[0]) {
        assert r[0] == s[0] && r[1..] == Filter(s[1..], keep);
      } else {
        assert r == Filter(s[1..], keep);
      }
    }
  }

  /** Filtering keeps every copy of a kept element and no copy of a rejected one. */
  lemma {:induction false} FilterCount<T(!new)>(s: seq<T>, keep: T -> bool, x: T)
    ensures multiset(Filter(s, keep))[x] == if keep(x) then multiset(s)[x] else 0
  {
    if s != [] {
      FilterCount(s[1..], keep, x);
      assert s == [s[0]] + s[1..];
      assert Filter(s, keep) == (if keep(s[0]) then [s[0]] else []) + Filter(s[1..], keep);
    }
  }

  /** A filter that every element passes returns its input unchanged. */
  lemma {:induction false} FilterKeepsAll<T(!new)>(s: seq<T>, keep: T -> bool)
    requires forall j :: 0 <= j < |s| ==> keep(s[j])
    ensures Filter(s, keep) == s
  {
    if s != [] {
      FilterKeepsAll(s[1..], keep);
      assert [s[0]] + s[1..] == s;
    }
  }

  /** A filter that every element fails returns the empty sequence. */
  lemma {:induction false} FilterKeepsNone<T(!new)>(s: seq<T>, keep: T -> bool)
    requires forall j :: 0 <= j < |s| ==> !keep(s[j])
    ensures Filter(s, keep) == []
  {
    if s != [] {
      FilterKeepsNone(s[1..], keep);
    }
  }

  /** Two filters that agree on every element of `s` select the same sub-sequence. */
  lemma {:induction false} FilterCongruent<T(!new)>(s: seq<T>, f: T -> bool, g: T -> bool)
    requires forall x :: x in s ==> (f(x) <==> g(x))
    ensures Filter(s, f) == Filter(s, g)
  {
    if s != [] {
      FilterCongruent(s[1..], f, g);
    }
  }

  /** A filter that rejects exactly the element at `i` deletes that one position. */
  lemma {:induction false} FilterDropsOne<T(!new)>(s: seq<T>, keep: T -> bool, i: nat)
    requires i < |s| && !keep(s[i])
    requires forall j :: 0 <= j < |s| && j != i ==> keep(s[j])
    ensures Filter(s, keep) == s[..i] + s[i + 1..]
  {
    var tail := s[1..];
    if i == 0 {
      forall j | 0 <= j < |tail| ensures keep(tail[j]) {
        assert tail[j] == s[j + 1];
      }
      FilterKeepsAll(tail, keep);
      assert s[..0] + s[1..] == tail;
    } else {
      forall j | 0 <= j < |tail| && j != i - 1 ensures keep(tail[j]) {
        assert tail[j] == s[j + 1];
      }
      FilterDropsOne(tail, keep, i - 1);
      ConsSplice(s, i);
    }
  }

  /** Deleting position `i > 0` keeps the head in front of the shorter deletion. */
  lemma ConsSplice<T>(s: seq<T>, i: nat)
    requires 0 < i < |s|
    ensures s[..i] + s[i + 1..] == [s[0]] + (s[1..][..i - 1] + s[1..][i..])
  {
  }
}
