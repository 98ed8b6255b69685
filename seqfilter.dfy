/** Row selection by a boolean mask, the one operation every count of the
    delay analysis is built from: `frame[mask]` keeps the rows whose mask
    entry is true, in their original order, and `.shape[0]` / `len(...)`
    is the length of what is kept. */
module SeqFilter {

  /** The elements of `s` that satisfy `p`, in their original order. */
  function Filter<T(==)>(s: seq<T>, p: T -> bool): (r: seq<T>)
    ensures |r| <= |s|
    ensures forall i :: 0 <= i < |r| ==> p(r[i])
  {
    if s == [] then []
    else if p(s[0]) then [s[0]] + Filter(s[1..], p)
    else Filter(s[1..], p)
  }

  /** What the filter keeps: every element it returns comes from `s`, and
      every element of `s` that satisfies `p` is returned. */
  lemma {:induction false} FilterMembers<T>(s: seq<T>, p: T -> bool)
    ensures forall i :: 0 <= i < |Filter(s, p)| ==> Filter(s, p)[i] in s
    ensures forall i :: 0 <= i < |s| && p(s[i]) ==> s[i] in Filter(s, p)
  {
    if s != [] {
      FilterMembers(s[1..], p);
      assert forall i :: 0 <= i < |s[1..]| ==> s[1..][i] == s[i + 1];
    }
  }

  /** The boolean column holding `p` of each row, as a comparison on a
      column produces it. */
  function Mask<T>(s: seq<T>, p: T -> bool): seq<bool>
  {
    if s == [] then [] else [p(s[0])] + Mask(s[1..], p)
  }

  /** How many entries of a boolean column are true
      (`value_counts().get(True, 0)`). */
  function CountTrue(m: seq<bool>): nat
  {
    if m == [] then 0 else (if m[0] then 1 else 0) + CountTrue(m[1..])
  }

  /** `r` can be obtained from `s` by deleting elements. */
  predicate IsSubsequence<T(==)>(r: seq<T>, s: seq<T>)
    decreases |s|
  {
    if r == [] then true
    else if s == [] then false
    else if r[0] == s[0] then IsSubsequence(r[1..], s[1..])
    else IsSubsequence(r, s[1..])
  }

  /** Counting the true entries of a mask column gives the number of rows
      that indexing with that mask keeps. */
  lemma {:induction false} CountTrueOfMask<T>(s: seq<T>, p: T -> bool)
    ensures |Mask(s, p)| == |s|
    ensures CountTrue(Mask(s, p)) == |Filter(s, p)|
  {
    if s != [] {
      CountTrueOfMask(s[1..], p);
    }
  }

  /** Masking keeps the surviving rows in their original order. */
  lemma {:induction false} FilterIsSubsequence<T>(s: seq<T>, p: T -> bool)
    ensures IsSubsequence(Filter(s, p), s)
  {
    if s != [] {
      FilterIsSubsequence(s[1..], p);
      var f := Filter(s, p);
      if !p(s[0]) && f != [] {
        assert p(f[0]);
      }
    }
  }

  /** Two masks that are each other's negation on the rows of `s` split `s`
      into two parts that together hold every row exactly once. */
  lemma {:induction false} FilterPartition<T>(s: seq<T>, p: T -> bool, q: T -> bool)
    requires forall i :: 0 <= i < |s| ==> (q(s[i]) <==> !p(s[i]))
    ensures multiset(Filter(s, p)) + multiset(Filter(s, q)) == multiset(s)
    ensures |Filter(s, p)| + |Filter(s, q)| == |s|
  {
    if s != [] {
      assert forall i :: 0 <= i < |s[1..]| ==> s[1..][i] == s[i + 1];
      FilterPartition(s[1..], p, q);
      assert s == [s[0]] + s[1..];
    }
  }

  /** A mask that implies another on every row keeps no more rows, and the
      rows it keeps are a subsequence of the other's. */
  lemma {:induction false} FilterMonotone<T>(s: seq<T>, p: T -> bool, q: T -> bool)
    requires forall i :: 0 <= i < |s| && p(s[i]) ==> q(s[i])
    ensures |Filter(s, p)| <= |Filter(s, q)|
  {
    if s != [] {
      assert forall i :: 0 <= i < |s[1..]| ==> s[1..][i] == s[i + 1];
      FilterMonotone(s[1..], p, q);
    }
  }

  /** Applying the same mask twice keeps what applying it once keeps. */
  lemma {:induction false} FilterIdempotent<T>(s: seq<T>, p: T -> bool)
    ensures Filter(Filter(s, p), p) == Filter(s, p)
  {
    if s != [] {
      FilterIdempotent(s[1..], p);
      if p(s[0]) {
        var rest := Filter(s[1..], p);
        assert ([s[0]] + rest)[0] == s[0];
        assert ([s[0]] + rest)[1..] == rest;
      }
    }
  }
}
