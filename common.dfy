/** Sequence helpers shared by the server route and the two result pages:
    JavaScript's `Array.prototype.filter` and `slice`, and the subsequence
    relation that filtering keeps. */
module Common {

  datatype Option<+T> = None | Some(value: T)

  /** `r` occurs in `s` in the same order, possibly with gaps. */
  predicate IsSubsequence<T(==)>(r: seq<T>, s: seq<T>)
    decreases |s|
  {
    r == [] ||
    (s != [] && ((r[0] == s[0] && IsSubsequence(r[1..], s[1..])) || IsSubsequence(r, s[1..])))
  }

  /** `s.filter(p)`: the elements of `s` that satisfy `p`, in their order. */
  function Filter<T(==,!new)>(s: seq<T>, p: T -> bool): (r: seq<T>)
    ensures |r| <= |s|
    ensures forall x :: x in r <==> x in s && p(x)
    ensures IsSubsequence(r, s)
  {
    if s == [] then []
    else
      assert s == [s[0]] + s[1..];
      if p(s[0]) then [s[0]] + Filter(s[1..], p) else Filter(s[1..], p)
  }

  /** Filtering keeps every copy of an element that passes and no copy of
      one that fails. */
  lemma {:induction false} FilterMultiplicity<T(!new)>(s: seq<T>, p: T -> bool)
    ensures forall x :: multiset(Filter(s, p))[x] == if p(x) then multiset(s)[x] else 0
  {
    if s != [] {
      assert s == [s[0]] + s[1..];
      FilterMultiplicity(s[1..], p);
    }
  }

  /** Filtering distributes over concatenation, so filtering keeps the
      relative order of what it keeps. */
  lemma {:induction false} FilterAppend<T(!new)>(a: seq<T>, b: seq<T>, p: T -> bool)
    ensures Filter(a + b, p) == Filter(a, p) + Filter(b, p)
  {
    if a == [] {
      assert a + b == b;
    } else {
      assert (a + b)[0] == a[0];
      assert (a + b)[1..] == a[1..] + b;
      FilterAppend(a[1..], b, p);
    }
  }

  /** Filtering a sequence with a given head. */
  lemma FilterCons<T(!new)>(a: T, s: seq<T>, p: T -> bool)
    ensures Filter([a] + s, p) == (if p(a) then [a] else []) + Filter(s, p)
  {
    assert ([a] + s)[1..] == s;
  }

  /** A filter that every element passes returns its input unchanged. */
  lemma {:induction false} FilterAll<T(!new)>(s: seq<T>, p: T -> bool)
    requires forall x :: x in s ==> p(x)
    ensures Filter(s, p) == s
  {
    if s != [] {
      FilterAll(s[1..], p);
    }
  }

  /** Filters with predicates that agree on every element agree. */
  lemma {:induction false} FilterExtensional<T(!new)>(s: seq<T>, p: T -> bool, q: T -> bool)
    requires forall x :: x in s ==> p(x) == q(x)
    ensures Filter(s, p) == Filter(s, q)
  {
    if s != [] {
      FilterExtensional(s[1..], p, q);
    }
  }

  /** Filtering twice with the same predicate filters once. */
  lemma {:induction false} FilterIdempotent<T(!new)>(s: seq<T>, p: T -> bool)
    ensures Filter(Filter(s, p), p) == Filter(s, p)
  {
    FilterAll(Filter(s, p), p);
  }

  /** A filter that no element passes returns nothing. */
  lemma FilterNone<T(!new)>(s: seq<T>, p: T -> bool)
    requires forall x :: x in s ==> !p(x)
    ensures Filter(s, p) == []
  {
  }

  /** `s.slice(0, n)` for a non-negative `n`. */
  function Take<T>(s: seq<T>, n: nat): (r: seq<T>)
    ensures |r| == if n < |s| then n else |s|
    ensures forall i :: 0 <= i < |r| ==> r[i] == s[i]
  {
    if n < |s| then s[..n] else s
  }

  /** The end index `s.slice(0, end)` stops at, for a sequence of length
      `len`: a negative `end` counts back from the end, and the index is
      clamped to `0..len`. */
  function SliceEnd(len: nat, end: int): (k: nat)
    ensures k <= len
    ensures 0 <= end ==> k == if end < len then end else len
    ensures end < 0 ==> k == if len + end < 0 then 0 else len + end
  {
    if end < 0 then (if len + end < 0 then 0 else len + end)
    else if end < len then end
    else len
  }

  /** A prefix of a subsequence of `s` is again a subsequence of `s`. */
  lemma {:induction false} PrefixIsSubsequence<T>(r: seq<T>, s: seq<T>, k: nat)
    requires IsSubsequence(r, s)
    requires k <= |r|
    ensures IsSubsequence(r[..k], s)
    decreases |s|
  {
    if k == 0 || r == [] {
      assert r[..k] == [];
    } else if r[0] == s[0] && IsSubsequence(r[1..], s[1..]) {
      PrefixIsSubsequence(r[1..], s[1..], k - 1);
      assert r[..k][1..] == r[1..][..k - 1];
    } else {
      PrefixIsSubsequence(r, s[1..], k);
    }
  }

  /** No element occurs twice. */
  predicate Distinct<T(==)>(s: seq<T>) {
    forall i, j :: 0 <= i < j < |s| ==> s[i] != s[j]
  }

  /** Over distinct elements, the first `n` that pass a filter are taken in
      order: when a later element is among them, so is every earlier one
      that passes. */
  lemma {:induction false} TakeFilterPrefixClosed<T(!new)>(s: seq<T>, p: T -> bool, n: nat, i: int, j: int)
    requires Distinct(s)
    requires 0 <= i < j < |s| && p(s[i])
    requires s[j] in Take(Filter(s, p), n)
    ensures s[i] in Take(Filter(s, p), n)
    decreases |s|
  {
    var m := TakeFilterMembers(s, p, n);
    if i > 0 {
      DistinctTail(s);
      assert s[1..][j - 1] == s[j] && s[1..][i - 1] == s[i];
      TakeFilterPrefixClosed(s[1..], p, m, i - 1, j - 1);
    }
  }

  /** What the step below means for membership: the head is taken when it
      passes and anything is taken, and apart from the head the taken
      elements are those taken from the tail. */
  lemma TakeFilterMembers<T(!new)>(s: seq<T>, p: T -> bool, n: nat) returns (m: nat)
    requires s != []
    ensures p(s[0]) && Take(Filter(s, p), n) != [] ==> s[0] in Take(Filter(s, p), n)
    ensures forall y :: y in Take(Filter(s[1..], p), m) ==> y in Take(Filter(s, p), n)
    ensures forall y :: y in Take(Filter(s, p), n) && y != s[0] ==> y in Take(Filter(s[1..], p), m)
  {
    m := TakeFilterStep(s, p, n);
  }

  /** The first `n` elements passing a filter are the head, when it passes
      and `n` is positive, followed by the first `m` passing elements of
      the tail. */
  lemma TakeFilterStep<T(!new)>(s: seq<T>, p: T -> bool, n: nat) returns (m: nat)
    requires s != []
    ensures m <= n
    ensures n > 0 && p(s[0]) ==> m == n - 1
    ensures Take(Filter(s, p), n) ==
      (if n > 0 && p(s[0]) then [s[0]] else []) + Take(Filter(s[1..], p), m)
  {
    assert s == [s[0]] + s[1..];
    if n > 0 && p(s[0]) {
      m := n - 1;
      assert Filter(s, p) == [s[0]] + Filter(s[1..], p);
      TakeCons(s[0], Filter(s[1..], p), n);
    } else if n == 0 {
      m := 0;
    } else {
      m := n;
      assert Filter(s, p) == Filter(s[1..], p);
    }
  }

  lemma DistinctTail<T>(s: seq<T>)
    requires Distinct(s) && s != []
    ensures Distinct(s[1..])
  {
    forall a, b | 0 <= a < b < |s[1..]| ensures s[1..][a] != s[1..][b] {
      assert s[1..][a] == s[a + 1] && s[1..][b] == s[b + 1];
    }
  }

  /** Taking a positive number of elements from a non-empty sequence keeps
      its head. */
  lemma TakeCons<T>(x: T, s: seq<T>, n: nat)
    requires n > 0
    ensures Take([x] + s, n) == [x] + Take(s, n - 1)
  {
    if n - 1 < |s| {
      assert ([x] + s)[..n] == [x] + s[..n - 1];
    }
  }
}
