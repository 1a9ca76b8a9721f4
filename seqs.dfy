/** The array built-ins the stores use (`filter`, `find`, `findIndex`), as functions on sequences. */
module Seqs {
  import opened Wrappers

  /** `sub` is obtained from `s` by deleting elements: an order-preserving sublist. */
  predicate IsSubsequence<T(==)>(sub: seq<T>, s: seq<T>)
    decreases |s|
  {
    if sub == [] then true
    else if s == [] then false
    else (sub[0] == s[0] && IsSubsequence(sub[1..], s[1..])) || IsSubsequence(sub, s[1..])
  }

  /** `Array.prototype.filter`: the elements satisfying `p`, in their original order. */
  function Filter<T(==,!new)>(s: seq<T>, p: T -> bool): (r: seq<T>)
    ensures IsSubsequence(r, s)
    ensures forall i :: 0 <= i < |r| ==> p(r[i])
    ensures forall x :: multiset(r)[x] == if p(x) then multiset(s)[x] else 0
  {
    if s == [] then []
    else
      assert s == [s[0]] + s[1..];
      if p(s[0]) then [s[0]] + Filter(s[1..], p) else Filter(s[1..], p)
  }

  /** Two predicates that agree everywhere keep the same elements. */
  lemma {:induction false} FilterAgree<T(!new)>(s: seq<T>, p: T -> bool, q: T -> bool)
    requires forall x :: p(x) == q(x)
    ensures Filter(s, p) == Filter(s, q)
  {
    if s != [] {
      FilterAgree(s[1..], p, q);
    }
  }

  /** `Array.prototype.findIndex`, with `None` for JavaScript's -1. */
  function FindIndex<T>(s: seq<T>, p: T -> bool): (r: Option<nat>)
    ensures r.None? <==> forall i :: 0 <= i < |s| ==> !p(s[i])
    ensures r.Some? ==> r.value < |s| && p(s[r.value])
    ensures r.Some? ==> forall j :: 0 <= j < r.value ==> !p(s[j])
  {
    if s == [] then None
    else if p(s[0]) then Some(0)
    else
      match FindIndex(s[1..], p)
      case None => None
      case Some(k) => Some(k + 1)
  }

  /** `Array.prototype.find`: the first element satisfying `p`, if any. */
  function Find<T>(s: seq<T>, p: T -> bool): (r: Option<T>)
    ensures r.None? <==> forall i :: 0 <= i < |s| ==> !p(s[i])
    ensures r.Some? ==> exists i :: 0 <= i < |s| && s[i] == r.value && p(s[i])
                                    && forall j :: 0 <= j < i ==> !p(s[j])
  {
    match FindIndex(s, p)
    case None => None
    case Some(i) => Some(s[i])
  }

  /** `splice(i, 1)`: the sequence without its element at `i`. */
  function RemoveAt<T>(s: seq<T>, i: nat): (r: seq<T>)
    requires i < |s|
    ensures |r| == |s| - 1
    ensures forall j :: 0 <= j < i ==> r[j] == s[j]
    ensures forall j :: i <= j < |r| ==> r[j] == s[j + 1]
  {
    s[..i] + s[i + 1..]
  }

  /** Cutting a sequence around position `idx`, with `b` at or before it. */
  lemma SplitAround<T>(s: seq<T>, b: int, idx: int)
    requires 0 <= b <= idx < |s|
    ensures s[b..] == s[b..idx] + [s[idx]] + s[idx + 1..]
    ensures s[..b] + s[b..idx] == s[..idx]
  {
  }

  /** Growing a prefix by one element. */
  lemma PrefixGrow<T>(s: seq<T>, i: int)
    requires 0 <= i < |s|
    ensures s[..i + 1][..i] == s[..i]
    ensures s[..i + 1] == s[..i] + [s[i]]
  { }

  /** Overwriting position `i` of a half-new, half-old list moves the boundary by one. */
  lemma UpdateAtBoundary<T>(done: seq<T>, stale: seq<T>, i: int)
    requires |done| == |stale| && 0 <= i < |stale|
    ensures done[..i + 1] + stale[i + 1..] == (done[..i] + stale[i..])[i := done[i]]
  { }

  /** Removing the last element of a prefix that is followed by `rest`. */
  lemma RemoveAtEndOfPrefix<T>(s: seq<T>, i: int, rest: seq<T>)
    requires 0 <= i < |s|
    ensures RemoveAt(s[..i + 1] + rest, i) == s[..i] + rest
  {
    assert (s[..i + 1] + rest)[..i] == s[..i];
    assert (s[..i + 1] + rest)[i + 1..] == rest;
  }

  /** Re-joining a prefix split at `b`. */
  lemma JoinAtSplit<T>(s: seq<T>, b: int, i: int, rest: seq<T>)
    requires 0 <= b <= i <= |s|
    ensures s[..b] + (s[b..i] + rest) == s[..i] + rest
  {
    assert s[..b] + s[b..i] == s[..i];
  }

}
