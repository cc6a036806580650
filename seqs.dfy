/** Sequence operations that the services use on Python lists: the prefix
    slice `s[:n]`, the order-preserving filter of a list comprehension, and
    the notion of an order-preserving sub-list. */
module Seqs {

  /** Python's `s[:n]` for `n >= 0`: the first `n` elements, or all of `s` when it is shorter. */
  function Take<T>(s: seq<T>, n: nat): (r: seq<T>)
    ensures |r| == if |s| <= n then |s| else n
    ensures r == s[..|r|]
  {
    if |s| <= n then s else s[..n]
  }

  /** `[x for x in s if p(x)]`. Written from the back, so that extending `s`
      by one element extends the result by at most that element. */
  function Filter<T>(p: T -> bool, s: seq<T>): (r: seq<T>)
    ensures |r| <= |s|
    decreases |s|
  {
    if s == [] then []
    else
      var init := Filter(p, s[..|s| - 1]);
      if p(s[|s| - 1]) then init + [s[|s| - 1]] else init
  }

  /** The filtered list holds exactly the elements of `s` that pass `p`. */
  lemma {:induction false} FilterMembers<T>(p: T -> bool, s: seq<T>)
    ensures forall k :: 0 <= k < |Filter(p, s)| ==> Filter(p, s)[k] in s && p(Filter(p, s)[k])
    ensures forall k :: 0 <= k < |s| && p(s[k]) ==> s[k] in Filter(p, s)
    decreases |s|
  {
    if s != [] {
      var n := |s| - 1;
      FilterMembers(p, s[..n]);
      assert s == s[..n] + [s[n]];
    }
  }

  predicate NoDuplicates<T(==)>(s: seq<T>) {
    forall i, j :: 0 <= i < j < |s| ==> s[i] != s[j]
  }

  /** `idx` lists, in increasing order, the positions of `ys` at which the elements of `xs` occur. */
  ghost predicate Embeds<T>(idx: seq<nat>, xs: seq<T>, ys: seq<T>) {
    && |idx| == |xs|
    && (forall k :: 0 <= k < |idx| ==> idx[k] < |ys| && ys[idx[k]] == xs[k])
    && (forall k, l :: 0 <= k < l < |idx| ==> idx[k] < idx[l])
  }

  /** `xs` is obtained from `ys` by deleting elements, keeping the order of the rest. */
  ghost predicate IsSubsequence<T>(xs: seq<T>, ys: seq<T>) {
    exists idx :: Embeds(idx, xs, ys)
  }

  /** Filtering keeps the survivors in their original order. */
  lemma {:induction false} FilterIsSubsequence<T>(p: T -> bool, s: seq<T>)
    ensures IsSubsequence(Filter(p, s), s)
    decreases |s|
  {
    if s == [] {
      assert Embeds([], Filter(p, s), s);
    } else {
      var n := |s| - 1;
      FilterIsSubsequence(p, s[..n]);
      var idx :| Embeds(idx, Filter(p, s[..n]), s[..n]);
      if p(s[n]) {
        assert Embeds(idx + [n], Filter(p, s), s);
      } else {
        assert Embeds(idx, Filter(p, s), s);
      }
    }
  }

  /** A prefix of a sub-list is a sub-list. */
  lemma TakeIsSubsequence<T>(xs: seq<T>, ys: seq<T>, n: nat)
    requires IsSubsequence(xs, ys)
    ensures IsSubsequence(Take(xs, n), ys)
  {
    var idx :| Embeds(idx, xs, ys);
    assert Embeds(idx[..|Take(xs, n)|], Take(xs, n), ys);
  }

  /** Filtering a prefix of `s` gives a prefix of the filtered `s`. */
  lemma {:induction false} FilterOfPrefix<T>(p: T -> bool, s: seq<T>, i: nat)
    requires i <= |s|
    ensures |Filter(p, s[..i])| <= |Filter(p, s)|
    ensures Filter(p, s[..i]) == Filter(p, s)[..|Filter(p, s[..i])|]
    decreases |s|
  {
    if i < |s| {
      var n := |s| - 1;
      assert s[..n][..i] == s[..i];
      FilterOfPrefix(p, s[..n], i);
    } else {
      assert s[..i] == s;
    }
  }

  /** Once a prefix of `s` yields `n` survivors, the first `n` survivors of `s` are known. */
  lemma TakeFilterReached<T>(p: T -> bool, s: seq<T>, j: nat, n: nat)
    requires j <= |s| && |Filter(p, s[..j])| == n
    ensures Take(Filter(p, s), n) == Filter(p, s[..j])
  {
    FilterOfPrefix(p, s, j);
  }

  /** The loop `for x in s: if p(x): r.append(x); if len(r) >= cap: break`:
      the first `cap` elements of `s` that pass `p`, in order. */
  method TakeFiltered<T>(s: seq<T>, p: T -> bool, cap: nat) returns (r: seq<T>)
    requires cap > 0
    ensures r == Take(Filter(p, s), cap)
  {
    r := [];
    for i := 0 to |s|
      invariant r == Filter(p, s[..i])
      invariant |r| < cap
    {
      FilterStep(p, s, i);
      if p(s[i]) {
        r := r + [s[i]];
      }
      if |r| >= cap {
        TakeFilterReached(p, s, i + 1, cap);
        break;
      }
    }
    assert s[..|s|] == s;
  }

  /** Extending the filtered prefix by one more element. */
  lemma FilterStep<T>(p: T -> bool, s: seq<T>, i: nat)
    requires i < |s|
    ensures Filter(p, s[..i + 1]) == Filter(p, s[..i]) + (if p(s[i]) then [s[i]] else [])
  {
    assert s[..i + 1][..i] == s[..i];
  }

  /** Prepending an element keeps the last two elements. */
  lemma ConsKeepsLastTwo<T>(h: T, r: seq<T>)
    requires |r| >= 2
    ensures var p := [h] + r;
      |p| >= 3 && p[|p| - 2] == r[|r| - 2] && p[|p| - 1] == r[|r| - 1]
  {
  }

  /** Replacing the first of at least three elements keeps the last two. */
  lemma ReplaceHeadKeepsLastTwo<T>(h: T, r: seq<T>)
    requires |r| >= 3
    ensures var p := [h] + r[1..];
      |p| >= 3 && p[|p| - 2] == r[|r| - 2] && p[|p| - 1] == r[|r| - 1]
  {
  }
}
