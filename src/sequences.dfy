/** `Array.prototype.filter` (and PHP's order-keeping `array_diff`): the
    elements that satisfy a predicate, in their original order. */
module Sequences {

  function Filter<T(==, !new)>(p: T -> bool, s: seq<T>): (r: seq<T>)
    ensures |r| <= |s|
    ensures forall x :: x in r <==> x in s && p(x)
    decreases |s|
  {
    if s == [] then []
    else if p(s[0]) then [s[0]] + Filter(p, s[1..])
    else Filter(p, s[1..])
  }

  /** `idx` picks the elements of `r` out of `s` at strictly increasing positions. */
  ghost predicate Embeds<T>(idx: seq<nat>, r: seq<T>, s: seq<T>) {
    && |idx| == |r|
    && (forall k :: 0 <= k < |idx| ==> idx[k] < |s| && r[k] == s[idx[k]])
    && (forall k, l :: 0 <= k < l < |idx| ==> idx[k] < idx[l])
  }

  /** `r` is `s` with some elements dropped and the others kept in order. */
  ghost predicate IsSubsequence<T>(r: seq<T>, s: seq<T>) {
    exists idx :: Embeds(idx, r, s)
  }

  function Shift(idx: seq<nat>): (r: seq<nat>)
    ensures |r| == |idx| && forall k :: 0 <= k < |idx| ==> r[k] == idx[k] + 1
  {
    seq(|idx|, k requires 0 <= k < |idx| => idx[k] + 1)
  }

  /** An embedding into the tail of `s` is one into `s`, one position later,
      and can be extended by the head of `s`. */
  lemma ShiftEmbeds<T>(idx: seq<nat>, r: seq<T>, s: seq<T>)
    requires s != [] && Embeds(idx, r, s[1..])
    ensures Embeds(Shift(idx), r, s)
    ensures Embeds([0] + Shift(idx), [s[0]] + r, s)
  {
    var sh := Shift(idx);
    assert Embeds(sh, r, s);
    var ext, r' := [0] + sh, [s[0]] + r;
    forall k | 0 <= k < |ext|
      ensures ext[k] < |s| && r'[k] == s[ext[k]]
    {
      if k > 0 { assert ext[k] == sh[k - 1] && r'[k] == r[k - 1]; }
    }
  }

  /** Filtering keeps the surviving elements in their original order. */
  lemma {:induction false} FilterIsSubsequence<T(!new)>(p: T -> bool, s: seq<T>)
    ensures IsSubsequence(Filter(p, s), s)
    decreases |s|
  {
    if s == [] {
      assert Embeds([], Filter(p, s), s);
    } else {
      FilterIsSubsequence(p, s[1..]);
      var tail := Filter(p, s[1..]);
      var idx :| Embeds(idx, tail, s[1..]);
      ShiftEmbeds(idx, tail, s);
      if p(s[0]) {
        assert Embeds([0] + Shift(idx), Filter(p, s), s);
      } else {
        assert Embeds(Shift(idx), Filter(p, s), s);
      }
    }
  }

  /** Filtering with a predicate that holds everywhere in `s` returns `s` itself. */
  lemma {:induction false} FilterAll<T(!new)>(p: T -> bool, s: seq<T>)
    requires forall x :: x in s ==> p(x)
    ensures Filter(p, s) == s
    decreases |s|
  {
    if s != [] {
      assert forall x :: x in s[1..] ==> x in s;
      FilterAll(p, s[1..]);
      assert [s[0]] + s[1..] == s;
    }
  }

  /** Two filter stages in a row keep exactly what the conjunction `pq` of
      their predicates keeps. */
  lemma {:induction false} FilterFilter<T(!new)>(p: T -> bool, q: T -> bool, pq: T -> bool, s: seq<T>)
    requires forall x :: x in s ==> pq(x) == (p(x) && q(x))
    ensures Filter(q, Filter(p, s)) == Filter(pq, s)
    decreases |s|
  {
    if s != [] {
      assert forall x :: x in s[1..] ==> x in s;
      FilterFilter(p, q, pq, s[1..]);
    }
  }

  /** The filter depends on the predicate only through its values on `s`. */
  lemma {:induction false} FilterCongruent<T(!new)>(p: T -> bool, q: T -> bool, s: seq<T>)
    requires forall x :: x in s ==> p(x) == q(x)
    ensures Filter(p, s) == Filter(q, s)
    decreases |s|
  {
    if s != [] {
      assert forall x :: x in s[1..] ==> x in s;
      FilterCongruent(p, q, s[1..]);
    }
  }

  /** `rel` holds between every element of `s` and every later one. */
  ghost predicate Pairwise<T>(rel: (T, T) -> bool, s: seq<T>) {
    forall i, j :: 0 <= i < j < |s| ==> rel(s[i], s[j])
  }

  /** A relation that holds between every earlier and later element of `s`
      still holds on any subsequence of `s`, in particular on what a filter keeps. */
  lemma SubsequenceKeepsPairwise<T>(rel: (T, T) -> bool, r: seq<T>, s: seq<T>)
    requires IsSubsequence(r, s) && Pairwise(rel, s)
    ensures Pairwise(rel, r)
  {
    var idx :| Embeds(idx, r, s);
    forall i, j | 0 <= i < j < |r|
      ensures rel(r[i], r[j])
    {
      assert r[i] == s[idx[i]] && r[j] == s[idx[j]] && idx[i] < idx[j];
    }
  }

  /** The filter drops something exactly when some element fails the
      predicate; otherwise it returns `s` unchanged. */
  lemma {:induction false} FilterShrinks<T(!new)>(p: T -> bool, s: seq<T>)
    ensures |Filter(p, s)| < |s| <==> exists x :: x in s && !p(x)
    ensures |Filter(p, s)| == |s| ==> Filter(p, s) == s
    decreases |s|
  {
    if s != [] {
      FilterShrinks(p, s[1..]);
      assert forall x :: x in s <==> x == s[0] || x in s[1..];
      if p(s[0]) {
        assert Filter(p, s) == [s[0]] + Filter(p, s[1..]);
      }
    }
  }
}
