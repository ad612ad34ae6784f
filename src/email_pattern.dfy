/** The email check both forms share: the regular expression `^\S+@\S+\.\S+$`
    and the scan that decides it. */
module EmailPattern {
  import opened Options
  import opened Text

  predicate NoWhitespace(s: string) {
    forall i :: 0 <= i < |s| ==> !IsWhitespace(s[i])
  }

  /** `s` splits as `a + "@" + b + "." + c` with `a`, `b`, `c` non-empty;
      `at` and `dot` are the positions of the separating characters. */
  ghost predicate SplitsAt(s: string, at: int, dot: int) {
    0 < at && at + 1 < dot && dot + 1 < |s| && s[at] == '@' && s[dot] == '.'
  }

  /** The language of `^\S+@\S+\.\S+$`: no white space anywhere, and some
      split into three non-empty runs around an '@' and a later '.'. Since
      `\S` also matches '@' and '.', any such split will do. */
  ghost predicate Matches(s: string) {
    NoWhitespace(s) && exists at, dot :: SplitsAt(s, at, dot)
  }

  /** Position of the first '@' at or after `from`. */
  function FirstAt(s: string, from: nat): (r: Option<nat>)
    ensures r.Some? ==> from <= r.value < |s| && s[r.value] == '@'
    ensures forall k :: from <= k < |s| && s[k] == '@' ==> r.Some? && r.value <= k
    decreases |s| - from
  {
    if from >= |s| then None
    else if s[from] == '@' then Some(from)
    else FirstAt(s, from + 1)
  }

  /** Whether a '.' occurs at some position in [lo, hi). */
  function DotBetween(s: string, lo: nat, hi: nat): (b: bool)
    requires hi <= |s|
    ensures b <==> exists k :: lo <= k < hi && s[k] == '.'
    decreases hi - lo
  {
    if lo >= hi then false
    else s[lo] == '.' || DotBetween(s, lo + 1, hi)
  }

  /** `/^\S+@\S+\.\S+$/.test(s)`: take the earliest '@' that has something in
      front of it and look for a '.' with something on both of its sides. */
  function Test(s: string): (b: bool)
    ensures b <==> Matches(s)
  {
    if !NoWhitespace(s) || |s| < 2 then false
    else match FirstAt(s, 1)
      case None => false
      case Some(at) =>
        if at + 2 <= |s| - 1 && DotBetween(s, at + 2, |s| - 1) then
          var dot :| at + 2 <= dot < |s| - 1 && s[dot] == '.';
          assert SplitsAt(s, at, dot);
          true
        else
          assert forall a, dot :: !SplitsAt(s, a, dot);
          false
  }
}
