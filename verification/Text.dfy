/** Substrings at a position and the first-occurrence search of std::string::find. */
module Text {
  import opened Wrappers

  /** The word `w` stands in `t` at position `p`. */
  predicate HasAt(t: string, p: nat, w: string) {
    p + |w| <= |t| && t[p..p + |w|] == w
  }

  lemma {:induction false} HasAtSplit(t: string, p: nat, a: string, b: string)
    ensures HasAt(t, p, a + b) <==> HasAt(t, p, a) && HasAt(t, p + |a|, b)
  {
    if p + |a| + |b| <= |t| {
      var x, y := t[p..p + |a|], t[p + |a|..p + |a| + |b|];
      assert t[p..p + |a + b|] == x + y;
      assert (x + y)[..|a|] == x && (x + y)[|a|..] == y;
      assert (a + b)[..|a|] == a && (a + b)[|a|..] == b;
    }
  }

  lemma {:induction false} HasAtChar(t: string, p: nat, w: string, i: nat)
    requires HasAt(t, p, w) && i < |w|
    ensures p + i < |t| && t[p + i] == w[i]
  {
    assert t[p..p + |w|][i] == w[i];
  }

  /** First position at or after `from` where `w` stands, as std::string::find(w, from). */
  function Find(t: string, w: string, from: nat): (r: Option<nat>)
    ensures r.None? ==> forall q :: from <= q <= |t| ==> !HasAt(t, q, w)
    ensures r.Some? ==> from <= r.value && HasAt(t, r.value, w)
    ensures r.Some? ==> forall q :: from <= q < r.value ==> !HasAt(t, q, w)
    decreases |t| - from
  {
    if from > |t| then None
    else if HasAt(t, from, w) then Some(from)
    else Find(t, w, from + 1)
  }

  /** The first position of a character, or the length. */
  function Position(s: string, c: char): (p: nat)
    ensures p <= |s| && (p < |s| ==> s[p] == c) && forall i :: 0 <= i < p ==> s[i] != c
  {
    if s == "" || s[0] == c then 0 else 1 + Position(s[1..], c)
  }

  predicate EndsWith(s: string, w: string) {
    |w| <= |s| && s[|s| - |w|..] == w
  }
}
