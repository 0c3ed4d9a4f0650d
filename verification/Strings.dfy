/** Words at places in strings. */
module Strings {

  /** `w` stands in `s` at `pos`. */
  predicate StandsAt(s: string, pos: nat, w: string) { pos + |w| <= |s| && s[pos..pos + |w|] == w }

  lemma CharAt(s: string, pos: nat, w: string, k: nat)
    requires StandsAt(s, pos, w) && k < |w|
    ensures pos + k < |s| && s[pos + k] == w[k]
  {
    assert s[pos..pos + |w|][k] == s[pos + k];
  }

  lemma SliceOf(s: string, pos: nat, w: string, i: nat, j: nat)
    requires StandsAt(s, pos, w) && i <= j <= |w|
    ensures s[pos + i..pos + j] == w[i..j]
  {
    forall k | 0 <= k < |w| ensures s[pos + k] == w[k] { CharAt(s, pos, w, k); }
  }

  lemma ThreeParts(s: string, pos: nat, a: string, b: string, c: string)
    requires StandsAt(s, pos, a + b + c)
    ensures StandsAt(s, pos, a) && StandsAt(s, pos + |a|, b) && StandsAt(s, pos + |a| + |b|, c)
  {
    var w := a + b + c;
    SliceOf(s, pos, w, 0, |a|);
    SliceOf(s, pos, w, |a|, |a| + |b|);
    SliceOf(s, pos, w, |a| + |b|, |w|);
    assert w[0..|a|] == a && w[|a|..|a| + |b|] == b && w[|a| + |b|..|w|] == c;
  }

  lemma TwoChars(s: string, pos: nat)
    requires pos + 2 <= |s|
    ensures s[pos..pos + 2] == [s[pos], s[pos + 1]]
  {
  }
}
