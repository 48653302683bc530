/** Small facts about strings (sequences of characters) shared by the argument modules. */
module Strings {
  import opened Options

  /** True iff `p` is a prefix of `s`. */
  predicate HasPrefix(s: string, p: string) {
    |p| <= |s| && s[..|p|] == p
  }

  lemma PrefixOfConcat(p: string, x: string)
    ensures HasPrefix(p + x, p)
  {
    assert (p + x)[..|p|] == p;
  }

  /** Two texts that disagree at some position cannot both be prefixes of the same string. */
  lemma PrefixesDisagree(s: string, p: string, q: string, i: nat)
    requires i < |p| && i < |q| && p[i] != q[i]
    requires HasPrefix(s, p)
    ensures !HasPrefix(s, q)
  {
    assert s[..|p|][i] == s[i];
  }

  /** True iff `s` holds the two characters `a`, `b` next to each other at position `k`. */
  predicate PairAt(s: string, k: int, a: char, b: char) {
    0 <= k && k + 1 < |s| && s[k] == a && s[k + 1] == b
  }

  /** True iff `a` is never directly followed by `b` in `s`. */
  predicate NoPair(s: string, a: char, b: char) {
    forall k :: 0 <= k < |s| ==> !PairAt(s, k, a, b)
  }

  /** Position of the first `a` directly followed by `b` in `s`, if any. */
  function IndexOfPair(s: string, a: char, b: char): (r: Option<nat>)
    ensures r.None? <==> NoPair(s, a, b)
    ensures r.Some? ==> PairAt(s, r.value, a, b) && forall k :: 0 <= k < r.value ==> !PairAt(s, k, a, b)
  {
    if |s| < 2 then None
    else if s[0] == a && s[1] == b then
      assert PairAt(s, 0, a, b);
      Some(0)
    else
      match IndexOfPair(s[1..], a, b)
      case None =>
        assert forall k :: PairAt(s, k, a, b) ==> k == 0 || PairAt(s[1..], k - 1, a, b);
        None
      case Some(k) =>
        assert forall j :: 0 < j <= k + 1 ==> PairAt(s, j, a, b) == PairAt(s[1..], j - 1, a, b);
        assert PairAt(s, k + 1, a, b);
        Some(k + 1)
  }

  /**
    The first `a b` in `x + y` is the head of `y` when `x` holds no `a b`
    and, `a` and `b` being different, none can straddle the joint.
  */
  lemma IndexOfPairAfter(x: string, y: string, a: char, b: char)
    requires NoPair(x, a, b) && a != b
    requires |y| >= 2 && y[0] == a && y[1] == b
    ensures IndexOfPair(x + y, a, b) == Some(|x|)
  {
    var s := x + y;
    assert PairAt(s, |x|, a, b);
    var r := IndexOfPair(s, a, b);
    if r.value < |x| {
      if r.value + 1 < |x| {
        assert PairAt(x, r.value, a, b);
      }
    }
  }

  /** The pieces of `p + x + q` can be cut back out by their lengths. */
  lemma ConcatPieces(p: string, x: string, q: string)
    ensures (p + x + q)[..|p|] == p
    ensures (p + x + q)[|p|..|p| + |x|] == x
  {
    assert (p + x + q)[..|p|] == p;
    assert (p + x + q)[|p|..|p| + |x|] == x;
  }

  /** A text of the form `x='y'` split around its first two and its last character. */
  lemma SplitQuoted(body: string, k: nat)
    requires k + 3 <= |body| && body[k] == '=' && body[k + 1] == '\'' && body[|body| - 1] == '\''
    ensures body == body[..k] + "='" + body[k + 2..|body| - 1] + "'"
  {
    var n := |body|;
    assert body[k..k + 2] == "='";
    assert body[n - 1..] == "'";
    assert body == body[..k] + body[k..k + 2] + body[k + 2..n - 1] + body[n - 1..];
  }
}
