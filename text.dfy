/**
 * Strings as sequences of code points, and the suffix facts the
 * Aho-Corasick construction rests on.
 *
 * The central notion is LongestSuffixIn(w, P): the longest suffix of `w`
 * that belongs to a prefix-closed set of strings `P` (the set of strings
 * spelled by the keyword trie). Failure links, the lazy transition
 * function and the matching driver are all specified through it.
 */
module Text {

  datatype Option<T> = None | Some(value: T)

  /** A text or keyword, already decoded into Unicode code points. */
  type String = seq<char>

  predicate IsPrefix(u: String, w: String) {
    |u| <= |w| && w[..|u|] == u
  }

  predicate IsSuffix(u: String, w: String) {
    |u| <= |w| && w[|w| - |u|..] == u
  }

  predicate NoDuplicates<T(==)>(s: seq<T>) {
    forall i, j :: 0 <= i < j < |s| ==> s[i] != s[j]
  }

  /** `P` contains the empty string and every string of `P` minus its last code point. */
  ghost predicate PrefixClosed(P: set<String>) {
    && [] in P
    && forall w :: w in P && w != [] ==> w[..|w| - 1] in P
  }

  /** The longest suffix of `w` that is in `P`. */
  ghost function LongestSuffixIn(w: String, P: set<String>): (r: String)
    requires [] in P
    ensures r in P && IsSuffix(r, w)
    decreases |w|
  {
    if w in P then w
    else
      var r := LongestSuffixIn(w[1..], P);
      assert w[|w| - |r|..] == w[1..][|w| - 1 - |r|..];
      r
  }

  /** A non-empty string is its prefix followed by its last code point. */
  lemma LastSplit(w: String)
    requires w != []
    ensures w == w[..|w| - 1] + [w[|w| - 1]]
  {
  }

  /** A prefix one element longer is the shorter prefix followed by that element. */
  lemma PrefixSnoc<T>(s: seq<T>, k: nat)
    requires k < |s|
    ensures s[..k + 1] == s[..k] + [s[k]]
  {
  }

  lemma SuffixTransitive(u: String, v: String, w: String)
    requires IsSuffix(u, v) && IsSuffix(v, w)
    ensures IsSuffix(u, w)
  {
    assert w[|w| - |u|..] == w[|w| - |v|..][|v| - |u|..];
  }

  /** Every suffix of `w` that is in `P` is a suffix of LongestSuffixIn(w, P): it is the longest. */
  lemma {:induction false} SuffixOfLongest(u: String, w: String, P: set<String>)
    requires [] in P && u in P && IsSuffix(u, w)
    ensures IsSuffix(u, LongestSuffixIn(w, P))
    ensures |u| <= |LongestSuffixIn(w, P)|
    decreases |w|
  {
    if w !in P {
      assert u != w;
      assert IsSuffix(u, w[1..]) by {
        assert w[1..][|w| - 1 - |u|..] == w[|w| - |u|..];
      }
      SuffixOfLongest(u, w[1..], P);
    }
  }

  /**
   * The key step of Aho and Corasick: the longest suffix in `P` of `u + [c]`
   * is found by first reducing `u` to its own longest suffix in `P`.
   */
  lemma {:induction false} LongestSuffixStep(u: String, c: char, P: set<String>)
    requires PrefixClosed(P)
    ensures LongestSuffixIn(u + [c], P) == LongestSuffixIn(LongestSuffixIn(u, P) + [c], P)
    decreases |u|
  {
    if u !in P {
      assert u != [];
      assert (u + [c])[..|u + [c]| - 1] == u;
      assert u + [c] !in P;
      assert (u + [c])[1..] == u[1..] + [c];
      LongestSuffixStep(u[1..], c, P);
    }
  }

  /**
   * When `u + [c]` is not in `P` and `u` is not empty, the search for the
   * longest suffix may drop the first code point of `u`.
   */
  lemma LongestSuffixSkip(u: String, c: char, P: set<String>)
    requires PrefixClosed(P) && u + [c] !in P && u != []
    ensures LongestSuffixIn(u + [c], P) == LongestSuffixIn(LongestSuffixIn(u[1..], P) + [c], P)
  {
    assert (u + [c])[1..] == u[1..] + [c];
    LongestSuffixStep(u[1..], c, P);
  }

  /**
   * The failure step: if `f` is the longest proper suffix in `P` of a
   * non-empty `u`, the longest proper suffix in `P` of `u + [c]` is found
   * from `f + [c]`, and is shorter than `u + [c]`.
   */
  lemma LinkStep(u: String, c: char, f: String, P: set<String>)
    requires PrefixClosed(P) && u != [] && f == LongestSuffixIn(u[1..], P)
    ensures LongestSuffixIn((u + [c])[1..], P) == LongestSuffixIn(f + [c], P)
    ensures |LongestSuffixIn((u + [c])[1..], P)| < |u + [c]|
  {
    assert (u + [c])[1..] == u[1..] + [c];
    LongestSuffixStep(u[1..], c, P);
  }

  /** A prefix-closed set holds every prefix of each of its strings. */
  lemma {:induction false} PrefixOfClosed(u: String, w: String, P: set<String>)
    requires PrefixClosed(P) && w in P && IsPrefix(u, w)
    ensures u in P
    decreases |w|
  {
    if |u| < |w| {
      var v := w[..|w| - 1];
      assert v[..|u|] == u;
      PrefixOfClosed(u, v, P);
    } else {
      assert u == w;
    }
  }
}
