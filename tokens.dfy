/**
 * The string primitives of cmd/mysqlerrgen/main.go: the two tokenizer
 * helpers consumeWord and trimDelimiters, and the pieces of Go's strings
 * package they are built from (HasPrefix, IndexAny, TrimLeft).
 */
module Tokens {

  /** Where consumeWord ends a word: space, comma, tab, CR, LF and '='. */
  const WordDelimiters: set<char> := {' ', ',', '\t', '\r', '\n', '='}

  /** What trimDelimiters strips: the word delimiters without CR and LF. */
  const TrimmedDelimiters: set<char> := {' ', ',', '\t', '='}

  /** The horizontal blanks that open and split a message line. */
  const Blanks: set<char> := {' ', '\t'}

  predicate HasPrefix(s: string, p: string) {
    |p| <= |s| && s[..|p|] == p
  }

  /** `r` is what is left of `s` after dropping some of its first characters. */
  predicate IsSuffix(r: string, s: string) {
    |r| <= |s| && r == s[|s| - |r|..]
  }

  lemma SuffixTransitive(r: string, s: string, t: string)
    requires IsSuffix(r, s) && IsSuffix(s, t)
    ensures IsSuffix(r, t)
  {
    assert t[|t| - |s|..][|s| - |r|..] == t[|t| - |r|..];
  }

  lemma AppendSuffix(w: string, r: string)
    ensures IsSuffix(r, w + r)
  {
    assert (w + r)[|w|..] == r;
  }

  /** No character of `w` is a word delimiter. */
  predicate IsWord(w: string) {
    forall k :: 0 <= k < |w| ==> w[k] !in WordDelimiters
  }

  /** strings.IndexAny: the index of the first character of `s` that is in `cs`, or -1. */
  function IndexAny(s: string, cs: set<char>): (i: int)
    ensures -1 <= i < |s|
    ensures i == -1 <==> forall k :: 0 <= k < |s| ==> s[k] !in cs
    ensures 0 <= i ==> s[i] in cs && forall k :: 0 <= k < i ==> s[k] !in cs
  {
    if s == [] then -1
    else if s[0] in cs then 0
    else
      var j := IndexAny(s[1..], cs);
      if j < 0 then -1 else j + 1
  }

  /** strings.TrimLeft: `s` without its longest prefix made of characters of `cut`. */
  function TrimLeft(s: string, cut: set<char>): (r: string)
    ensures IsSuffix(r, s)
    ensures forall k :: 0 <= k < |s| - |r| ==> s[k] in cut
    ensures r == [] || r[0] !in cut
  {
    if s != [] && s[0] in cut then TrimLeft(s[1..], cut) else s
  }

  /**
   * consumeWord: splits `s` before its first word delimiter; the word is
   * all of `s` when there is none.
   */
  function ConsumeWord(s: string): (split: (string, string))
    ensures split.0 + split.1 == s
    ensures IsWord(split.0)
    ensures split.1 == [] || split.1[0] in WordDelimiters
  {
    var i := IndexAny(s, WordDelimiters);
    if i < 0 then (s, []) else (s[..i], s[i..])
  }

  /** trimDelimiters: drops a leading run of spaces, commas, tabs and '='. */
  function TrimDelimiters(s: string): (r: string)
    ensures IsSuffix(r, s)
    ensures forall k :: 0 <= k < |s| - |r| ==> s[k] in TrimmedDelimiters
    ensures r == [] || r[0] !in TrimmedDelimiters
  {
    TrimLeft(s, TrimmedDelimiters)
  }

  /**
   * The three properties of ConsumeWord's contract determine its result:
   * any split of `s` into a word and an empty or delimiter-led rest is the
   * one consumeWord returns.
   */
  lemma {:induction false} ConsumeWordUnique(s: string, w: string, rest: string)
    requires w + rest == s && IsWord(w)
    requires rest == [] || rest[0] in WordDelimiters
    ensures ConsumeWord(s) == (w, rest)
  {
    var (w', rest') := ConsumeWord(s);
    // Both words end at the first delimiter of s, or at its end.
    assert forall k :: 0 <= k < |w| ==> s[k] == w[k];
    assert forall k :: 0 <= k < |w'| ==> s[k] == w'[k];
    assert |w| < |s| ==> s[|w|] == rest[0];
    assert |w'| < |s| ==> s[|w'|] == rest'[0];
    assert |w'| == |w|;
    assert w' == s[..|w|] == w;
  }

  /** Trimming a string that was already trimmed changes nothing. */
  lemma {:induction false} TrimLeftIdempotent(s: string, cut: set<char>)
    ensures TrimLeft(TrimLeft(s, cut), cut) == TrimLeft(s, cut)
  {
    var r := TrimLeft(s, cut);
    assert r == [] || r[0] !in cut;
  }

  /** TrimLeft removes exactly a leading run of cut characters that is followed by something else. */
  lemma {:induction false} TrimLeftRun(run: string, x: string, cut: set<char>)
    requires forall k :: 0 <= k < |run| ==> run[k] in cut
    requires x == [] || x[0] !in cut
    ensures TrimLeft(run + x, cut) == x
    decreases |run|
  {
    if run != [] {
      assert (run + x)[1..] == run[1..] + x;
      TrimLeftRun(run[1..], x, cut);
    } else {
      assert run + x == x;
    }
  }

  /** trimDelimiters applied twice is trimDelimiters applied once. */
  lemma TrimDelimitersIdempotent(s: string)
    ensures TrimDelimiters(TrimDelimiters(s)) == TrimDelimiters(s)
  {
    TrimLeftIdempotent(s, TrimmedDelimiters);
  }

  /** A word that starts with a non-delimiter is never empty, and is a prefix of `s`. */
  lemma ConsumeWordNonEmpty(s: string)
    requires s != [] && s[0] !in WordDelimiters
    ensures ConsumeWord(s).0 != [] && HasPrefix(s, ConsumeWord(s).0)
  {
    var (w, rest) := ConsumeWord(s);
    assert s[..|w|] == w;
  }

  /** A prefix without delimiters survives into the first word: `s` starts with `p` iff its word does. */
  lemma {:induction false} WordKeepsPrefix(s: string, p: string)
    requires IsWord(p)
    ensures HasPrefix(ConsumeWord(s).0, p) <==> HasPrefix(s, p)
  {
    var (w, rest) := ConsumeWord(s);
    if HasPrefix(s, p) {
      // s[|w|] would be a delimiter inside p, so the word reaches past p.
      assert forall k :: 0 <= k < |p| ==> s[k] !in WordDelimiters;
      assert |w| < |s| ==> s[|w|] == rest[0];
      assert |p| <= |w|;
      assert w[..|p|] == s[..|p|];
    }
    if HasPrefix(w, p) {
      assert s[..|p|] == w[..|p|];
    }
  }
}
