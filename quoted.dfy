/**
 * parseQuoted (main.go:189-218): decodes the text of a message line that
 * follows its opening double quote, up to the first unescaped closing
 * quote. Unquote is the decoder exactly as the Go code behaves and
 * ParseQuoted is its loop. UnquoteIntended is the decoder that the
 * octal-escape code was evidently meant to be, ParseQuotedIntended the loop
 * with that correction. The scanner decodes messages as the program does,
 * with Unquote.
 */
module Quoted {
  import opened Outcomes

  type uint8 = x: int | 0 <= x < 256

  /**
   * What the decoder writes into its strings.Builder: one byte
   * (WriteByte) or one code point, written as its UTF-8 encoding (WriteRune).
   */
  datatype Piece = RawByte(b: uint8) | Char(c: char)

  function Cons(x: Piece, o: Option<seq<Piece>>): Option<seq<Piece>> {
    Prepend([x], o)
  }

  predicate IsOctalDigit(c: char) {
    '0' <= c <= '7'
  }

  /**
   * n = n*8 + (r - '0') over the runes of `ds` from left to right; a rune
   * that is no digit contributes its distance from '0', which may be negative.
   */
  function OctalValue(ds: string): int {
    if ds == [] then 0 else OctalValue(ds[..|ds| - 1]) * 8 + (ds[|ds| - 1] as int - '0' as int)
  }

  lemma OctalValueOfThree(a: char, b: char, c: char)
    ensures OctalValue([a, b, c])
         == ((a as int - '0' as int) * 8 + (b as int - '0' as int)) * 8 + (c as int - '0' as int)
  {
    assert [a, b, c][..2] == [a, b];
    assert [a, b][..1] == [a];
    assert [a][..0] == [];
    assert OctalValue([a]) == a as int - '0' as int;
    assert OctalValue([a, b]) == OctalValue([a]) * 8 + (b as int - '0' as int);
  }

  /**
   * The decoder as written. None is the "unexpected EOL" panic. After a
   * backslash and a digit 0-7 it takes three runes whatever they are (its
   * guard against non-digits can never hold), writes their value modulo 256
   * as one byte, and then its outer loop steps over one more rune unseen.
   */
  function Unquote(r: string): Option<seq<Piece>>
    decreases |r|
  {
    if r == [] then None
    else if r[0] == '"' then Some([])
    else if r[0] == '\\' && 2 <= |r| then
      if r[1] == 'n' then Cons(RawByte(10), Unquote(r[2..]))
      else if IsOctalDigit(r[1]) then
        if |r| < 5 then None
        else Cons(RawByte(OctalValue(r[1..4]) % 256), Unquote(r[5..]))
      else Cons(Char(r[1]), Unquote(r[2..]))
    else Cons(Char(r[0]), Unquote(r[1..]))
  }

  /** What is left to decode from index `i`; the loop can step one past the end, where nothing is. */
  function From(r: string, i: int): Option<seq<Piece>> {
    if 0 <= i <= |r| then Unquote(r[i..]) else None
  }

  /** A closing quote at `i` ends the text there. */
  lemma FromQuote(r: string, i: nat)
    requires i < |r| && r[i] == '"'
    ensures From(r, i) == Some([])
  {
  }

  /** A rune at `i` that opens no escape is written as it is. */
  lemma FromPlain(r: string, i: nat)
    requires i < |r| && r[i] != '"' && !(r[i] == '\\' && i + 1 < |r|)
    ensures From(r, i) == Cons(Char(r[i]), From(r, i + 1))
  {
    assert r[i..][1..] == r[i + 1..];
  }

  /** "\n" at `i` is the byte 10. */
  lemma FromNewline(r: string, i: nat)
    requires i + 1 < |r| && r[i] == '\\' && r[i + 1] == 'n'
    ensures From(r, i) == Cons(RawByte(10), From(r, i + 2))
  {
    assert r[i..][2..] == r[i + 2..];
  }

  /** A backslash and any other rune that is no octal digit is that rune. */
  lemma FromEscapedChar(r: string, i: nat)
    requires i + 1 < |r| && r[i] == '\\' && r[i + 1] != 'n' && !IsOctalDigit(r[i + 1])
    ensures From(r, i) == Cons(Char(r[i + 1]), From(r, i + 2))
  {
    assert r[i..][2..] == r[i + 2..];
  }

  /** A backslash and an octal digit: one byte from three runes, then one rune skipped. */
  lemma FromOctal(r: string, i: nat)
    requires i + 1 < |r| && r[i] == '\\' && IsOctalDigit(r[i + 1])
    ensures i + 5 <= |r| ==> From(r, i) == Cons(RawByte(OctalValue(r[i + 1..i + 4]) % 256), From(r, i + 5))
    ensures i + 5 > |r| ==> From(r, i) == None
  {
    if i + 5 <= |r| {
      assert r[i..][1..4] == r[i + 1..i + 4];
      assert r[i..][5..] == r[i + 5..];
    }
  }

  /**
   * The octal loop as written (main.go:203-209): three runes from `start`,
   * or fewer at the end of the input, whatever they are.
   */
  method ReadOctalAsWritten(r: string, start: nat) returns (n: int, next: nat)
    requires start <= |r|
    ensures next == if start + 3 <= |r| then start + 3 else |r|
    ensures n == OctalValue(r[start..next])
  {
    var i := start;
    var j := 0;
    n := 0;
    while j < 3 && i < |r|
      invariant start <= i <= |r| && j == i - start && j <= 3
      invariant n == OctalValue(r[start..i])
    {
      if r[i] < '0' && '7' < r[i] {
        // The source's early exit: its condition cannot hold.
        assert false;
      }
      assert r[start..i + 1][..i - start] == r[start..i];
      n := n * 8 + (r[i] as int - '0' as int);
      i, j := i + 1, j + 1;
    }
    next := i;
  }

  /** parseQuoted, with its strings.Builder as the sequence `b`. */
  method ParseQuoted(s: string) returns (res: Option<seq<Piece>>)
    ensures res == Unquote(s)
  {
    var r := s;
    var b: seq<Piece> := [];
    var i := 0;
    while i < |r|
      invariant 0 <= i <= |r| + 1
      invariant Unquote(r) == Prepend(b, From(r, i))
      decreases |r| + 1 - i
    {
      ghost var i0 := i;
      if r[i] == '"' {
        FromQuote(r, i);
        assert b + [] == b;
        return Some(b);
      }
      // What this round writes into the builder.
      var piece: Piece;
      if r[i] == '\\' && i + 1 < |r| {
        i := i + 1;
        if r[i] == 'n' {
          FromNewline(r, i0);
          piece := RawByte(10);
        } else if IsOctalDigit(r[i]) {
          FromOctal(r, i0);
          var n;
          n, i := ReadOctalAsWritten(r, i);
          piece := RawByte(n % 256);
        } else {
          FromEscapedChar(r, i0);
          piece := Char(r[i]);
        }
      } else {
        FromPlain(r, i0);
        piece := Char(r[i]);
      }
      PrependTwice(b, [piece], From(r, i + 1));
      b := b + [piece];
      i := i + 1;
    }
    return None;
  }

  /** The text itself as decoded pieces: one Char per rune. */
  function Chars(t: string): (p: seq<Piece>)
    ensures |p| == |t| && forall k :: 0 <= k < |t| ==> p[k] == Char(t[k])
  {
    if t == [] then [] else [Char(t[0])] + Chars(t[1..])
  }

  /** Text with no quote and no backslash, then a quote, decodes to that text. */
  lemma {:induction false} UnquotePlainText(t: string, tail: string)
    requires forall k :: 0 <= k < |t| ==> t[k] != '"' && t[k] != '\\'
    ensures Unquote(t + ['"'] + tail) == Some(Chars(t))
  {
    if t != [] {
      assert (t + ['"'] + tail)[1..] == t[1..] + ['"'] + tail;
      UnquotePlainText(t[1..], tail);
    }
  }

  /** Without any quote character the decoder reaches the end of the input and fails. */
  lemma {:induction false} UnquoteWithoutQuoteFails(r: string)
    requires forall k :: 0 <= k < |r| ==> r[k] != '"'
    ensures Unquote(r) == None
    decreases |r|
  {
    if r == [] {
    } else if r[0] == '\\' && 2 <= |r| {
      if r[1] == 'n' || !IsOctalDigit(r[1]) {
        UnquoteWithoutQuoteFails(r[2..]);
      } else if 5 <= |r| {
        UnquoteWithoutQuoteFails(r[5..]);
      }
    } else {
      UnquoteWithoutQuoteFails(r[1..]);
    }
  }

  /** Puts a backslash before every quote and every backslash of `t`. */
  function Escape(t: string): (e: string)
    ensures |t| <= |e|
  {
    if t == [] then []
    else if t[0] == '"' || t[0] == '\\' then ['\\', t[0]] + Escape(t[1..])
    else [t[0]] + Escape(t[1..])
  }

  /** An escaped quote or backslash decodes to that character. */
  lemma UnquoteEscapedChar(c: char, rest: string)
    requires c == '"' || c == '\\'
    ensures Unquote(['\\', c] + rest) == Cons(Char(c), Unquote(rest))
  {
    assert (['\\', c] + rest)[2..] == rest;
  }

  /** A character other than a quote or a backslash decodes to itself. */
  lemma UnquotePlainChar(c: char, rest: string)
    requires c != '"' && c != '\\'
    ensures Unquote([c] + rest) == Cons(Char(c), Unquote(rest))
  {
    assert ([c] + rest)[1..] == rest;
  }

  /** The first character of escaped text decodes to itself, and decoding goes on with the rest. */
  lemma UnquoteEscapeStep(t: string, tail: string)
    requires t != []
    ensures Unquote(Escape(t) + ['"'] + tail) == Cons(Char(t[0]), Unquote(Escape(t[1..]) + ['"'] + tail))
  {
    var rest := Escape(t[1..]) + ['"'] + tail;
    if t[0] == '"' || t[0] == '\\' {
      assert Escape(t) + ['"'] + tail == ['\\', t[0]] + rest;
      UnquoteEscapedChar(t[0], rest);
    } else {
      assert Escape(t) + ['"'] + tail == [t[0]] + rest;
      UnquotePlainChar(t[0], rest);
    }
  }

  /**
   * Any text, escaped and closed by a quote, decodes back to itself: an
   * escaped rune other than 'n' and 0-7 is copied without its backslash.
   */
  lemma {:induction false} UnquoteEscapeRoundTrip(t: string, tail: string)
    ensures Unquote(Escape(t) + ['"'] + tail) == Some(Chars(t))
  {
    if t == [] {
      assert Escape(t) + ['"'] + tail == ['"'] + tail;
    } else {
      UnquoteEscapeStep(t, tail);
      UnquoteEscapeRoundTrip(t[1..], tail);
      assert Chars(t) == [Char(t[0])] + Chars(t[1..]);
    }
  }

  /** "\n" yields the single byte 10 and decoding goes on right after it. */
  lemma UnquoteNewline(tail: string)
    ensures Unquote(['\\', 'n'] + tail) == Cons(RawByte(10), Unquote(tail))
  {
    assert (['\\', 'n'] + tail)[2..] == tail;
  }

  /**
   * An escape opened by 0-7 yields exactly one byte, made from the next
   * three runes, and decoding resumes one rune after them.
   */
  lemma UnquoteOctalEscape(d: char, tail: string)
    requires IsOctalDigit(d) && 3 <= |tail|
    ensures Unquote(['\\', d] + tail)
         == Cons(RawByte(OctalValue([d, tail[0], tail[1]]) % 256), Unquote(tail[3..]))
  {
    var r := ['\\', d] + tail;
    EscapeSlices(d, tail);
    UnquoteOctalStep(r);
  }

  lemma EscapeSlices(d: char, tail: string)
    requires 3 <= |tail|
    ensures (['\\', d] + tail)[1..4] == [d, tail[0], tail[1]]
    ensures (['\\', d] + tail)[5..] == tail[3..]
  {
  }

  lemma UnquoteOctalStep(r: string)
    requires 5 <= |r| && r[0] == '\\' && IsOctalDigit(r[1])
    ensures Unquote(r) == Cons(RawByte(OctalValue(r[1..4]) % 256), Unquote(r[5..]))
  {
  }

  /** A lone backslash at the end is written as it is, and then the input has run out. */
  lemma UnquoteTrailingBackslash(t: string)
    requires forall k :: 0 <= k < |t| ==> t[k] != '"' && t[k] != '\\'
    ensures Unquote(t + ['\\']) == None
  {
    UnquoteWithoutQuoteFails(t + ['\\']);
  }

  // ---- The octal escape as it was evidently meant to work ----

  /** How many of the first runes of `s`, at most three, are octal digits. */
  function OctalRun(s: string): (k: nat)
    ensures k <= 3 && k <= |s|
    ensures forall j :: 0 <= j < k ==> IsOctalDigit(s[j])
    ensures k < 3 && k < |s| ==> !IsOctalDigit(s[k])
  {
    if |s| < 1 || !IsOctalDigit(s[0]) then 0
    else if |s| < 2 || !IsOctalDigit(s[1]) then 1
    else if |s| < 3 || !IsOctalDigit(s[2]) then 2
    else 3
  }

  /**
   * The decoder with the octal loop stopping at the first non-digit and
   * without the extra step after it: one to three digits make one byte, and
   * decoding resumes at the rune right after them.
   */
  function UnquoteIntended(r: string): Option<seq<Piece>>
    decreases |r|
  {
    if r == [] then None
    else if r[0] == '"' then Some([])
    else if r[0] == '\\' && 2 <= |r| then
      if r[1] == 'n' then Cons(RawByte(10), UnquoteIntended(r[2..]))
      else if IsOctalDigit(r[1]) then
        var k := OctalRun(r[1..]);
        Cons(RawByte(OctalValue(r[1..1 + k]) % 256), UnquoteIntended(r[1 + k..]))
      else Cons(Char(r[1]), UnquoteIntended(r[2..]))
    else Cons(Char(r[0]), UnquoteIntended(r[1..]))
  }

  /** OctalRun is the only count with its three properties. */
  lemma OctalRunIs(s: string, k: nat)
    requires k <= 3 && k <= |s|
    requires forall j :: 0 <= j < k ==> IsOctalDigit(s[j])
    requires k < 3 && k < |s| ==> !IsOctalDigit(s[k])
    ensures OctalRun(s) == k
  {
  }

  /** What the intended decoder has left to decode from index `i`. */
  function FromIntended(r: string, i: int): Option<seq<Piece>> {
    if 0 <= i <= |r| then UnquoteIntended(r[i..]) else None
  }

  lemma IntendedFromPlain(r: string, i: nat)
    requires i < |r| && r[i] != '"' && !(r[i] == '\\' && i + 1 < |r|)
    ensures FromIntended(r, i) == Cons(Char(r[i]), FromIntended(r, i + 1))
  {
    assert r[i..][1..] == r[i + 1..];
  }

  lemma IntendedFromEscape(r: string, i: nat)
    requires i + 1 < |r| && r[i] == '\\' && !IsOctalDigit(r[i + 1])
    ensures FromIntended(r, i)
         == Cons(if r[i + 1] == 'n' then RawByte(10) else Char(r[i + 1]), FromIntended(r, i + 2))
  {
    assert r[i..][2..] == r[i + 2..];
  }

  lemma IntendedFromOctal(r: string, i: nat)
    requires i + 1 < |r| && r[i] == '\\' && IsOctalDigit(r[i + 1])
    ensures var k := OctalRun(r[i + 1..]);
      && 1 <= k && i + 1 + k <= |r|
      && FromIntended(r, i) == Cons(RawByte(OctalValue(r[i + 1..i + 1 + k]) % 256), FromIntended(r, i + 1 + k))
  {
    var t := r[i..];
    var k := OctalRun(r[i + 1..]);
    assert t[1..] == r[i + 1..];
    assert t[1..1 + k] == r[i + 1..i + 1 + k];
    assert t[1 + k..] == r[i + 1 + k..];
  }

  /**
   * The corrected octal loop: up to three octal digits from `start`, which
   * holds one; `next` is the index of the first rune after them.
   */
  method ReadOctal(r: string, start: nat) returns (n: int, next: nat)
    requires start < |r| && IsOctalDigit(r[start])
    ensures next == start + OctalRun(r[start..]) && next <= |r|
    ensures n == OctalValue(r[start..next])
  {
    ghost var digits := r[start..];
    var i := start;
    var j := 0;
    n := 0;
    while j < 3 && i < |r| && IsOctalDigit(r[i])
      invariant start <= i <= |r| && j == i - start && j <= 3
      invariant forall m :: 0 <= m < j ==> IsOctalDigit(digits[m])
      invariant n == OctalValue(r[start..i])
    {
      assert r[start..i + 1][..i - start] == r[start..i];
      n := n * 8 + (r[i] as int - '0' as int);
      i, j := i + 1, j + 1;
    }
    OctalRunIs(digits, j);
    next := i;
  }

  /**
   * parseQuoted with its octal loop corrected: the loop breaks at the first
   * rune that is no octal digit, and `i` is stepped back after it so that
   * the outer loop resumes right after the digits.
   */
  method ParseQuotedIntended(s: string) returns (res: Option<seq<Piece>>)
    ensures res == UnquoteIntended(s)
  {
    var r := s;
    var b: seq<Piece> := [];
    var i := 0;
    while i < |r|
      invariant 0 <= i <= |r|
      invariant UnquoteIntended(r) == Prepend(b, FromIntended(r, i))
      decreases |r| - i
    {
      ghost var i0 := i;
      if r[i] == '"' {
        assert r[i..][0] == '"' && b + [] == b;
        return Some(b);
      }
      var piece: Piece;
      if r[i] == '\\' && i + 1 < |r| {
        i := i + 1;
        if IsOctalDigit(r[i]) {
          var n;
          n, i := ReadOctal(r, i);
          IntendedFromOctal(r, i0);
          i := i - 1;
          piece := RawByte(n % 256);
        } else {
          IntendedFromEscape(r, i0);
          piece := if r[i] == 'n' then RawByte(10) else Char(r[i]);
        }
      } else {
        IntendedFromPlain(r, i0);
        piece := Char(r[i]);
      }
      PrependTwice(b, [piece], FromIntended(r, i + 1));
      b := b + [piece];
      i := i + 1;
    }
    return None;
  }

  lemma IntendedEscapeStep(t: string, tail: string)
    requires t != []
    ensures UnquoteIntended(Escape(t) + ['"'] + tail)
         == Cons(Char(t[0]), UnquoteIntended(Escape(t[1..]) + ['"'] + tail))
  {
    var rest := Escape(t[1..]) + ['"'] + tail;
    if t[0] == '"' || t[0] == '\\' {
      assert Escape(t) + ['"'] + tail == ['\\', t[0]] + rest;
      IntendedEscapedChar(t[0], rest);
    } else {
      assert Escape(t) + ['"'] + tail == [t[0]] + rest;
      IntendedPlainChar(t[0], rest);
    }
  }

  lemma IntendedEscapedChar(c: char, rest: string)
    requires c == '"' || c == '\\'
    ensures UnquoteIntended(['\\', c] + rest) == Cons(Char(c), UnquoteIntended(rest))
  {
    assert (['\\', c] + rest)[2..] == rest;
  }

  lemma IntendedPlainChar(c: char, rest: string)
    requires c != '"' && c != '\\'
    ensures UnquoteIntended([c] + rest) == Cons(Char(c), UnquoteIntended(rest))
  {
    assert ([c] + rest)[1..] == rest;
  }

  /** The corrected decoder reads escaped text back just as the decoder as written does. */
  lemma {:induction false} IntendedEscapeRoundTrip(t: string, tail: string)
    ensures UnquoteIntended(Escape(t) + ['"'] + tail) == Some(Chars(t))
  {
    if t == [] {
      assert Escape(t) + ['"'] + tail == ['"'] + tail;
    } else {
      IntendedEscapeStep(t, tail);
      IntendedEscapeRoundTrip(t[1..], tail);
      assert Chars(t) == [Char(t[0])] + Chars(t[1..]);
    }
  }

  /** Without any quote character the corrected decoder fails too. */
  lemma {:induction false} IntendedWithoutQuoteFails(r: string)
    requires forall k :: 0 <= k < |r| ==> r[k] != '"'
    ensures UnquoteIntended(r) == None
    decreases |r|
  {
    if r == [] {
    } else if r[0] == '\\' && 2 <= |r| {
      if r[1] == 'n' || !IsOctalDigit(r[1]) {
        IntendedWithoutQuoteFails(r[2..]);
      } else {
        IntendedWithoutQuoteFails(r[1 + OctalRun(r[1..])..]);
      }
    } else {
      IntendedWithoutQuoteFails(r[1..]);
    }
  }

  function OctalDigit(d: nat): (c: char)
    requires d < 8
    ensures IsOctalDigit(c) && c as int - '0' as int == d
  {
    ('0' as int + d) as char
  }

  /** Each byte written as a backslash and three octal digits. */
  function OctalEscapes(bs: seq<uint8>): (e: string)
    ensures |e| == 4 * |bs|
  {
    if bs == [] then []
    else
      var b := bs[0] as nat;
      ['\\', OctalDigit(b / 64), OctalDigit(b / 8 % 8), OctalDigit(b % 8)] + OctalEscapes(bs[1..])
  }

  function Bytes(bs: seq<uint8>): (p: seq<Piece>)
    ensures |p| == |bs| && forall k :: 0 <= k < |bs| ==> p[k] == RawByte(bs[k])
  {
    if bs == [] then [] else [RawByte(bs[0])] + Bytes(bs[1..])
  }

  /** The three octal digits of a byte, most significant first, are worth the byte. */
  lemma OctalDigitsOfByte(b: uint8)
    ensures OctalValue([OctalDigit(b / 64), OctalDigit(b / 8 % 8), OctalDigit(b % 8)]) == b
  {
    OctalValueOfThree(OctalDigit(b / 64), OctalDigit(b / 8 % 8), OctalDigit(b % 8));
  }

  /** One three-digit escape reads back as its byte. */
  lemma IntendedOctalStep(b: uint8, rest: string)
    ensures var d := [OctalDigit(b / 64), OctalDigit(b / 8 % 8), OctalDigit(b % 8)];
      UnquoteIntended(['\\'] + d + rest) == Cons(RawByte(b), UnquoteIntended(rest))
  {
    var d := [OctalDigit(b / 64), OctalDigit(b / 8 % 8), OctalDigit(b % 8)];
    var r := ['\\'] + d + rest;
    assert r[1..4] == d && r[4..] == rest;
    assert OctalRun(r[1..]) == 3;
    OctalDigitsOfByte(b);
  }

  /** The intended decoder reads every byte back from its three-digit octal escape. */
  lemma {:induction false} IntendedOctalRoundTrip(bs: seq<uint8>, tail: string)
    ensures UnquoteIntended(OctalEscapes(bs) + ['"'] + tail) == Some(Bytes(bs))
  {
    if bs != [] {
      var b := bs[0];
      var d := [OctalDigit(b / 64), OctalDigit(b / 8 % 8), OctalDigit(b % 8)];
      var rest := OctalEscapes(bs[1..]) + ['"'] + tail;
      assert OctalEscapes(bs) + ['"'] + tail == ['\\'] + d + rest;
      IntendedOctalStep(b, rest);
      IntendedOctalRoundTrip(bs[1..], tail);
      assert Bytes(bs) == [RawByte(b)] + Bytes(bs[1..]);
    }
  }

  /**
   * The intended decoder stops an octal escape of one or two digits at the
   * first rune that is no octal digit: the digits make one byte, and
   * decoding resumes at that rune.
   */
  lemma IntendedOctalStopsEarly(ds: string, c: char, tail: string)
    requires 1 <= |ds| <= 2 && forall j :: 0 <= j < |ds| ==> IsOctalDigit(ds[j])
    requires !IsOctalDigit(c)
    ensures UnquoteIntended(['\\'] + ds + [c] + tail)
         == Cons(RawByte(OctalValue(ds) % 256), UnquoteIntended([c] + tail))
  {
    var r := ['\\'] + ds + [c] + tail;
    assert r[1..] == ds + [c] + tail;
    assert (ds + [c] + tail)[|ds|] == c;
    OctalRunIs(r[1..], |ds|);
    assert r[1..1 + |ds|] == ds;
    assert r[1 + |ds|..] == [c] + tail;
  }

  /**
   * Finding: the escape \101 followed by the closing quote makes the code
   * as written step over the quote and fail, where one byte 'A' was meant.
   */
  lemma OctalEscapeSkipsClosingQuote()
    ensures Unquote(['\\', '1', '0', '1', '"']) == None
    ensures UnquoteIntended(['\\', '1', '0', '1', '"']) == Some([RawByte(65)])
  {
    var r := ['\\', '1', '0', '1', '"'];
    assert r[5..] == [];
    assert r[1..4] == ['1', '0', '1'];
    OctalValueOfThree('1', '0', '1');
    assert OctalRun(r[1..]) == 3;
    assert r[4..] == ['"'];
    assert UnquoteIntended(r[4..]) == Some([]);
    assert UnquoteIntended(r) == Cons(RawByte(65), Some([]));
    assert [RawByte(65)] + [] == [RawByte(65)];
  }

  /**
   * Finding: in \7x"z" the code as written takes 'x' and the quote into the
   * octal value (7*64 + 72*8 - 14 = 1010, written as 1010 mod 256 = 242),
   * skips 'z', and ends at the last quote; meant were the byte 7 and 'x'.
   */
  lemma OctalEscapeTakesNonDigits()
    ensures Unquote(['\\', '7', 'x', '"', 'z', '"']) == Some([RawByte(242)])
    ensures UnquoteIntended(['\\', '7', 'x', '"', 'z', '"']) == Some([RawByte(7), Char('x')])
  {
    var r := ['\\', '7', 'x', '"', 'z', '"'];
    assert r[1..4] == ['7', 'x', '"'];
    OctalValueOfThree('7', 'x', '"');
    assert r[5..] == ['"'];
    assert Unquote(r[5..]) == Some([]);
    assert Unquote(r) == Cons(RawByte(1010 % 256), Some([]));
    assert [RawByte(242)] + [] == [RawByte(242)];
    IntendedOctalStopsEarly(['7'], 'x', ['"', 'z', '"']);
    assert ['7'][..0] == [];
    assert ['\\'] + ['7'] + ['x'] + ['"', 'z', '"'] == r;
    assert ['x'] + ['"', 'z', '"'] == ['x', '"', 'z', '"'];
    assert ['x', '"', 'z', '"'][1..] == ['"', 'z', '"'];
    assert UnquoteIntended(['"', 'z', '"']) == Some([]);
    assert UnquoteIntended(['x', '"', 'z', '"']) == Cons(Char('x'), Some([]));
    assert [Char('x')] + [] == [Char('x')];
    assert [RawByte(7)] + [Char('x')] == [RawByte(7), Char('x')];
  }
}
