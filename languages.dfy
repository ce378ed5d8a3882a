/**
 * parseLanguage (main.go:165-187): the `language` line lists
 * long-name=short-name charset triples, separated by commas and ended by
 * ';' or by the end of the line.
 */
module Languages {
  import opened Outcomes
  import opened Tokens

  datatype Language = Language(longName: string, shortName: string, charset: string)

  /**
   * One pass of the loop body (main.go:174-179): three words, each after
   * trimmed delimiters, and the trimmed remainder.
   */
  function LanguageEntry(s: string): (entry: (Language, string))
    ensures |entry.1| <= |TrimDelimiters(ConsumeWord(s).1)| <= |s|
    ensures entry.1 == [] || entry.1[0] !in TrimmedDelimiters
    ensures IsWord(entry.0.longName) && IsWord(entry.0.shortName) && IsWord(entry.0.charset)
  {
    var (longName, x) := ConsumeWord(s);
    var (shortName, y) := ConsumeWord(TrimDelimiters(x));
    var (charset, z) := ConsumeWord(TrimDelimiters(y));
    (Language(longName, shortName, charset), TrimDelimiters(z))
  }

  /** What the loop body leaves is a suffix of what it started from. */
  lemma LanguageEntrySuffix(s: string)
    ensures IsSuffix(LanguageEntry(s).1, s)
  {
    var (longName, x) := ConsumeWord(s);
    var x' := TrimDelimiters(x);
    var (shortName, y) := ConsumeWord(x');
    var y' := TrimDelimiters(y);
    var (charset, z) := ConsumeWord(y');
    AppendSuffix(longName, x);
    AppendSuffix(shortName, y);
    AppendSuffix(charset, z);
    SuffixTransitive(x', x, s);
    SuffixTransitive(y, x', s);
    SuffixTransitive(y', y, s);
    SuffixTransitive(z, y', s);
    SuffixTransitive(TrimDelimiters(z), z, s);
  }

  /**
   * The loop body moves forward on a remainder that does not start with CR
   * or LF.
   */
  lemma LanguageEntryAdvances(s: string)
    requires s != [] && s[0] != '\r' && s[0] != '\n'
    ensures |LanguageEntry(s).1| < |s|
  {
    var x := ConsumeWord(s).1;
    if s[0] in WordDelimiters {
      assert IndexAny(s, WordDelimiters) == 0;
      assert x == s;
      assert |TrimDelimiters(x)| < |s|;
    } else {
      ConsumeWordNonEmpty(s);
    }
  }

  /**
   * On a remainder that starts with CR or LF the loop body changes nothing:
   * consumeWord stops at once and trimDelimiters does not strip CR or LF.
   */
  lemma LanguageEntryStuck(s: string)
    requires s != [] && (s[0] == '\r' || s[0] == '\n')
    ensures LanguageEntry(s) == (Language([], [], []), s)
  {
    assert IndexAny(s, WordDelimiters) == 0;
    assert ConsumeWord(s) == ([], s);
    assert TrimDelimiters(s) == s;
  }

  /**
   * The triples the loop collects from `s`, or None when the loop would
   * reach a remainder starting with CR or LF and repeat forever.
   */
  function LanguageList(s: string): (langs: Option<seq<Language>>)
    decreases |s|
  {
    if s == [] || s[0] == ';' then Some([])
    else if s[0] == '\r' || s[0] == '\n' then None
    else
      var (l, rest) := LanguageEntry(s);
      LanguageEntryAdvances(s);
      Prepend([l], LanguageList(rest))
  }

  /** What parseLanguage finds on a whole `language` line, after its keyword. */
  function LanguagesOf(line: string): Option<seq<Language>> {
    LanguageList(TrimDelimiters(ConsumeWord(line).1))
  }

  /** One round of the loop: the entry read first heads the list, and what it leaves is shorter. */
  lemma LanguageListStep(s: string)
    requires s != [] && s[0] != ';' && s[0] != '\r' && s[0] != '\n'
    ensures var (l, rest) := LanguageEntry(s);
      |rest| < |s| && LanguageList(s) == Prepend([l], LanguageList(rest))
  {
    LanguageEntryAdvances(s);
  }

  /** The loop's exit: nothing more is read. */
  lemma LanguageListDone(s: string)
    requires HasPrefix(s, ";") || s == []
    ensures LanguageList(s) == Some([])
  {
    if s != [] {
      assert s[0] == s[..1][0];
    }
  }

  /** parseLanguage; None where the source's loop never ends. */
  method ParseLanguage(line: string) returns (langs: Option<seq<Language>>)
    ensures langs == LanguagesOf(line)
  {
    var (_, s0) := ConsumeWord(line);
    var s := TrimDelimiters(s0);
    var acc: seq<Language> := [];
    while !(HasPrefix(s, ";") || s == [])
      invariant LanguagesOf(line) == Prepend(acc, LanguageList(s))
      decreases |s|
    {
      if s[0] == '\r' || s[0] == '\n' {
        // The body below would leave s as it is, forever.
        assert LanguageList(s) == None;
        return None;
      }
      var (l, rest) := LanguageEntry(s);
      LoopStep(acc, s);
      s := rest;
      acc := acc + [l];
    }
    LanguageListDone(s);
    assert acc + [] == acc;
    return Some(acc);
  }

  /** One round of parseLanguage's loop moves the entry it reads from the remainder to the collected triples. */
  lemma LoopStep(acc: seq<Language>, s: string)
    requires !(HasPrefix(s, ";") || s == []) && s[0] != '\r' && s[0] != '\n'
    ensures var (l, rest) := LanguageEntry(s);
      |rest| < |s| && Prepend(acc, LanguageList(s)) == Prepend(acc + [l], LanguageList(rest))
  {
    assert s[..1] == [s[0]];
    var (l, rest) := LanguageEntry(s);
    LanguageListStep(s);
    PrependTwice(acc, [l], LanguageList(rest));
  }

  /** No character is a carriage return or a line feed. */
  predicate NoLineBreak(s: string) {
    forall k :: 0 <= k < |s| ==> s[k] != '\r' && s[k] != '\n'
  }

  lemma SuffixNoLineBreak(r: string, s: string)
    requires IsSuffix(r, s) && NoLineBreak(s)
    ensures NoLineBreak(r)
  {
    assert forall k :: 0 <= k < |r| ==> r[k] == s[|s| - |r| + k];
  }

  /** A line without CR and LF always gets its list: the loop ends on every such input. */
  lemma {:induction false} LanguageListEnds(s: string)
    requires NoLineBreak(s)
    ensures LanguageList(s).Some?
    decreases |s|
  {
    if s != [] && s[0] != ';' {
      assert s[0] != '\r' && s[0] != '\n';
      var rest := LanguageEntry(s).1;
      LanguageEntryAdvances(s);
      LanguageEntrySuffix(s);
      SuffixNoLineBreak(rest, s);
      LanguageListEnds(rest);
    }
  }

  /** All three fields are single words. */
  predicate WordTriple(l: Language) {
    IsWord(l.longName) && IsWord(l.shortName) && IsWord(l.charset)
  }

  /** Every triple of `ls` is made of words, stated element by element from the front. */
  predicate AllWordTriples(ls: seq<Language>) {
    ls == [] || (WordTriple(ls[0]) && AllWordTriples(ls[1..]))
  }

  lemma {:induction false} AllWordTriplesAt(ls: seq<Language>, k: nat)
    requires AllWordTriples(ls) && k < |ls|
    ensures WordTriple(ls[k])
  {
    if k > 0 {
      AllWordTriplesAt(ls[1..], k - 1);
    }
  }

  /** Every name and charset that the loop collects is a single word. */
  lemma {:induction false} LanguageListWords(s: string)
    requires LanguageList(s).Some?
    ensures AllWordTriples(LanguageList(s).value)
    decreases |s|
  {
    if s != [] && s[0] != ';' {
      var e := LanguageEntry(s);
      LanguageEntryAdvances(s);
      LanguageListWords(e.1);
      assert LanguageList(s).value[1..] == LanguageList(e.1).value;
    }
  }

  /** The same, for each triple of a whole `language` line. */
  lemma LanguagesOfWords(line: string, k: nat)
    requires LanguagesOf(line).Some? && k < |LanguagesOf(line).value|
    ensures WordTriple(LanguagesOf(line).value[k])
  {
    LanguageListWords(TrimDelimiters(ConsumeWord(line).1));
    AllWordTriplesAt(LanguagesOf(line).value, k);
  }

  // ---- The entry grammar: long=short charset, separated by commas ----

  /**
   * A triple whose three fields are non-empty words, as the comment at
   * main.go:165-167 describes one; its long name does not start with the
   * ';' that ends the list.
   */
  predicate ProperTriple(l: Language) {
    WordTriple(l) && l.longName != [] && l.shortName != [] && l.charset != [] && l.longName[0] != ';'
  }

  /** Every triple of `ls` is proper, stated element by element from the front. */
  predicate AllProper(ls: seq<Language>) {
    ls == [] || (ProperTriple(ls[0]) && AllProper(ls[1..]))
  }

  /** One entry as the grammar writes it: long-name=short-name charset. */
  function EntryText(l: Language): string {
    l.longName + "=" + l.shortName + " " + l.charset
  }

  /** A list written out: the entries separated by ", ", then " ;". */
  function ListText(ls: seq<Language>): string {
    if ls == [] then ";"
    else EntryText(ls[0]) + (Separator(ls) + ListText(ls[1..]))
  }

  /**
   * One round of the loop reads back the triple of an entry written as the
   * grammar says, when a delimiter (or the end of the line) follows it, and
   * leaves the trimmed rest.
   */
  lemma LanguageEntryOf(l: Language, rest: string)
    requires WordTriple(l) && l.longName != [] && l.shortName != [] && l.charset != []
    requires rest == [] || rest[0] in WordDelimiters
    ensures LanguageEntry(EntryText(l) + rest) == (l, TrimDelimiters(rest))
  {
    var c := l.charset + rest;
    var b := l.shortName + " " + c;
    assert EntryText(l) + rest == l.longName + "=" + b;
    WordThenDelimiter(l.longName, '=', b);
    WordThenDelimiter(l.shortName, ' ', c);
    ConsumeWordUnique(c, l.charset, rest);
  }

  /** A word, one trimmed delimiter, then text that starts with no trimmed delimiter: split at the delimiter, trimmed after it. */
  lemma WordThenDelimiter(w: string, d: char, x: string)
    requires IsWord(w) && d in TrimmedDelimiters
    requires x == [] || x[0] !in TrimmedDelimiters
    ensures ConsumeWord(w + [d] + x) == (w, [d] + x)
    ensures TrimDelimiters([d] + x) == x
  {
    ConsumeWordUnique(w + [d] + x, w, [d] + x);
    TrimLeftRun([d], x, TrimmedDelimiters);
  }

  /** The separator written after the entry of `ls[0]`: ", " before another entry, " " before the ';'. */
  function Separator(ls: seq<Language>): string {
    if |ls| <= 1 then " " else ", "
  }

  /**
   * `s` is the written-out list of `ls`, described through slices of `s`:
   * the first entry, its separator, then the rest written out.
   */
  predicate WrittenList(s: string, ls: seq<Language>)
    decreases |ls|
  {
    if ls == [] then s == ";"
    else
      var n := |EntryText(ls[0])|;
      var m := n + |Separator(ls)|;
      && m <= |s| && s[..n] == EntryText(ls[0]) && s[n..m] == Separator(ls)
      && WrittenList(s[m..], ls[1..])
  }

  /** A list written out as the grammar says parses back to exactly its triples. */
  lemma ListTextRoundTrip(ls: seq<Language>)
    requires AllProper(ls)
    ensures LanguageList(ListText(ls)) == Some(ls)
  {
    ListTextWritten(ls);
    WrittenListParses(ListText(ls), ls);
  }

  lemma {:induction false} ListTextWritten(ls: seq<Language>)
    ensures WrittenList(ListText(ls), ls)
    decreases |ls|
  {
    if ls != [] {
      var e := EntryText(ls[0]);
      var sep := Separator(ls);
      var t := ListText(ls[1..]);
      var s := ListText(ls);
      assert s == e + (sep + t);
      assert s[..|e|] == e;
      assert s[|e|..|e| + |sep|] == sep;
      assert s[|e| + |sep|..] == t;
      ListTextWritten(ls[1..]);
    }
  }

  /** Any text written as the grammar says parses to exactly its triples. */
  lemma {:induction false} WrittenListParses(s: string, ls: seq<Language>)
    requires AllProper(ls) && WrittenList(s, ls)
    ensures LanguageList(s) == Some(ls)
    decreases |ls|
  {
    if ls == [] {
      LanguageListDone(s);
    } else {
      var parts := WrittenParts(s, ls);
      WrittenListParses(parts.2, ls[1..]);
      EntryListCons(ls[0], parts.1, parts.2, ls[1..]);
    }
  }

  /** A non-empty written-out list: its first entry, a separator, and the written-out rest. */
  lemma WrittenParts(s: string, ls: seq<Language>) returns (parts: (string, string, string))
    requires ls != [] && AllProper(ls) && WrittenList(s, ls)
    ensures var (e, sep, t) := parts;
      && s == e + (sep + t) && e == EntryText(ls[0]) && (sep == " " || sep == ", ")
      && ProperTriple(ls[0]) && AllProper(ls[1..]) && WrittenList(t, ls[1..])
      && (t == [] || t[0] !in TrimmedDelimiters)
      && ls == [ls[0]] + ls[1..]
  {
    var n := |EntryText(ls[0])|;
    var m := n + |Separator(ls)|;
    var t := s[m..];
    SplitThree(s, n, m);
    WrittenStart(t, ls[1..]);
    parts := (s[..n], s[n..m], t);
  }

  lemma SplitThree(s: string, n: nat, m: nat)
    requires n <= m <= |s|
    ensures s == s[..n] + (s[n..m] + s[m..])
  {
  }

  /** A written-out list starts with ';' or with its first long name: with no delimiter. */
  lemma WrittenStart(s: string, ls: seq<Language>)
    requires WrittenList(s, ls) && (ls == [] || ProperTriple(ls[0]))
    ensures s == [] || s[0] !in TrimmedDelimiters
  {
    if ls != [] {
      var e := EntryText(ls[0]);
      assert e[0] == ls[0].longName[0];
      assert s[..|e|][0] == s[0];
    }
  }

  /** An entry and a separator in front of a list's text add the entry in front of the list. */
  lemma EntryListCons(l: Language, sep: string, t: string, ls: seq<Language>)
    requires ProperTriple(l)
    requires sep == " " || sep == ", "
    requires t == [] || t[0] !in TrimmedDelimiters
    requires LanguageList(t) == Some(ls)
    ensures LanguageList(EntryText(l) + (sep + t)) == Some([l] + ls)
  {
    SeparatorTrimmed(sep, t);
    EntryThen(l, sep + t, t);
    LanguageListCons(l, sep + t, t);
  }

  /** An entry, then text whose trimming leaves `t`: one round reads the entry and leaves `t`. */
  lemma EntryThen(l: Language, x: string, t: string)
    requires ProperTriple(l)
    requires x == [] || x[0] in WordDelimiters
    requires TrimDelimiters(x) == t
    ensures LanguageEntry(EntryText(l) + x) == (l, t)
  {
    LanguageEntryOf(l, x);
  }

  /** The separators between entries and before the closing ';' are trimmed away. */
  lemma SeparatorTrimmed(sep: string, t: string)
    requires sep == " " || sep == ", "
    requires t == [] || t[0] !in TrimmedDelimiters
    ensures sep + t != [] && (sep + t)[0] in WordDelimiters
    ensures TrimDelimiters(sep + t) == t
  {
    TrimLeftRun(sep, t, TrimmedDelimiters);
  }

  /** An entry read from the front of the text heads the list collected from it. */
  lemma LanguageListCons(l: Language, x: string, t: string)
    requires ProperTriple(l)
    requires LanguageEntry(EntryText(l) + x) == (l, t)
    ensures LanguageList(EntryText(l) + x) == Prepend([l], LanguageList(t))
  {
    var e := EntryText(l);
    assert e[0] == l.longName[0];
    LanguageListStep(e + x);
  }

  /** A written-out list starts with ';' or with the first long name, so it starts with no delimiter. */
  lemma ListTextStart(ls: seq<Language>)
    requires ls == [] || ProperTriple(ls[0])
    ensures ListText(ls) != [] && ListText(ls)[0] !in WordDelimiters
    ensures ls != [] ==> ListText(ls)[0] == ls[0].longName[0]
  {
    if ls != [] {
      var e := EntryText(ls[0]);
      assert e[0] == ls[0].longName[0];
    }
  }

  /** A whole `languages` line, keyword and all, gives exactly the triples it lists. */
  lemma LanguageLineRoundTrip(ls: seq<Language>)
    requires AllProper(ls)
    ensures LanguagesOf("languages " + ListText(ls)) == Some(ls)
  {
    KeywordThenList(ListText(ls), ls);
    ListTextRoundTrip(ls);
  }

  /** After the keyword and one space, the loop starts on the written-out list. */
  lemma KeywordThenList(t: string, ls: seq<Language>)
    requires t == ListText(ls) && (ls == [] || ProperTriple(ls[0]))
    ensures TrimDelimiters(ConsumeWord("languages " + t).1) == t
  {
    ListTextStart(ls);
    assert IsWord("languages");
    WordThenDelimiter("languages", ' ', t);
    assert "languages " + t == "languages" + [' '] + t;
  }

  /**
   * ';' is no word delimiter, so a ';' written right after the last
   * charset becomes part of it; the list stops at ';' only where a
   * remainder starts with it.
   */
  lemma SemicolonJoinsCharset(l: Language)
    requires ProperTriple(l)
    ensures LanguageList(EntryText(l) + ";") == Some([l.(charset := l.charset + ";")])
  {
    var l' := l.(charset := l.charset + ";");
    EntrySemicolon(l);
    EntrySemicolonText(l);
    LastEntry(EntryText(l) + ";", l');
  }

  /** Text whose first round reads `l` and leaves nothing is the list of `l` alone. */
  lemma LastEntry(s: string, l: Language)
    requires s != [] && s[0] != ';' && s[0] != '\r' && s[0] != '\n'
    requires LanguageEntry(s) == (l, [])
    ensures LanguageList(s) == Some([l])
  {
    LanguageListStep(s);
    LanguageListDone([]);
    assert [l] + [] == [l];
  }

  lemma EntrySemicolon(l: Language)
    requires ProperTriple(l)
    ensures var l' := l.(charset := l.charset + ";");
      ProperTriple(l') && LanguageEntry(EntryText(l') + []) == (l', [])
    ensures var s := EntryText(l) + ";"; s != [] && s[0] == l.longName[0]
  {
    var e := EntryText(l);
    assert (e + ";")[0] == e[0] == l.longName[0];
    var l' := l.(charset := l.charset + ";");
    LanguageEntryOf(l', []);
  }

  lemma EntrySemicolonText(l: Language)
    ensures EntryText(l.(charset := l.charset + ";")) + [] == EntryText(l) + ";"
  {
  }

  /** A remainder that starts with CR or LF makes the loop body a no-op, so the list is never finished. */
  lemma LanguageLoopStuck(s: string)
    requires s != [] && (s[0] == '\r' || s[0] == '\n')
    ensures LanguageEntry(s).1 == s
    ensures LanguageList(s) == None
  {
    LanguageEntryStuck(s);
  }
}
