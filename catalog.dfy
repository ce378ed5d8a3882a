/**
 * The error-catalog scanner of cmd/mysqlerrgen/main.go:59-128 as a pure
 * transition function: Next is one pass of the loop body on one line, Run
 * is the whole loop. The imperative Scanner class proves itself against
 * these; the lemmas here state what the scanner promises.
 */
module Catalog {
  import opened Outcomes
  import opened Tokens
  import opened Decimal
  import opened Quoted
  import opened Languages

  datatype Message = Message(langShortName: string, text: seq<Piece>)

  datatype MysqlError = MysqlError(
    name: string,
    code: int,
    sqlState: string,
    odbcState: string,
    messages: seq<Message>,
    obsolete: bool)

  /** The variables the scanning loop updates (main.go:60-64). */
  datatype ScanState = ScanState(
    defaultLanguage: string,
    errorCodeOffset: int,
    rCount: int,
    languages: seq<Language>,
    errs: seq<MysqlError>)

  /** Before the first line: language "eng", codes from 1000, no records. */
  const Initial: ScanState := ScanState("eng", 1000, 0, [], [])

  /** The ways the loop stops: the panics of the source, and the one line on which it never finishes. */
  datatype ScanError =
    | LanguageLoopDiverges        // parseLanguage loops forever (main.go:173-185)
    | EmptyQuotedRemainder        // line[1:] of an empty string (main.go:99)
    | UnexpectedEOL               // parseQuoted finds no closing quote (main.go:218)
    | NoCurrentRecord             // errs[len(errs)-1] with no record yet (main.go:100)
    | UnknownFormat(line: string) // the default case (main.go:124-126)

  /** The cases of the switch at main.go:67-127. */
  datatype LineKind =
    | LanguageLine | StartErrorNumber | DefaultLanguage | MessageLine
    | Header | Comment | ReservedSection | Unknown

  /** The four name prefixes that open an error record (main.go:105). */
  predicate IsHeader(line: string) {
    HasPrefix(line, "ER_") || HasPrefix(line, "WARN_")
    || HasPrefix(line, "OBSOLETE_ER_") || HasPrefix(line, "OBSOLETE_WARN_")
  }

  /**
   * The first case of the switch that matches, in source order. No two
   * cases can match the same line, so the order decides nothing beyond
   * the default.
   */
  function Classify(line: string): (kind: LineKind)
  {
    if HasPrefix(line, "language") then LanguageLine
    else if HasPrefix(line, "start-error-number") then StartErrorNumber
    else if HasPrefix(line, "default-language") then DefaultLanguage
    else if HasPrefix(line, "\t") || HasPrefix(line, " ") then MessageLine
    else if IsHeader(line) then Header
    else if HasPrefix(line, "#") || line == "" then Comment
    else if HasPrefix(line, "reserved-error-section") then ReservedSection
    else Unknown
  }

  /** The word after a line's keyword: the offset of start-error-number, the name of default-language. */
  function Argument(line: string): string {
    ConsumeWord(TrimDelimiters(ConsumeWord(line).1)).0
  }

  /**
   * A message line split as at main.go:88-95: the language code (the text
   * up to the first blank after the indentation) and the rest with its
   * leading blanks removed.
   */
  function MessageParts(line: string): (parts: (string, string))
    ensures forall k :: 0 <= k < |parts.0| ==> parts.0[k] !in Blanks
    ensures parts.1 == [] || parts.1[0] !in Blanks
  {
    var (lang, rest) := SplitAtBlank(TrimLeft(line, Blanks));
    (lang, TrimLeft(rest, Blanks))
  }

  /** `t` cut before its first blank (all of it when it has none). */
  function SplitAtBlank(t: string): (split: (string, string))
    ensures split.0 + split.1 == t
    ensures forall k :: 0 <= k < |split.0| ==> split.0[k] !in Blanks
    ensures split.1 == [] || split.1[0] in Blanks
  {
    var i := IndexAny(t, Blanks);
    if i < 0 then (t, []) else (t[..i], t[i..])
  }

  predicate AllBlank(s: string) {
    forall k :: 0 <= k < |s| ==> s[k] in Blanks
  }

  predicate NoBlank(s: string) {
    forall k :: 0 <= k < |s| ==> s[k] !in Blanks
  }

  /** Any cut of `w + rest` before a blank, or at the end, is the one SplitAtBlank makes. */
  lemma {:induction false} SplitAtBlankUnique(w: string, rest: string)
    requires NoBlank(w) && (rest == [] || rest[0] in Blanks)
    ensures SplitAtBlank(w + rest) == (w, rest)
  {
    var t := w + rest;
    var (w', rest') := SplitAtBlank(t);
    assert forall k :: 0 <= k < |w| ==> t[k] == w[k];
    assert forall k :: 0 <= k < |w'| ==> t[k] == w'[k];
    assert |w| < |t| ==> t[|w|] == rest[0];
    assert |w'| < |t| ==> t[|w'|] == rest'[0];
    assert |w'| == |w|;
    assert w' == t[..|w|] == w;
  }

  /**
   * A message line is its indentation, the language code, a run of
   * blanks and the rest, and MessageParts returns the code and the rest.
   */
  lemma MessagePartsSplit(line: string) returns (i: string, b: string)
    ensures AllBlank(i) && AllBlank(b)
    ensures line == i + (MessageParts(line).0 + (b + MessageParts(line).1))
    ensures b == [] ==> MessageParts(line).1 == []
  {
    i := BlankRun(line);
    var (w, rest) := SplitAtBlank(TrimLeft(line, Blanks));
    b := BlankRun(rest);
  }

  /** The blanks TrimLeft removes from the front of `s`. */
  lemma BlankRun(s: string) returns (run: string)
    ensures AllBlank(run) && s == run + TrimLeft(s, Blanks)
  {
    var t := TrimLeft(s, Blanks);
    run := s[..|s| - |t|];
    assert s == run + t;
  }

  /**
   * The converse: whatever indentation, code, blanks and rest a line is
   * made of, MessageParts recovers the code and the rest.
   */
  lemma MessagePartsOf(i: string, w: string, b: string, r: string)
    requires AllBlank(i) && NoBlank(w) && AllBlank(b) && (r == [] || r[0] !in Blanks)
    requires w == [] ==> b + r == []
    requires b == [] ==> r == []
    ensures MessageParts(i + (w + (b + r))) == (w, r)
  {
    assert w + (b + r) == [] || (w + (b + r))[0] == w[0];
    TrimLeftRun(i, w + (b + r), Blanks);
    assert b + r == [] || (b + r)[0] == b[0];
    SplitAtBlankUnique(w, b + r);
    TrimLeftRun(b, r, Blanks);
  }

  /** The message line `\tfoo "hello"` adds the text hello for the language foo. */
  lemma MessageLineExample()
    ensures Parse("\tfoo \"hello\"") == Success(AddText("foo", Chars("hello")))
  {
    var line := "\tfoo \"hello\"";
    ClassifyMessage(line);
    ExampleParts();
    ExampleText();
    assert "\"hello\""[1..] == "hello\"";
  }

  lemma ExampleParts()
    ensures MessageParts("\tfoo \"hello\"") == ("foo", "\"hello\"")
  {
    assert "\tfoo \"hello\"" == "\t" + ("foo" + (" " + "\"hello\""));
    MessagePartsOf("\t", "foo", " ", "\"hello\"");
  }

  lemma ExampleText()
    ensures Unquote("hello\"") == Some(Chars("hello"))
  {
    UnquotePlainText("hello", []);
    assert "hello" + ['"'] + [] == "hello\"";
  }

  /**
   * What one line tells the scanner, once parsed: the switch at
   * main.go:67-127 without its effect on the scanning state.
   */
  datatype Directive =
    | SetLanguages(langs: seq<Language>)
    | SetOffset(offset: int)
    | SetDefaultLanguage(name: string)
    | AddText(lang: string, text: seq<Piece>)
    | OpenRecord(name: string, sqlState: string, odbcState: string, obsolete: bool)
    | Ignore

  /**
   * A message line (main.go:87-99). A missing opening quote is not
   * checked: the first character after the language code is dropped
   * whatever it is. The text is decoded by parseQuoted as written
   * (Quoted.Unquote), octal escapes included.
   */
  function ParseMessage(line: string): Result<Directive, ScanError> {
    var (lang, rest) := MessageParts(line);
    if rest == [] then Failure(EmptyQuotedRemainder)
    else
      var text := Unquote(rest[1..]);
      if text.None? then Failure(UnexpectedEOL) else Success(AddText(lang, text.value))
  }

  /** A header line (main.go:105-119): the name and the two states are the first three words. */
  function ParseHeader(line: string): Directive {
    var (name, a) := ConsumeWord(line);
    var (sqlState, b) := ConsumeWord(TrimDelimiters(a));
    var (odbcState, _) := ConsumeWord(TrimDelimiters(b));
    OpenRecord(name, sqlState, odbcState, HasPrefix(name, "OBSOLETE_ER_"))
  }

  /** One line parsed, in the order of the switch; the failures are those that do not depend on the state. */
  function Parse(line: string): Result<Directive, ScanError> {
    match Classify(line)
    case LanguageLine =>
      var langs := LanguagesOf(line);
      if langs.None? then Failure(LanguageLoopDiverges) else Success(SetLanguages(langs.value))
    // Tokens after the number are ignored, and a number that does not parse gives 0.
    case StartErrorNumber => Success(SetOffset(Atoi(Argument(line))))
    case DefaultLanguage => Success(SetDefaultLanguage(Argument(line)))
    case MessageLine => ParseMessage(line)
    case Header => Success(ParseHeader(line))
    case Comment => Success(Ignore)
    case ReservedSection => Success(Ignore)
    case Unknown => Failure(UnknownFormat(line))
  }

  /** `m` appended to the messages of the last record (main.go:100-104). */
  function AddMessage(errs: seq<MysqlError>, m: Message): (errs': seq<MysqlError>)
    requires errs != []
    ensures |errs'| == |errs| && errs'[..|errs| - 1] == errs[..|errs| - 1]
    ensures errs'[|errs| - 1] == errs[|errs| - 1].(messages := errs[|errs| - 1].messages + [m])
  {
    var last := errs[|errs| - 1];
    errs[..|errs| - 1] + [last.(messages := last.messages + [m])]
  }

  /**
   * The effect of a parsed line on the state. A new record is numbered
   * offset + rCount in 64-bit arithmetic (main.go:112-113); a message
   * needs a record to attach to (main.go:100).
   */
  function Apply(st: ScanState, d: Directive): Result<ScanState, ScanError> {
    match d
    case SetLanguages(langs) => Success(st.(languages := langs))
    case SetOffset(offset) => Success(st.(errorCodeOffset := offset, rCount := 0))
    case SetDefaultLanguage(name) => Success(st.(defaultLanguage := name))
    case AddText(lang, text) =>
      if st.errs == [] then Failure(NoCurrentRecord)
      else Success(st.(errs := AddMessage(st.errs, Message(lang, text))))
    case OpenRecord(name, sqlState, odbcState, obsolete) =>
      var code := Int64(st.errorCodeOffset + st.rCount);
      var r := MysqlError(name, code, sqlState, odbcState, [], obsolete);
      Success(st.(rCount := st.rCount + 1, errs := st.errs + [r]))
    case Ignore => Success(st)
  }

  /** One pass of the loop body (main.go:66-127) on `line`. */
  function Next(st: ScanState, line: string): Result<ScanState, ScanError> {
    match Parse(line)
    case Failure(e) => Failure(e)
    case Success(d) => Apply(st, d)
  }

  /** The whole scanning loop over the lines of the catalog, stopping at the first failure. */
  function Run(st: ScanState, lines: seq<string>): Result<ScanState, ScanError>
    decreases |lines|
  {
    if lines == [] then Success(st)
    else
      match Next(st, lines[0])
      case Failure(e) => Failure(e)
      case Success(st') => Run(st', lines[1..])
  }

  // ---- Which case a line takes ----

  /** A line with prefix `p` starts with p's first character; for a one-character `p` that is all it takes. */
  lemma FirstChar(line: string, p: string)
    requires p != []
    ensures HasPrefix(line, p) ==> line != [] && line[0] == p[0]
    ensures |p| == 1 && line != [] && line[0] == p[0] ==> HasPrefix(line, p)
  {
    if HasPrefix(line, p) {
      assert line[0] == line[..|p|][0];
    }
    if |p| == 1 && line != [] && line[0] == p[0] {
      assert line[..1] == p;
    }
  }

  /** The keywords checked before the message and header cases begin with l, s and d. */
  lemma KeywordsFirst(line: string)
    ensures HasPrefix(line, "language") ==> line[0] == 'l'
    ensures HasPrefix(line, "start-error-number") ==> line[0] == 's'
    ensures HasPrefix(line, "default-language") ==> line[0] == 'd'
  {
    FirstChar(line, "language");
    FirstChar(line, "start-error-number");
    FirstChar(line, "default-language");
  }

  /** Exactly the lines that start with a blank are message lines. */
  lemma ClassifyMessage(line: string)
    ensures Classify(line) == MessageLine <==> line != [] && line[0] in Blanks
  {
    KeywordsFirst(line);
    FirstChar(line, "\t");
    FirstChar(line, " ");
  }

  /** Exactly the lines that start with a header prefix are headers: no earlier case takes them. */
  lemma ClassifyHeader(line: string)
    ensures Classify(line) == Header <==> IsHeader(line)
  {
    ClassifyMessage(line);
    FirstChar(line, "ER_");
    FirstChar(line, "WARN_");
    FirstChar(line, "OBSOLETE_ER_");
    FirstChar(line, "OBSOLETE_WARN_");
  }

  /** The empty line and the lines that start with '#' are comments. */
  lemma ClassifyComment(line: string)
    requires line == [] || line[0] == '#'
    ensures Classify(line) == Comment
  {
    ClassifyHeader(line);
    FirstChar(line, "#");
  }

  /** Lines that start with reserved-error-section reach that case. */
  lemma ClassifyReserved(line: string)
    requires HasPrefix(line, "reserved-error-section")
    ensures Classify(line) == ReservedSection
  {
    FirstChar(line, "reserved-error-section");
    ClassifyHeader(line);
    FirstChar(line, "#");
  }

  /**
   * A line the switch has no case for: not empty, not starting with a
   * blank or '#', and starting with no keyword and no header prefix.
   */
  predicate Unrecognized(line: string) {
    && line != [] && line[0] !in Blanks && line[0] != '#' && !IsHeader(line)
    && !HasPrefix(line, "language") && !HasPrefix(line, "start-error-number")
    && !HasPrefix(line, "default-language") && !HasPrefix(line, "reserved-error-section")
  }

  /** Exactly the unrecognized lines fall to the default case. */
  lemma ClassifyUnknown(line: string)
    ensures Classify(line) == Unknown <==> Unrecognized(line)
  {
    ClassifyHeader(line);
    FirstChar(line, "#");
  }

  // ---- One line ----

  /** The first word of a header line keeps the line's header prefix. */
  lemma HeaderName(line: string)
    requires IsHeader(line)
    ensures ConsumeWord(line).0 != [] && IsHeader(ConsumeWord(line).0)
  {
    WordKeepsPrefix(line, "ER_");
    WordKeepsPrefix(line, "WARN_");
    WordKeepsPrefix(line, "OBSOLETE_ER_");
    WordKeepsPrefix(line, "OBSOLETE_WARN_");
  }

  /**
   * A header line opens a record whose name is the line's first word and
   * itself starts with a header prefix, whose SQL state is the next word,
   * and which is obsolete exactly when the line starts with OBSOLETE_ER_.
   */
  lemma ParseHeaderFields(line: string)
    requires IsHeader(line)
    ensures Parse(line) == Success(ParseHeader(line))
    ensures var d := ParseHeader(line);
      && d.name != [] && IsWord(d.name) && HasPrefix(line, d.name) && IsHeader(d.name)
      && (d.name, line[|d.name|..]) == ConsumeWord(line)
      && d.sqlState == ConsumeWord(TrimDelimiters(line[|d.name|..])).0
      && (d.obsolete <==> HasPrefix(line, "OBSOLETE_ER_"))
  {
    ClassifyHeader(line);
    HeaderName(line);
    WordKeepsPrefix(line, "OBSOLETE_ER_");
    var (name, a) := ConsumeWord(line);
    assert line[..|name|] == name;
    assert line[|name|..] == a;
  }

  /**
   * A header written as name, delimiters, SQL state, delimiters, ODBC
   * state and anything after a delimiter opens the record of exactly
   * those three words.
   */
  lemma ParseHeaderOf(n: string, d1: string, q: string, d2: string, o: string, tail: string)
    requires IsHeader(n) && IsWord(n) && IsWord(q) && IsWord(o) && q != [] && o != []
    requires d1 != [] && d2 != []
    requires forall k :: 0 <= k < |d1| ==> d1[k] in TrimmedDelimiters
    requires forall k :: 0 <= k < |d2| ==> d2[k] in TrimmedDelimiters
    requires tail == [] || tail[0] in WordDelimiters
    ensures var line := n + (d1 + (q + (d2 + (o + tail))));
      Parse(line) == Success(OpenRecord(n, q, o, HasPrefix(n, "OBSOLETE_ER_")))
  {
    var b := d2 + (o + tail);
    var a := d1 + (q + b);
    var line := n + a;
    HeaderWords(n, a);
    assert q[0] !in TrimmedDelimiters;
    TrimLeftRun(d1, q + b, TrimmedDelimiters);
    ConsumeWordUnique(q + b, q, b);
    assert o[0] !in TrimmedDelimiters;
    TrimLeftRun(d2, o + tail, TrimmedDelimiters);
    ConsumeWordUnique(o + tail, o, tail);
  }

  /** A header name followed by a delimiter is the line's first word, and the line is a header line. */
  lemma HeaderWords(n: string, a: string)
    requires IsHeader(n) && IsWord(n) && a != [] && a[0] in WordDelimiters
    ensures ConsumeWord(n + a) == (n, a)
    ensures Parse(n + a) == Success(ParseHeader(n + a))
  {
    ConsumeWordUnique(n + a, n, a);
    HeaderExtends(n, a);
    HeaderParses(n + a);
  }

  /** Text after a header name leaves the line a header. */
  lemma HeaderExtends(n: string, a: string)
    requires IsHeader(n)
    ensures IsHeader(n + a)
  {
    assert forall k :: 0 <= k <= |n| ==> (n + a)[..k] == n[..k];
  }

  /** A header line takes the header case, which never fails. */
  lemma HeaderParses(line: string)
    requires IsHeader(line)
    ensures Parse(line) == Success(ParseHeader(line))
  {
    ClassifyHeader(line);
  }

  /** Exactly the header lines open a record. */
  lemma OpensRecordIffHeader(line: string)
    ensures Parse(line).Success? && Parse(line).value.OpenRecord? <==> IsHeader(line)
  {
    ClassifyHeader(line);
  }

  /** Only a start-error-number line sets the offset. */
  lemma SetsOffsetOnlyByKeyword(line: string)
    ensures Parse(line).Success? && Parse(line).value.SetOffset? ==> HasPrefix(line, "start-error-number")
  {
    if Classify(line) == MessageLine {
      ParseMessageAddsText(line);
    } else {
      ParseOtherKinds(line);
    }
  }

  lemma ParseMessageAddsText(line: string)
    requires Classify(line) == MessageLine
    ensures Parse(line).Success? ==> Parse(line).value.AddText?
  {
    assert Parse(line) == ParseMessage(line);
  }

  lemma ParseOtherKinds(line: string)
    requires Classify(line) != MessageLine
    ensures Parse(line).Success? && Parse(line).value.SetOffset? ==> Classify(line) == StartErrorNumber
  {
  }

  lemma ApplyOpenRecord(st: ScanState, d: Directive)
    requires d.OpenRecord?
    ensures Apply(st, d).Success?
    ensures var st' := Apply(st, d).value;
      && |st'.errs| == |st.errs| + 1 && st'.errs[..|st.errs|] == st.errs
      && st'.errs[|st.errs|] == MysqlError(d.name, Int64(st.errorCodeOffset + st.rCount), d.sqlState, d.odbcState, [], d.obsolete)
      && st' == st.(rCount := st.rCount + 1, errs := st'.errs)
  {
    assert Apply(st, d).value.errs[..|st.errs|] == st.errs;
  }

  /**
   * A header line appends exactly one record, numbered offset + rCount
   * (as a 64-bit int) and without messages, and counts it; nothing else
   * changes.
   */
  lemma HeaderAppendsRecord(st: ScanState, line: string)
    requires IsHeader(line)
    ensures Next(st, line).Success?
    ensures var st' := Next(st, line).value;
      && |st'.errs| == |st.errs| + 1 && st'.errs[..|st.errs|] == st.errs
      && st'.rCount == st.rCount + 1
      && st'.errorCodeOffset == st.errorCodeOffset
      && st'.defaultLanguage == st.defaultLanguage && st'.languages == st.languages
    ensures var d := ParseHeader(line);
      Next(st, line).value.errs[|st.errs|]
        == MysqlError(d.name, Int64(st.errorCodeOffset + st.rCount), d.sqlState, d.odbcState, [], d.obsolete)
  {
    ClassifyHeader(line);
    assert Parse(line) == Success(ParseHeader(line));
    ApplyOpenRecord(st, ParseHeader(line));
  }

  /**
   * A start-error-number line never fails, whatever follows the number: it
   * sets the offset to the number (0 if it does not parse) and resets the
   * counter, so the next header gets exactly that number as its code.
   */
  lemma OffsetLineRenumbers(st: ScanState, line: string, header: string)
    requires HasPrefix(line, "start-error-number") && IsHeader(header)
    ensures Next(st, line) == Success(st.(errorCodeOffset := Atoi(Argument(line)), rCount := 0))
    ensures var st' := Next(Next(st, line).value, header);
      && st'.Success? && st'.value.rCount == 1 && |st'.value.errs| == |st.errs| + 1
      && st'.value.errs[|st.errs|].code == Atoi(Argument(line))
  {
    KeywordsFirst(line);
    assert Classify(line) == StartErrorNumber;
    var mid := st.(errorCodeOffset := Atoi(Argument(line)), rCount := 0);
    assert Next(st, line) == Success(mid);
    HeaderAppendsRecord(mid, header);
  }

  /**
   * A message line succeeds exactly when the rest after its language code
   * is non-empty, decodes, and a record exists; it then appends one message
   * to the last record and leaves every other record, every earlier message
   * and the rest of the state as they were.
   */
  lemma MessageAppends(st: ScanState, line: string)
    requires line != [] && line[0] in Blanks
    ensures var (lang, rest) := MessageParts(line);
      Next(st, line).Success? <==> st.errs != [] && rest != [] && Unquote(rest[1..]).Some?
    ensures st.errs == [] ==> Next(st, line).Failure?
    ensures Next(st, line).Success? ==>
      var st' := Next(st, line).value;
      var n := |st.errs|;
      var (lang, rest) := MessageParts(line);
      && |st'.errs| == n
      && st'.errs[..n - 1] == st.errs[..n - 1]
      && st'.errs[n - 1].messages == st.errs[n - 1].messages + [Message(lang, Unquote(rest[1..]).value)]
      && st'.errs[n - 1] == st.errs[n - 1].(messages := st'.errs[n - 1].messages)
      && st' == st.(errs := st'.errs)
  {
    ClassifyMessage(line);
    assert Parse(line) == ParseMessage(line);
    var (lang, rest) := MessageParts(line);
    if rest != [] && Unquote(rest[1..]).Some? {
      ApplyAddText(st, lang, Unquote(rest[1..]).value);
    }
  }

  /** A decoded message needs a record; it goes to the last one and nothing else changes. */
  lemma ApplyAddText(st: ScanState, lang: string, text: seq<Piece>)
    ensures Apply(st, AddText(lang, text)).Success? <==> st.errs != []
    ensures st.errs != [] ==> Apply(st, AddText(lang, text)).value == st.(errs := AddMessage(st.errs, Message(lang, text)))
  {
  }

  /** Comments, blank lines and reserved-error-section lines leave the whole state as it is. */
  lemma IgnoredLinesKeepState(st: ScanState, line: string)
    requires line == [] || line[0] == '#' || HasPrefix(line, "reserved-error-section")
    ensures Next(st, line) == Success(st)
  {
    if line == [] || line[0] == '#' {
      ClassifyComment(line);
    } else {
      ClassifyReserved(line);
    }
  }

  /** A line stops the scan with the unknown-format error, naming it, exactly when no case accepts it. */
  lemma UnknownLineFails(st: ScanState, line: string)
    ensures Next(st, line) == Failure(UnknownFormat(line)) <==> Unrecognized(line)
  {
    ClassifyUnknown(line);
    ParseUnknown(line);
    match Parse(line)
    case Failure(_) =>
    case Success(d) => ApplyFailures(st, d);
  }

  /** Applying a directive fails only for a message without a record. */
  lemma ApplyFailures(st: ScanState, d: Directive)
    ensures Apply(st, d).Failure? <==> d.AddText? && st.errs == []
    ensures Apply(st, d).Failure? ==> Apply(st, d).error == NoCurrentRecord
  {
  }

  /** Only the default case of the switch yields the unknown-format error. */
  lemma ParseUnknown(line: string)
    ensures Parse(line) == Failure(UnknownFormat(line)) <==> Classify(line) == Unknown
  {
    var k := Classify(line);
    if k == MessageLine {
      assert Parse(line) == ParseMessage(line);
    } else if k == LanguageLine {
      assert Parse(line).Failure? ==> Parse(line).error == LanguageLoopDiverges;
    } else if k != Unknown {
      assert Parse(line).Success?;
    }
  }

  // ---- Records are only ever appended ----

  /** What a line may change of an existing record: only its messages, by appending. */
  predicate Keeps(e: MysqlError, e': MysqlError) {
    && e'.name == e.name && e'.code == e.code
    && e'.sqlState == e.sqlState && e'.odbcState == e.odbcState && e'.obsolete == e.obsolete
    && |e.messages| <= |e'.messages| && e'.messages[..|e.messages|] == e.messages
  }

  /** Every record of `errs` kept, in place, in `errs'`. */
  predicate AllKept(errs: seq<MysqlError>, errs': seq<MysqlError>) {
    |errs| <= |errs'| && forall k :: 0 <= k < |errs| ==> Keeps(errs[k], errs'[k])
  }

  lemma AllKeptReflexive(errs: seq<MysqlError>)
    ensures AllKept(errs, errs)
  {
    forall k | 0 <= k < |errs|
      ensures Keeps(errs[k], errs[k])
    {
      assert errs[k].messages[..|errs[k].messages|] == errs[k].messages;
    }
  }

  lemma AllKeptTransitive(a: seq<MysqlError>, b: seq<MysqlError>, c: seq<MysqlError>)
    requires AllKept(a, b) && AllKept(b, c)
    ensures AllKept(a, c)
  {
    forall k | 0 <= k < |a|
      ensures Keeps(a[k], c[k])
    {
      assert c[k].messages[..|a[k].messages|] == c[k].messages[..|b[k].messages|][..|a[k].messages|];
    }
  }

  /** Applying a directive keeps every record and adds one exactly when it opens a record. */
  lemma ApplyKeepsRecords(st: ScanState, d: Directive)
    requires Apply(st, d).Success?
    ensures |Apply(st, d).value.errs| == |st.errs| + (if d.OpenRecord? then 1 else 0)
    ensures AllKept(st.errs, Apply(st, d).value.errs)
  {
    match d
    case OpenRecord(_, _, _, _) =>
      KeptByAppend(st.errs, Apply(st, d).value.errs[|st.errs|]);
    case AddText(lang, text) =>
      KeptByAddMessage(st.errs, Message(lang, text));
    case _ =>
      AllKeptReflexive(st.errs);
  }

  lemma KeptByAppend(errs: seq<MysqlError>, r: MysqlError)
    ensures AllKept(errs, errs + [r])
  {
    AllKeptReflexive(errs);
    assert forall k :: 0 <= k < |errs| ==> (errs + [r])[k] == errs[k];
  }

  lemma KeptByAddMessage(errs: seq<MysqlError>, m: Message)
    requires errs != []
    ensures AllKept(errs, AddMessage(errs, m))
  {
    var errs' := AddMessage(errs, m);
    var n := |errs|;
    AllKeptReflexive(errs);
    assert forall k :: 0 <= k < n - 1 ==> errs'[k] == errs'[..n - 1][k] == errs[k];
    var e := errs[n - 1];
    assert errs'[n - 1].messages[..|e.messages|] == e.messages;
  }

  /** One line keeps every record already there and adds one record exactly when it is a header. */
  lemma NextKeepsRecords(st: ScanState, line: string)
    requires Next(st, line).Success?
    ensures |Next(st, line).value.errs| == |st.errs| + (if IsHeader(line) then 1 else 0)
    ensures AllKept(st.errs, Next(st, line).value.errs)
  {
    OpensRecordIffHeader(line);
    ApplyKeepsRecords(st, Parse(line).value);
  }

  function CountHeaders(lines: seq<string>): nat {
    if lines == [] then 0 else (if IsHeader(lines[0]) then 1 else 0) + CountHeaders(lines[1..])
  }

  /**
   * A run only appends: every record present before keeps its place,
   * name, code and states, and gains messages only at the end; one record
   * is added per header line.
   */
  lemma {:induction false} RunKeepsRecords(st: ScanState, lines: seq<string>)
    requires Run(st, lines).Success?
    ensures |Run(st, lines).value.errs| == |st.errs| + CountHeaders(lines)
    ensures AllKept(st.errs, Run(st, lines).value.errs)
    decreases |lines|
  {
    if lines == [] {
      AllKeptReflexive(st.errs);
    } else {
      var mid := Next(st, lines[0]).value;
      NextKeepsRecords(st, lines[0]);
      RunKeepsRecords(mid, lines[1..]);
      AllKeptTransitive(st.errs, mid.errs, Run(st, lines).value.errs);
    }
  }

  // ---- Numbering ----

  /** The numbering that holds while no start-error-number line has been read. */
  predicate DefaultNumbering(st: ScanState) {
    && st.errorCodeOffset == 1000 && st.rCount == |st.errs|
    && forall k :: 0 <= k < |st.errs| ==> st.errs[k].code == 1000 + k
  }

  lemma ApplyKeepsDefaultNumbering(st: ScanState, d: Directive)
    requires DefaultNumbering(st) && !d.SetOffset? && |st.errs| < MaxInt64 - 1000
    requires Apply(st, d).Success?
    ensures DefaultNumbering(Apply(st, d).value)
  {
    ApplyKeepsRecords(st, d);
    var errs' := Apply(st, d).value.errs;
    assert forall k :: 0 <= k < |st.errs| ==> Keeps(st.errs[k], errs'[k]);
  }

  /**
   * Without start-error-number lines the k-th record (counting from 0)
   * gets code 1000 + k, and the offset and the counter say so.
   */
  lemma {:induction false} RunKeepsDefaultNumbering(st: ScanState, lines: seq<string>)
    requires DefaultNumbering(st)
    requires forall i :: 0 <= i < |lines| ==> !HasPrefix(lines[i], "start-error-number")
    requires |st.errs| + |lines| < MaxInt64 - 1000
    requires Run(st, lines).Success?
    ensures DefaultNumbering(Run(st, lines).value)
    decreases |lines|
  {
    if lines != [] {
      SetsOffsetOnlyByKeyword(lines[0]);
      ApplyKeepsDefaultNumbering(st, Parse(lines[0]).value);
      NextKeepsRecords(st, lines[0]);
      RunKeepsDefaultNumbering(Next(st, lines[0]).value, lines[1..]);
    }
  }

  /**
   * Starting from the initial state with no start-error-number line, the
   * k-th header line (counting from 0) gets code 1000 + k, and there is one
   * record per header line.
   */
  lemma DefaultCodes(lines: seq<string>)
    requires forall i :: 0 <= i < |lines| ==> !HasPrefix(lines[i], "start-error-number")
    requires |lines| < MaxInt64 - 1000
    requires Run(Initial, lines).Success?
    ensures var errs := Run(Initial, lines).value.errs;
      && |errs| == CountHeaders(lines)
      && forall k :: 0 <= k < |errs| ==> errs[k].code == 1000 + k
  {
    RunKeepsDefaultNumbering(Initial, lines);
    RunKeepsRecords(Initial, lines);
  }

  // ---- Names ----

  /** A record as every header produces it: a one-word name with a header prefix, and a code that fits in 64 bits. */
  predicate WellNamed(e: MysqlError) {
    e.name != [] && IsWord(e.name) && IsHeader(e.name) && InInt64(e.code)
  }

  predicate AllWellNamed(errs: seq<MysqlError>) {
    forall k :: 0 <= k < |errs| ==> WellNamed(errs[k])
  }

  /** The directives that a header line can produce. */
  predicate ProperDirective(d: Directive) {
    d.OpenRecord? ==> d.name != [] && IsWord(d.name) && IsHeader(d.name)
  }

  lemma ApplyKeepsWellNamed(st: ScanState, d: Directive)
    requires AllWellNamed(st.errs) && ProperDirective(d) && Apply(st, d).Success?
    ensures AllWellNamed(Apply(st, d).value.errs)
  {
    ApplyKeepsRecords(st, d);
    var errs' := Apply(st, d).value.errs;
    forall k | 0 <= k < |errs'|
      ensures WellNamed(errs'[k])
    {
      if k < |st.errs| {
        assert Keeps(st.errs[k], errs'[k]);
      }
    }
  }

  lemma ParseProper(line: string)
    requires Parse(line).Success?
    ensures ProperDirective(Parse(line).value)
  {
    OpensRecordIffHeader(line);
    if IsHeader(line) {
      ParseHeaderFields(line);
    }
  }

  /** Every record a run produces from well-named records is well named. */
  lemma {:induction false} RunRecordsWellNamed(st: ScanState, lines: seq<string>)
    requires AllWellNamed(st.errs) && Run(st, lines).Success?
    ensures AllWellNamed(Run(st, lines).value.errs)
    decreases |lines|
  {
    if lines != [] {
      ParseProper(lines[0]);
      ApplyKeepsWellNamed(st, Parse(lines[0]).value);
      RunRecordsWellNamed(Next(st, lines[0]).value, lines[1..]);
    }
  }
}
