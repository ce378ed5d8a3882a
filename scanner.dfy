/**
 * The scanning loop of cmd/mysqlerrgen/main.go:59-128 as the program runs
 * it: the loop variables are the fields of a Scanner, each line updates
 * them in place, and the whole loop is proved to compute Catalog.Run.
 */
module Scanning {
  import opened Outcomes
  import opened Tokens
  import opened Decimal
  import opened Quoted
  import opened Languages
  import opened Catalog

  class Scanner {
    var defaultLanguage: string
    var errorCodeOffset: int
    var rCount: int
    var languages: seq<Language>
    var errs: seq<MysqlError>

    /** The loop variables as one value. */
    function State(): ScanState
      reads this
    {
      ScanState(defaultLanguage, errorCodeOffset, rCount, languages, errs)
    }

    /** The variables as declared before the loop (main.go:60-64). */
    constructor()
      ensures State() == Initial
    {
      defaultLanguage := "eng";
      errorCodeOffset := 1000;
      rCount := 0;
      languages := [];
      errs := [];
    }

    /**
     * The effect of a parsed line on the variables (main.go:67-123): a
     * message needs a record to attach to; without one the source panics
     * and nothing changes.
     */
    method Perform(d: Directive) returns (outcome: Outcome<ScanError>)
      modifies this
      ensures Agrees(outcome, old(State()), State(), Apply(old(State()), d))
    {
      match d {
        case SetLanguages(langs) =>
          languages := langs;
        case SetOffset(offset) =>
          errorCodeOffset := offset;
          rCount := 0;
        case SetDefaultLanguage(name) =>
          defaultLanguage := name;
        case AddText(lang, text) =>
          if errs == [] {
            return Fail(NoCurrentRecord);
          }
          var cur := errs[|errs| - 1];
          errs := errs[..|errs| - 1] + [cur.(messages := cur.messages + [Message(lang, text)])];
        case OpenRecord(name, sqlState, odbcState, obsolete) =>
          var errorCode := Int64(errorCodeOffset + rCount);
          rCount := rCount + 1;
          errs := errs + [MysqlError(name, errorCode, sqlState, odbcState, [], obsolete)];
        case Ignore =>
      }
      return Pass;
    }

    /**
     * One pass of the loop body on `line` (main.go:66-127). A panic of the
     * source, or the line on which parseLanguage never returns, is a
     * failure that leaves every variable as it was.
     */
    method Step(line: string) returns (outcome: Outcome<ScanError>)
      modifies this
      ensures Agrees(outcome, old(State()), State(), Next(old(State()), line))
    {
      var parsed := ReadLine(line);
      if parsed.Failure? {
        return Fail(parsed.error);
      }
      outcome := Perform(parsed.value);
    }
  }

  /** A step's outcome and the variables after it agree with the result `r` of the model. */
  predicate Agrees(outcome: Outcome<ScanError>, before: ScanState, after: ScanState, r: Result<ScanState, ScanError>) {
    && (outcome.Pass? <==> r.Success?)
    && (outcome.Pass? ==> after == r.value)
    && (outcome.Fail? ==> outcome.error == r.error && after == before)
  }

  /**
   * The switch of the loop body (main.go:67-127) up to the point where it
   * touches the variables: the case the line takes (Classify, which tests
   * the conditions of the switch in their order) and what the line says.
   */
  method ReadLine(line: string) returns (parsed: Result<Directive, ScanError>)
    ensures parsed == Parse(line)
  {
    var kind := Classify(line);
    match kind {
      case LanguageLine =>
        var langs := ParseLanguage(line);
        if langs.None? {
          return Failure(LanguageLoopDiverges);
        }
        return Success(SetLanguages(langs.value));
      case StartErrorNumber =>
        var (_, afterKeyword) := ConsumeWord(line);
        var (offsetStr, _) := ConsumeWord(TrimDelimiters(afterKeyword));
        return Success(SetOffset(Atoi(offsetStr)));
      case DefaultLanguage =>
        var (_, afterKeyword) := ConsumeWord(line);
        var (shortName, _) := ConsumeWord(TrimDelimiters(afterKeyword));
        return Success(SetDefaultLanguage(shortName));
      case MessageLine =>
        parsed := ReadMessage(line);
      case Header =>
        return Success(ParseHeader(line));
      case Comment =>
        return Success(Ignore);
      case ReservedSection =>
        return Success(Ignore);
      case Unknown =>
        return Failure(UnknownFormat(line));
    }
  }

  /**
   * A message line (main.go:87-99): the language code, then the quoted
   * text, decoded by parseQuoted as written. The opening quote is
   * not checked, only dropped.
   */
  method ReadMessage(line: string) returns (parsed: Result<Directive, ScanError>)
    ensures parsed == ParseMessage(line)
  {
    var t := TrimLeft(line, Blanks);
    var langShortName, rest;
    var i := IndexAny(t, Blanks);
    if 0 <= i {
      langShortName, rest := t[..i], t[i..];
    } else {
      langShortName, rest := t, [];
    }
    rest := TrimLeft(rest, Blanks);
    if rest == [] {
      return Failure(EmptyQuotedRemainder);
    }
    var text := ParseQuoted(rest[1..]);
    if text.None? {
      return Failure(UnexpectedEOL);
    }
    return Success(AddText(langShortName, text.value));
  }

  lemma RunFrom(st: ScanState, lines: seq<string>, k: nat)
    requires k < |lines|
    ensures Run(st, lines[k..]) ==
      match Next(st, lines[k])
      case Failure(e) => Failure(e)
      case Success(st') => Run(st', lines[k + 1..])
  {
    assert lines[k..][1..] == lines[k + 1..];
  }

  /** The loop over every line of the catalog (main.go:65-128). */
  method Scan(lines: seq<string>) returns (res: Result<ScanState, ScanError>)
    ensures res == Run(Initial, lines)
  {
    var sc := new Scanner();
    var k := 0;
    while k < |lines|
      invariant 0 <= k <= |lines|
      invariant Run(Initial, lines) == Run(sc.State(), lines[k..])
    {
      RunFrom(sc.State(), lines, k);
      var outcome := sc.Step(lines[k]);
      if outcome.Fail? {
        return Failure(outcome.error);
      }
      k := k + 1;
    }
    return Success(sc.State());
  }
}
