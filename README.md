# mysqlerrgen, modelled in Dafny

mysqlerrgen (`cmd/mysqlerrgen/main.go`) reads MySQL's error catalog, a
line-oriented text format, and writes one Go constant per error record. The
catalog consists of these line kinds:

- `language` lines list the languages;
- `start-error-number` sets the number of the next record;
- `default-language` names the default language;
- header lines (`ER_…`, `WARN_…`, `OBSOLETE_ER_…`, `OBSOLETE_WARN_…`) open a
  record, which takes the next code;
- indented lines add a localized message in double quotes to the last
  record;
- comments, blank lines and `reserved-error-section` lines are skipped.

Anything else stops the program.

The model follows the program's structure:

| file | module | what it holds |
|---|---|---|
| `outcomes.dfy` | `Outcomes` | `Option`, `Result`, and the pass/fail `Outcome` of one scanner step |
| `tokens.dfy` | `Tokens` | `consumeWord`, `trimDelimiters`, and the pieces of Go's `strings` package they use |
| `decimal.dfy` | `Decimal` | `strconv.Atoi` (bounded to int64, 0 on bad input), int64 wrap-around, and how `fmt` prints an int |
| `quoted.dfy` | `Quoted` | `parseQuoted`, as written and with its octal escape corrected (see Findings) |
| `languages.dfy` | `Languages` | `parseLanguage` |
| `catalog.dfy` | `Catalog` | the catalog format and its meaning, as functions. `Classify` gives the case of the loop's `switch` that a line takes, `Parse` what the line says, `Apply` its effect on the scanning state, and `Run` the whole loop. Lemmas about each kind of line and about whole runs sit beside them. |
| `scanner.dfy` | `Scanning` | the loop as the program runs it, decoding messages with `parseQuoted` as written. Its variables are the fields of class `Scanner`, which each line updates in place. The loop is proved to compute `Catalog.Run`. |
| `render.dfy` | `Render` | the `const NAME = CODE` lines, and a reader proved to be their inverse |

A panic of the program is a `ScanError` value. The error leaves the
scanner's variables as they were, and the scan stops there.

## Model

| member | source | states |
|---|---|---|
| Tokens.IndexAny | cmd/mysqlerrgen/main.go:154 | The index of the first character that belongs to the set, with none before it. -1 exactly when no character belongs to it. |
| Tokens.TrimLeft | cmd/mysqlerrgen/main.go:162 | The result is a suffix of the input. Every character cut belongs to the set. The result is empty or starts outside the set. |
| Tokens.ConsumeWord | cmd/mysqlerrgen/main.go:153-159 | Word and rest concatenate to the input. The word holds none of ` ,\t\r\n=`. The rest is empty or starts with one of them. |
| Tokens.ConsumeWordUnique | cmd/mysqlerrgen/main.go:153-159 | Any split with those three properties is the one consumeWord returns. |
| Tokens.ConsumeWordNonEmpty | cmd/mysqlerrgen/main.go:153-159 | An input that does not start with a delimiter gives a non-empty word that is a prefix of it. |
| Tokens.WordKeepsPrefix | cmd/mysqlerrgen/main.go:107-119 | For a delimiter-free prefix, the first word starts with it exactly when the line does. So a name is obsolete exactly when its line starts with OBSOLETE_ER_. |
| Tokens.TrimDelimiters | cmd/mysqlerrgen/main.go:161-163 | A suffix of the input. Every character cut is one of ` ,\t=`, and the result is empty or starts with another character. |
| Tokens.TrimLeftRun | cmd/mysqlerrgen/main.go:162 | A leading run of cut characters followed by text that starts outside the cut set is removed exactly. |
| Tokens.TrimDelimitersIdempotent | cmd/mysqlerrgen/main.go:161-163 | trimDelimiters applied twice equals applied once. |
| Tokens.TrimLeftIdempotent | cmd/mysqlerrgen/main.go:162 | strings.TrimLeft applied twice equals applied once, for any cut set. |
| Decimal.Int64 | cmd/mysqlerrgen/main.go:112 | An int64. It equals the input when that is in range and is congruent to it modulo 2^64 otherwise, as Go's int addition wraps. |
| Decimal.Clamp | cmd/mysqlerrgen/main.go:77 | An int64. In-range values are unchanged; values out of range become the bound on their side. |
| Decimal.Atoi | cmd/mysqlerrgen/main.go:77 | An int64. It is 0 for anything that is not an optional sign followed by digits. Otherwise its sign follows the sign character. |
| Decimal.AtoiDigits | cmd/mysqlerrgen/main.go:77 | Digits read as their value bounded to int64. A leading `+` changes nothing, and a leading `-` negates the value before bounding. |
| Decimal.LeadingZero | cmd/mysqlerrgen/main.go:77 | A leading zero adds nothing to the value of a digit string. |
| Decimal.AtoiLeadingZero | cmd/mysqlerrgen/main.go:77 | `0012`, `+0012` and `12` read as the same number, and `-0012` as `-12`. |
| Decimal.ZeroPadded | cmd/mysqlerrgen/main.go:77 | Two digit strings of the same value read as the same number, unsigned or after either sign. |
| Decimal.NatDigits | cmd/mysqlerrgen/main.go:145 | Non-empty decimal digits whose value is the number, with no leading zero. |
| Decimal.Itoa | cmd/mysqlerrgen/main.go:145 | Non-empty. A '-' comes first exactly for negative numbers, and every other character is a digit. |
| Decimal.AtoiItoa | cmd/mysqlerrgen/main.go:77 | Reading back a printed int64 gives the same number. |
| Quoted.Unquote | cmd/mysqlerrgen/main.go:189-218 | Definition, no contract: the decoder as written, by cases on the first rune. Its properties are the `Quoted.Unquote…` lemmas below, and `Quoted.ParseQuoted` proves the loop equal to it. |
| Quoted.ParseQuoted | cmd/mysqlerrgen/main.go:189-218 | The loop as written returns exactly `Unquote`: the decoded text before the first unescaped quote, or the "unexpected EOL" failure. |
| Quoted.ReadOctalAsWritten | cmd/mysqlerrgen/main.go:203-209 | The octal loop as written takes three runes, or all that are left, whatever they are. Its value is their octal value. |
| Quoted.UnquotePlainText | cmd/mysqlerrgen/main.go:192-216 | Text without quotes and backslashes, followed by a quote, decodes to exactly that text. |
| Quoted.UnquoteWithoutQuoteFails | cmd/mysqlerrgen/main.go:192-218 | Input without a quote character fails with "unexpected EOL". |
| Quoted.UnquoteEscapedChar | cmd/mysqlerrgen/main.go:210-211 | A backslash before a quote or a backslash yields that character, and decoding goes on after it. |
| Quoted.UnquoteEscapeRoundTrip | cmd/mysqlerrgen/main.go:192-216 | Any text, with its quotes and backslashes escaped and then closed by a quote, decodes back to itself. |
| Quoted.UnquoteNewline | cmd/mysqlerrgen/main.go:199-200 | `\n` yields the single byte 10, and decoding goes on right after it. |
| Quoted.UnquoteOctalEscape | cmd/mysqlerrgen/main.go:201-209 | A backslash and a digit 0-7 yield exactly one byte: the octal value of that digit and the next two runes, modulo 256. Decoding resumes one rune after them. |
| Quoted.UnquoteTrailingBackslash | cmd/mysqlerrgen/main.go:196-218 | Input that ends in a lone backslash and holds no quote fails with "unexpected EOL". |
| Quoted.OctalEscapeSkipsClosingQuote | cmd/mysqlerrgen/main.go:201-209 | `\101"` fails with the program's decoder; the corrected one gives the byte 65. |
| Quoted.OctalEscapeTakesNonDigits | cmd/mysqlerrgen/main.go:203-207 | `\7x"z"` gives the byte 242 with the program's decoder; the corrected one gives the byte 7, then `x`. |
| Quoted.UnquoteIntended | cmd/mysqlerrgen/main.go:189-218 | Definition, no contract: the decoder with the octal loop corrected. Its properties are the `Quoted.Intended…` lemmas, and `Quoted.ParseQuotedIntended` proves the corrected loop equal to it. |
| Quoted.ReadOctal | cmd/mysqlerrgen/main.go:203-209 | The corrected octal loop takes the one to three leading octal digits and stops at the first rune that is not one. |
| Quoted.ParseQuotedIntended | cmd/mysqlerrgen/main.go:189-218 | The corrected loop returns exactly `UnquoteIntended`. |
| Quoted.IntendedOctalRoundTrip | cmd/mysqlerrgen/main.go:201-209 | With the correction, any bytes written as three-digit octal escapes and closed by a quote decode back to exactly those bytes. |
| Quoted.IntendedOctalStopsEarly | cmd/mysqlerrgen/main.go:203-207 | With the correction, an escape of one or two octal digits followed by a rune that is not one gives the byte of those digits, and decoding resumes at that rune. |
| Quoted.IntendedEscapeRoundTrip | cmd/mysqlerrgen/main.go:192-216 | With the correction, escaped text closed by a quote still decodes back to itself. |
| Quoted.IntendedWithoutQuoteFails | cmd/mysqlerrgen/main.go:192-218 | With the correction, input without a quote character still fails with "unexpected EOL". |
| Languages.LanguageEntry | cmd/mysqlerrgen/main.go:174-179 | The long name, short name and charset are single words. What is left is no longer than the input and is empty or starts outside ` ,\t=`. |
| Languages.LanguageEntrySuffix | cmd/mysqlerrgen/main.go:174-179 | What one round of the loop leaves is a suffix of what it started from. |
| Languages.LanguageEntryAdvances | cmd/mysqlerrgen/main.go:173-185 | On a remainder that does not start with CR or LF, one round of the loop strictly shortens it. |
| Languages.LanguageList | cmd/mysqlerrgen/main.go:173-185 | Definition, no contract: the triples the loop collects until `;` or the end, or None where it would spin forever. Its properties are the lemmas beside it. |
| Languages.LanguagesOf | cmd/mysqlerrgen/main.go:168-170 | Definition, no contract: the loop started after the keyword and the trimmed delimiters. `Languages.LanguageLineRoundTrip` states what it gives. |
| Languages.LanguageLoopStuck | cmd/mysqlerrgen/main.go:173-185 | On a remainder that starts with CR or LF, the loop body leaves it unchanged, so no list results. |
| Languages.ParseLanguage | cmd/mysqlerrgen/main.go:168-187 | The loop returns exactly `LanguagesOf(line)`: the triples up to `;` or the end of the line. |
| Languages.LoopStep | cmd/mysqlerrgen/main.go:173-184 | One round of the loop moves the entry it reads from the remainder to the collected triples, and shortens the remainder. |
| Languages.LanguageListEnds | cmd/mysqlerrgen/main.go:173-185 | On a line without CR and LF the loop always ends with a list. |
| Languages.LanguageListWords | cmd/mysqlerrgen/main.go:173-185 | Every triple that the loop collects is made of single words. |
| Languages.LanguagesOfWords | cmd/mysqlerrgen/main.go:168-187 | The same, for each triple of a whole `language` line. |
| Languages.LanguageEntryOf | cmd/mysqlerrgen/main.go:174-179 | One round reads `long=short charset` back as exactly that triple when a delimiter or the end follows, and leaves the rest with its delimiters trimmed. |
| Languages.WordThenDelimiter | cmd/mysqlerrgen/main.go:153-163 | A word followed by one trimmed delimiter splits at that delimiter, and trimming then leaves the text after it. |
| Languages.ListTextRoundTrip | cmd/mysqlerrgen/main.go:165-187 | A list written as `long=short charset`, entries separated by `, ` and closed by ` ;`, parses back to exactly its triples. |
| Languages.WrittenListParses | cmd/mysqlerrgen/main.go:173-185 | Any text laid out as such a list parses to exactly its triples. |
| Languages.EntryListCons | cmd/mysqlerrgen/main.go:173-185 | An entry and a separator in front of a list's text put the entry in front of the list. |
| Languages.LanguageListCons | cmd/mysqlerrgen/main.go:173-185 | The entry one round reads from the front heads the list collected from the whole text. |
| Languages.LanguageLineRoundTrip | cmd/mysqlerrgen/main.go:165-187 | A whole `languages` line, keyword included, gives exactly the triples it lists. |
| Languages.KeywordThenList | cmd/mysqlerrgen/main.go:169-170 | After the keyword and one space, the loop starts on the written-out list itself. |
| Languages.SemicolonJoinsCharset | cmd/mysqlerrgen/main.go:173-185 | A `;` written right after the last charset, with no blank before it, becomes part of that charset and does not end the list early. |
| Languages.LastEntry | cmd/mysqlerrgen/main.go:173-185 | Text whose first round reads one triple and leaves nothing is the list of that triple alone. |
| Catalog.Classify | cmd/mysqlerrgen/main.go:67-127 | Definition, no contract: the first case of the switch whose condition holds, in source order. `Catalog.ClassifyMessage`, `ClassifyHeader`, `ClassifyComment`, `ClassifyReserved` and `ClassifyUnknown` state which lines take each case. |
| Catalog.Argument | cmd/mysqlerrgen/main.go:71-73 | Definition, no contract: the word after the keyword and its delimiters. `Catalog.OffsetLineRenumbers` states its use. |
| Catalog.Parse | cmd/mysqlerrgen/main.go:67-127 | Definition, no contract: what a line says, by the case it takes. `Catalog.OpensRecordIffHeader`, `SetsOffsetOnlyByKeyword`, `ParseHeaderOf`, `MessageLineExample` and `ParseUnknown` state its results. |
| Catalog.ParseMessage | cmd/mysqlerrgen/main.go:87-99 | Definition, no contract: the language code and the text decoded by `Quoted.Unquote`. `Catalog.MessageAppends` and `MessageLineExample` state its results. |
| Catalog.ParseHeader | cmd/mysqlerrgen/main.go:105-119 | Definition, no contract: the first three words. `Catalog.ParseHeaderOf` states which words they are. |
| Catalog.Apply | cmd/mysqlerrgen/main.go:67-127 | Definition, no contract: a directive's effect on the state. `Catalog.ApplyOpenRecord`, `ApplyAddText` and `ApplyKeepsRecords` state it. |
| Catalog.Next | cmd/mysqlerrgen/main.go:66-127 | Definition, no contract: Parse, then Apply. The lemmas on single lines below state it. |
| Catalog.Run | cmd/mysqlerrgen/main.go:65-128 | Definition, no contract: Next over the lines, up to the first failure. `Catalog.RunKeepsRecords`, `RunKeepsDefaultNumbering` and `DefaultCodes` state it. |
| Catalog.SplitAtBlank | cmd/mysqlerrgen/main.go:90-94 | The language code and the rest concatenate to the input. The code holds no blank, and the rest is empty or starts with a blank. |
| Catalog.SplitAtBlankUnique | cmd/mysqlerrgen/main.go:90-94 | Any cut of the text after a blank-free code, before a blank or at the end, is the one the program makes. |
| Catalog.MessageParts | cmd/mysqlerrgen/main.go:88-95 | The language code of a message line holds no blank, and the rest is empty or starts with a non-blank. |
| Catalog.MessagePartsSplit | cmd/mysqlerrgen/main.go:88-95 | A line is blanks, then the language code, then blanks, then the rest. The rest is empty when no blank follows the code. |
| Catalog.MessagePartsOf | cmd/mysqlerrgen/main.go:88-95 | Conversely, a line made of indentation, a blank-free code, blanks and a rest that starts with a non-blank yields exactly that code and that rest. |
| Catalog.BlankRun | cmd/mysqlerrgen/main.go:88 | The blanks TrimLeft cuts and what it leaves make up the line. |
| Catalog.MessageLineExample | cmd/mysqlerrgen/main.go:87-99 | The line `\tfoo "hello"` adds the text `hello` for the language `foo`. |
| Catalog.AddMessage | cmd/mysqlerrgen/main.go:100-104 | Same length; every record before the last is unchanged; the last record gains the message at the end of its messages. |
| Catalog.ClassifyMessage | cmd/mysqlerrgen/main.go:68-87 | A line is a message line exactly when it starts with a space or a tab. No earlier case takes it. |
| Catalog.ClassifyHeader | cmd/mysqlerrgen/main.go:68-105 | A line is a header exactly when it starts with one of the four record prefixes. |
| Catalog.ClassifyComment | cmd/mysqlerrgen/main.go:121 | The empty line and lines starting with `#` are comments. |
| Catalog.ClassifyReserved | cmd/mysqlerrgen/main.go:123 | Lines starting with `reserved-error-section` reach that case. |
| Catalog.ClassifyUnknown | cmd/mysqlerrgen/main.go:67-126 | A line falls to the default case exactly when it is non-empty and starts with no keyword, no blank, no record prefix, no `#` and no `reserved-error-section`. |
| Catalog.HeaderName | cmd/mysqlerrgen/main.go:105-107 | The first word of a header line is non-empty and keeps the line's record prefix. |
| Catalog.ParseHeaderFields | cmd/mysqlerrgen/main.go:105-120 | A header line opens a record. The name is its first word and itself a header; the SQL state is the next word. It is obsolete exactly when the line starts with OBSOLETE_ER_. |
| Catalog.ParseHeaderOf | cmd/mysqlerrgen/main.go:105-119 | A line written as name, delimiters, SQL state, delimiters, ODBC state and anything after a delimiter opens the record of exactly those three words, obsolete exactly when the name starts with OBSOLETE_ER_. |
| Catalog.HeaderParses | cmd/mysqlerrgen/main.go:105-120 | A header line takes the header case, which never fails. |
| Catalog.HeaderExtends | cmd/mysqlerrgen/main.go:105 | Whatever follows a header name, the line still starts with its record prefix. |
| Catalog.HeaderWords | cmd/mysqlerrgen/main.go:105-107 | A header name followed by a delimiter is the line's first word, and the line takes the header case. |
| Catalog.OpensRecordIffHeader | cmd/mysqlerrgen/main.go:105-120 | A line opens a record exactly when it is a header. |
| Catalog.SetsOffsetOnlyByKeyword | cmd/mysqlerrgen/main.go:70-78 | Only a `start-error-number` line sets the offset. |
| Catalog.ApplyOpenRecord | cmd/mysqlerrgen/main.go:112-120 | Opening a record appends one record with code int64(offset + rCount) and no messages. It increments rCount, and nothing else changes. |
| Catalog.HeaderAppendsRecord | cmd/mysqlerrgen/main.go:105-120 | A header line always succeeds. It appends exactly one record with the line's fields and increments rCount; the offset, the languages and the earlier records are unchanged. |
| Catalog.OffsetLineRenumbers | cmd/mysqlerrgen/main.go:70-78 | A `start-error-number` line sets the offset to the parsed number and resets rCount, ignoring trailing tokens. The next header's code is that number. |
| Catalog.MessageAppends | cmd/mysqlerrgen/main.go:87-104 | A message line succeeds exactly when a record exists, the rest is non-empty and it decodes with the program's decoder. It then appends one message to the last record, and everything else is unchanged. |
| Catalog.IgnoredLinesKeepState | cmd/mysqlerrgen/main.go:121-123 | Comments, blank lines and `reserved-error-section` lines leave the whole state unchanged. |
| Catalog.UnknownLineFails | cmd/mysqlerrgen/main.go:124-126 | A line fails with the unknown-format error naming it exactly when no case accepts it. |
| Catalog.ParseUnknown | cmd/mysqlerrgen/main.go:67-126 | Only the default case yields the unknown-format error. |
| Catalog.ApplyKeepsRecords | cmd/mysqlerrgen/main.go:67-127 | A directive keeps every existing record's name, code and states in place. Messages are only appended, and a record is added only by a header. |
| Catalog.NextKeepsRecords | cmd/mysqlerrgen/main.go:66-127 | One line keeps every record and adds one exactly when it is a header. |
| Catalog.RunKeepsRecords | cmd/mysqlerrgen/main.go:65-128 | A whole run only appends records, one per header line. Earlier records keep their fields and their earlier messages. |
| Catalog.ApplyKeepsDefaultNumbering | cmd/mysqlerrgen/main.go:105-120 | Without an offset line, record k keeps code 1000 + k and rCount counts the records. |
| Catalog.RunKeepsDefaultNumbering | cmd/mysqlerrgen/main.go:65-128 | The same holds across a whole run of lines. |
| Catalog.DefaultCodes | cmd/mysqlerrgen/main.go:60-120 | With no `start-error-number` line, the N-th header's record gets code 1000 + N - 1. |
| Catalog.ApplyKeepsWellNamed | cmd/mysqlerrgen/main.go:105-120 | Every record name stays a non-empty, delimiter-free header name with an int64 code. |
| Catalog.ParseProper | cmd/mysqlerrgen/main.go:105-120 | Every record-opening directive a line produces carries such a name. |
| Catalog.RunRecordsWellNamed | cmd/mysqlerrgen/main.go:65-128 | After a successful run, every record has such a name and an int64 code. |
| Scanning.Scanner.constructor | cmd/mysqlerrgen/main.go:60-64 | The variables start as "eng", 1000, 0, no languages and no records. |
| Scanning.Scanner.Perform | cmd/mysqlerrgen/main.go:67-127 | The fields change exactly as `Apply` says. On a failure nothing changes. |
| Scanning.Scanner.Step | cmd/mysqlerrgen/main.go:66-127 | One pass of the loop body changes the fields exactly as `Next` says and fails with the same error. |
| Scanning.ReadLine | cmd/mysqlerrgen/main.go:67-127 | The switch reads a line exactly as `Parse` does, decoding messages with the program's decoder. |
| Scanning.ReadMessage | cmd/mysqlerrgen/main.go:88-99 | A message line is read exactly as `ParseMessage` does, calling the `parseQuoted` loop as written. |
| Scanning.Scan | cmd/mysqlerrgen/main.go:59-128 | The loop over all lines computes `Run(Initial, lines)`. |
| Render.ConstLine | cmd/mysqlerrgen/main.go:145 | Definition, no contract: `const NAME = CODE`. `Render.ReadConstLineRoundTrip` and `ReadConstLineExact` state that it can be read back. |
| Render.ConstLines | cmd/mysqlerrgen/main.go:144-146 | One line per record, in catalog order, each `const NAME = CODE`. |
| Render.ReadConstLineRoundTrip | cmd/mysqlerrgen/main.go:145 | A line for a name without spaces and an int64 code reads back to that name and code. |
| Render.ReadConstLineExact | cmd/mysqlerrgen/main.go:145 | Whatever the reader accepts is exactly the line its result prints to. |
| Render.ScanRendersReadably | cmd/mysqlerrgen/main.go:144-146 | After a successful scan, every written line reads back to the name and code of its record. |

## Left out

- Flag parsing, the HTTP fetch and the choice of stdin (main.go:43-57) are I/O; the model takes the catalog as a sequence of lines.
- bufio.Scanner's line splitting and its token size limit (main.go:59, 65-66) are library code; a line is given already split, without its line end.
- Creating the package directory and `constants.go`, the first two output lines, `writeLicense`, and the error handling of `Fprintln` and `Close` (main.go:132-143, 147-150, 221-237) are file I/O and a fixed text. Only the text of the per-record lines is modelled, without its newline.
- Strings are sequences of code points. main.go:99 drops the first byte of the rest; the model drops its first character. The two differ only when that character is not ASCII.
- Decoded text is a sequence of pieces, each a raw byte or a character. Neither the UTF-8 encoding that strings.Builder writes nor Go's replacement of invalid UTF-8 when converting to `[]rune` is modelled.
- Decimal.Atoi: strconv.Atoi on a number that overflows before an invalid character returns the bound on its side. The model returns 0 for any input that is not a well-formed number.
- The panic message of the default case quotes the line with strconv.Quote (main.go:126). `UnknownFormat` carries the raw line. No panic message text is modelled.
- rCount is not wrapped: reaching 2^63 would take that many header lines. Go's int is taken to be 64 bits wide.
- The program does not read previously generated constants and emits no aliases for renamed records, so the model has neither. `Render.ReadConstLine` exists only as the inverse of the line format.
- The program records the languages and the default language but never uses them (main.go:129-130). The model records them and nothing more.
- parseLanguage never returns when its remainder starts with CR or LF (main.go:173-185). The model ends the scan there with `LanguageLoopDiverges`. `Languages.LanguageListEnds` shows that this is the only way the loop fails to end.

## Findings

| source | as written | input that shows it | evidently intended | confidence | as-written member | corrected member |
|---|---|---|---|---|---|---|
| cmd/mysqlerrgen/main.go:201-209 | After the octal loop, `i` already points past the last digit, and the outer loop's `i++` steps over one more rune. | `\101"`: the closing quote is skipped, so parseQuoted panics "unexpected EOL" instead of returning the byte 65. | The escape ends after its digits and decoding resumes at the next rune. | not executed | Quoted.OctalEscapeSkipsClosingQuote | Quoted.IntendedOctalRoundTrip |
| cmd/mysqlerrgen/main.go:203-207 | The guard `r[i] < '0' && '7' < r[i]` can never hold, so the loop takes three runes whatever they are. | `\7x"z"`: the loop takes `x` and the quote into the value and yields the byte 242, where the byte 7 and `x` were meant. | The loop stops at the first rune that is not an octal digit (`\|\|`). | not executed | Quoted.OctalEscapeTakesNonDigits | Quoted.IntendedOctalStopsEarly |

`Quoted.Unquote` and `Quoted.ParseQuoted` model the decoder as written. The
catalog (`Catalog.ParseMessage`) and the scanner (`Scanning.ReadMessage`)
decode messages with it, as the program does. The corrected decoder is
`Quoted.UnquoteIntended`, and `Quoted.ParseQuotedIntended` is its loop. It
stands on its own, with its round-trip proved.

The code itself shows the intent. The `i--` before `break` at main.go:204-206
steps back so that the outer loop's `i++` lands on the rune after the escape.
That is only right if the inner loop stops on a non-digit, which needs `||`.
With the same step-back after a full three digits, `\101` is the byte 65, and
`\7x` is the byte 7 followed by `x`.
