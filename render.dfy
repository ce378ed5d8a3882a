/**
 * The generated constants (cmd/mysqlerrgen/main.go:144-146): one line
 * `const NAME = CODE` per record, in catalog order, as fmt.Fprintln writes
 * its operands separated by single spaces. ReadConstLine reads such a line
 * back; the two are inverses.
 */
module Render {
  import opened Outcomes
  import opened Tokens
  import opened Decimal
  import opened Catalog

  /** The line written for one record, without its newline. */
  function ConstLine(name: string, code: int): string {
    "const " + name + " = " + Itoa(code)
  }

  /** The lines written for all records, in order. */
  function ConstLines(errs: seq<MysqlError>): (lines: seq<string>)
    ensures |lines| == |errs|
    ensures forall k :: 0 <= k < |errs| ==> lines[k] == ConstLine(errs[k].name, errs[k].code)
  {
    if errs == [] then [] else [ConstLine(errs[0].name, errs[0].code)] + ConstLines(errs[1..])
  }

  /** A generated line taken apart: after "const ", a name up to the first space, " = ", and the number's text. */
  function SplitConstLine(line: string): Option<(string, string)> {
    if !HasPrefix(line, "const ") then None
    else
      var rest := line[6..];
      var i := IndexAny(rest, {' '});
      if i <= 0 || !HasPrefix(rest[i..], " = ") then None
      else Some((rest[..i], rest[i + 3..]))
  }

  /** A generated line read back: its name, and its number if written as Itoa writes it. */
  function ReadConstLine(line: string): Option<(string, int)> {
    match SplitConstLine(line)
    case None => None
    case Some((name, num)) => if Itoa(Atoi(num)) == num then Some((name, Atoi(num))) else None
  }

  lemma SplitRendered(name: string, num: string)
    requires name != [] && ' ' !in name
    ensures SplitConstLine("const " + name + " = " + num) == Some((name, num))
  {
    var line := "const " + name + " = " + num;
    assert line[..6] == "const ";
    var rest := line[6..];
    assert rest == name + " = " + num;
    assert rest[|name|] == ' ';
    assert forall k :: 0 <= k < |name| ==> rest[k] == name[k];
    assert IndexAny(rest, {' '}) == |name|;
    assert rest[..|name|] == name;
    assert rest[|name|..][..3] == " = ";
    assert rest[|name| + 3..] == num;
  }

  lemma SplitExact(line: string)
    requires SplitConstLine(line).Some?
    ensures var (name, num) := SplitConstLine(line).value;
      name != [] && ' ' !in name && "const " + name + " = " + num == line
  {
    var rest := line[6..];
    var i := IndexAny(rest, {' '});
    assert HasPrefix(rest[i..], " = ");
    NoSpaceBefore(rest, i);
    Reassemble(line, i);
  }

  /** What comes before the first space has none. */
  lemma NoSpaceBefore(rest: string, i: int)
    requires 0 < i && i == IndexAny(rest, {' '})
    ensures ' ' !in rest[..i]
  {
    assert forall k :: 0 <= k < i ==> rest[..i][k] == rest[k];
  }

  /** A line cut after "const " and around " = " is the concatenation of its parts. */
  lemma Reassemble(line: string, i: int)
    requires HasPrefix(line, "const ") && 0 <= i <= |line| - 6 && HasPrefix(line[6..][i..], " = ")
    ensures "const " + line[6..][..i] + " = " + line[6..][i + 3..] == line
  {
    var rest := line[6..];
    assert rest[i..] == rest[i..][..3] + rest[i + 3..];
    assert rest == rest[..i] + rest[i..];
    assert line == line[..6] + rest;
  }

  /** A name without spaces and a 64-bit code are read back from their line. */
  lemma ReadConstLineRoundTrip(name: string, code: int)
    requires name != [] && ' ' !in name && InInt64(code)
    ensures ReadConstLine(ConstLine(name, code)) == Some((name, code))
  {
    SplitRendered(name, Itoa(code));
    AtoiItoa(code);
  }

  /** Whatever ReadConstLine accepts is exactly the line that its result renders to. */
  lemma ReadConstLineExact(line: string)
    requires ReadConstLine(line).Some?
    ensures var (name, code) := ReadConstLine(line).value;
      name != [] && ' ' !in name && InInt64(code) && ConstLine(name, code) == line
  {
    SplitExact(line);
  }

  /**
   * A successful scan of a catalog renders to lines that each read back to
   * the name and code of their record, in catalog order.
   */
  lemma ScanRendersReadably(lines: seq<string>)
    requires Run(Initial, lines).Success?
    ensures var errs := Run(Initial, lines).value.errs;
      var out := ConstLines(errs);
      && |out| == |errs|
      && forall k :: 0 <= k < |errs| ==> ReadConstLine(out[k]) == Some((errs[k].name, errs[k].code))
  {
    RunRecordsWellNamed(Initial, lines);
    var errs := Run(Initial, lines).value.errs;
    forall k | 0 <= k < |errs|
      ensures ReadConstLine(ConstLines(errs)[k]) == Some((errs[k].name, errs[k].code))
    {
      assert WellNamed(errs[k]);
      assert ' ' !in errs[k].name by {
        assert forall j :: 0 <= j < |errs[k].name| ==> errs[k].name[j] !in WordDelimiters;
      }
      ReadConstLineRoundTrip(errs[k].name, errs[k].code);
    }
  }
}
