/** The byte budgets of the support report: quoted details, operation details
    and the report itself. */
module ByteBudget {

  const DETAIL_LIMIT: nat := 8 * 1024
  const REPORT_LIMIT: nat := 256 * 1024
  const SUFFIX: string := "\U{2026}[truncated]"
  const OMITTED: string := "omitted"
  const TRUNCATION_LINE: string := "- [report truncated at 256 KiB]"

  // ----- Quoting ------------------------------------------------------------

  /** How many bytes each rune takes inside a quoted string; quoting writes at
      least one byte for every rune. */
  type QuoteCost = cost: char -> nat | forall c :: cost(c) >= 1 witness c => 1

  ghost function Cost(cost: QuoteCost, runes: string): nat {
    if runes == "" then 0 else Cost(cost, runes[..|runes| - 1]) + cost(runes[|runes| - 1])
  }

  /** The length of the quoted string: its runes between two quotation marks. */
  ghost function QuotedLength(cost: QuoteCost, runes: string): nat { Cost(cost, runes) + 2 }

  lemma {:induction false} CostOfConcatenation(cost: QuoteCost, a: string, b: string)
    ensures Cost(cost, a + b) == Cost(cost, a) + Cost(cost, b)
  {
    if b == "" {
      assert a + b == a;
    } else {
      assert (a + b)[..|a + b| - 1] == a + b[..|b| - 1];
      CostOfConcatenation(cost, a, b[..|b| - 1]);
    }
  }

  lemma {:induction false} LongerPrefixCostsMore(cost: QuoteCost, runes: string, i: nat, j: nat)
    requires i < j <= |runes|
    ensures Cost(cost, runes[..i]) < Cost(cost, runes[..j])
  {
    assert runes[..j][..j - 1] == runes[..j - 1];
    if i < j - 1 { LongerPrefixCostsMore(cost, runes, i, j - 1); }
  }

  /** What a detail becomes: the quoted text, or nothing when no quoted text fits. */
  datatype Quoted = Nothing | Text(text: string)

  function TrimSuffix(value: string, suffix: string): string {
    if |suffix| <= |value| && value[|value| - |suffix|..] == suffix then value[..|value| - |suffix|] else value
  }

  ghost predicate Fits(cost: QuoteCost, text: string, limit: int) { QuotedLength(cost, text) <= limit }

  method Measure(cost: QuoteCost, text: string) returns (length: nat)
    ensures length == QuotedLength(cost, text)
  {
    length := 2;
    for i := 0 to |text|
      invariant length == QuotedLength(cost, text[..i])
    {
      assert text[..i + 1][..i] == text[..i];
      length := length + cost(text[i]);
    }
    assert text[..|text|] == text;
  }

  /** The binary search keeps the longest prefix whose quoted, marked form fits. */
  method QuoteWithin(cost: QuoteCost, value: string, limit: int) returns (quoted: Quoted)
    ensures Fits(cost, value, limit) ==> quoted == Text(value)
    ensures !Fits(cost, value, limit) && !Fits(cost, SUFFIX, limit) ==> quoted == Nothing
    ensures !Fits(cost, value, limit) && Fits(cost, SUFFIX, limit) ==>
              var runes := TrimSuffix(value, SUFFIX);
              exists kept ::
                && 0 <= kept < |runes| + (if runes == "" then 1 else 0)
                && quoted == Text(runes[..kept] + SUFFIX) && Fits(cost, runes[..kept] + SUFFIX, limit)
                && forall more | kept < more <= |runes| :: !Fits(cost, runes[..more] + SUFFIX, limit)
  {
    var whole := Measure(cost, value);
    if whole <= limit {
      return Text(value);
    }
    var marker := Measure(cost, SUFFIX);
    if marker > limit {
      return Nothing;
    }
    var runes := TrimSuffix(value, SUFFIX);
    var low, high := 0, |runes|;
    assert runes[..0] + SUFFIX == SUFFIX;
    while low < high
      invariant 0 <= low <= high <= |runes|
      invariant Fits(cost, runes[..low] + SUFFIX, limit)
      invariant forall more | high < more <= |runes| :: !Fits(cost, runes[..more] + SUFFIX, limit)
    {
      var middle := (low + high + 1) / 2;
      var length := Measure(cost, runes[..middle] + SUFFIX);
      if length <= limit {
        low := middle;
      } else {
        forall more | middle <= more <= |runes| ensures !Fits(cost, runes[..more] + SUFFIX, limit) {
          PrefixMonotone(cost, runes, middle, more);
        }
        high := middle - 1;
      }
    }
    if low == |runes| && runes != "" { WholeDoesNotFit(cost, value, limit); }
    return Text(runes[..low] + SUFFIX);
  }

  lemma PrefixMonotone(cost: QuoteCost, runes: string, i: nat, j: nat)
    requires i <= j <= |runes|
    ensures QuotedLength(cost, runes[..i] + SUFFIX) <= QuotedLength(cost, runes[..j] + SUFFIX)
  {
    CostOfConcatenation(cost, runes[..i], SUFFIX);
    CostOfConcatenation(cost, runes[..j], SUFFIX);
    if i < j { LongerPrefixCostsMore(cost, runes, i, j); }
  }

  /** A value that does not fit does not fit with the marker after it either,
      whether or not it already ended with the marker. */
  lemma WholeDoesNotFit(cost: QuoteCost, value: string, limit: int)
    requires !Fits(cost, value, limit)
    ensures var runes := TrimSuffix(value, SUFFIX); !Fits(cost, runes[..|runes|] + SUFFIX, limit)
  {
    var runes := TrimSuffix(value, SUFFIX);
    assert runes[..|runes|] == runes;
    if runes == value {
      CostOfConcatenation(cost, value, SUFFIX);
    } else {
      assert runes + SUFFIX == value;
    }
  }

  // ----- Operation details --------------------------------------------------

  /** An operation's line: fixed labels, an output field and step labels. */
  datatype Detail = Detail(base: string, output: Quoted, steps: string)

  ghost function FieldLength(cost: QuoteCost, output: Quoted): nat {
    if output.Nothing? then |OMITTED| else QuotedLength(cost, output.text)
  }

  ghost function DetailLength(cost: QuoteCost, d: Detail): nat {
    |d.base| + |" detail="| + FieldLength(cost, d.output) + |d.steps|
  }

  datatype DetailResult = Built(detail: Detail) | TooLong

  /** The output takes what the labels leave of the 8 KiB. Only labels that are
      too long by themselves are refused: the second check never fires. */
  method BuildOperationDetail(cost: QuoteCost, base: string, output: string, steps: string) returns (r: DetailResult)
    ensures r.TooLong? <==> DetailLength(cost, Detail(base, Nothing, steps)) > DETAIL_LIMIT
    ensures r.Built? ==> r.detail.base == base && r.detail.steps == steps
    ensures r.Built? ==> DetailLength(cost, r.detail) <= DETAIL_LIMIT
    ensures r.Built? && output == "" ==> r.detail.output == Nothing
    ensures r.Built? && output != "" && DetailLength(cost, Detail(base, Text(output), steps)) <= DETAIL_LIMIT ==>
              r.detail.output == Text(output)
    ensures r.Built? && output != "" && r.detail.output.Nothing? ==>
              DetailLength(cost, Detail(base, Text(SUFFIX), steps)) > DETAIL_LIMIT
    ensures r.Built? && r.detail.output.Text? && r.detail.output.text != output ==>
              var runes := TrimSuffix(output, SUFFIX);
              exists kept :: 0 <= kept <= |runes| && r.detail.output == Text(runes[..kept] + SUFFIX) &&
                forall more | kept < more <= |runes| ::
                  DetailLength(cost, Detail(base, Text(runes[..more] + SUFFIX), steps)) > DETAIL_LIMIT
  {
    var fixed := |base| + |" detail="| + |OMITTED| + |steps|;
    if fixed > DETAIL_LIMIT {
      return TooLong;
    }
    var extra := DETAIL_LIMIT - fixed;
    var field := Nothing;
    var fieldLength := |OMITTED|;
    if output != "" {
      field := QuoteWithin(cost, output, |OMITTED| + extra);
      if field.Text? {
        fieldLength := Measure(cost, field.text);
      }
    }
    if |base| + |" detail="| + fieldLength + |steps| > DETAIL_LIMIT {
      assert false;
    }
    return Built(Detail(base, field, steps));
  }

  // ----- The report ---------------------------------------------------------

  function AppendLine(report: string, line: string, limit: int): (r: (string, bool)) {
    if |report| + |line| + 1 > limit then (report, false) else (report + line + "\n", true)
  }

  /** The header is written line by line; a line that does not fit is skipped. */
  function Header(lines: seq<string>): (text: string)
    ensures |text| <= REPORT_LIMIT
  {
    if lines == [] then "" else AppendLine(Header(lines[..|lines| - 1]), lines[|lines| - 1], REPORT_LIMIT).0
  }

  ghost function Lines(issues: seq<string>): string {
    if issues == [] then "" else Lines(issues[..|issues| - 1]) + issues[|issues| - 1] + "\n"
  }

  const ISSUE_LIMIT: int := REPORT_LIMIT - |TRUNCATION_LINE| - 1

  /** A printed number or time, or a constant of the build. */
  type Fact = s: string | |s| <= 64 witness ""

  datatype Facts = Facts(generated: Fact, version: Fact, os: Fact, architecture: Fact, restic: Fact, kopia: Fact,
                         retention: Fact)

  function HeaderLines(f: Facts, none: bool): (lines: seq<string>) {
    ["Replicaro diagnostic error log", "",
     "Generated (UTC): " + f.generated, "Replicaro version: " + f.version,
     "Operating system: " + f.os, "Architecture: " + f.architecture, "",
     "Managed vault counts:", "- Restic vaults: " + f.restic, "- Kopia vaults: " + f.kopia, "",
     "Recent issues (newest first; retention=" + f.retention + " days; maximum=200):"]
    + if none then ["- No retained issues were found."] else []
  }

  const LINE: int := 256

  lemma {:induction false} HeaderIsShort(lines: seq<string>)
    requires forall line :: line in lines ==> |line| <= LINE
    ensures |Header(lines)| <= |lines| * (LINE + 1)
  {
    if lines != [] {
      HeaderIsShort(lines[..|lines| - 1]);
    }
  }

  /** The header always leaves room for the truncation line. */
  lemma HeaderLeavesRoom(f: Facts, none: bool)
    ensures |Header(HeaderLines(f, none))| <= ISSUE_LIMIT
  {
    HeaderIsShort(HeaderLines(f, none));
  }

  /** The report stays within 256 KiB and keeps a prefix of the sorted issues, the
      longest one that leaves room for the truncation line, which is written exactly
      when an issue was dropped. */
  method BuildReport(facts: Facts, issues: seq<string>) returns (report: string, kept: nat)
    ensures |report| <= REPORT_LIMIT && kept <= |issues|
    ensures var header := Header(HeaderLines(facts, issues == []));
      && report == header + Lines(issues[..kept]) + (if kept < |issues| then TRUNCATION_LINE + "\n" else "")
      && |header + Lines(issues[..kept])| <= ISSUE_LIMIT
      && (kept < |issues| ==> |header + Lines(issues[..kept + 1])| > ISSUE_LIMIT)
  {
    report := "";
    var header := HeaderLines(facts, issues == []);
    HeaderLeavesRoom(facts, issues == []);
    hide HeaderLines;
    for i := 0 to |header|
      invariant report == Header(header[..i])
    {
      assert header[..i + 1][..i] == header[..i];
      report := AppendLine(report, header[i], REPORT_LIMIT).0;
    }
    assert header[..|header|] == header;
    hide Header;
    kept := 0;
    while kept < |issues|
      invariant 0 <= kept <= |issues|
      invariant report == Header(header) + Lines(issues[..kept]) && |report| <= ISSUE_LIMIT
    {
      assert issues[..kept + 1][..kept] == issues[..kept];
      var (longer, appended) := AppendLine(report, issues[kept], ISSUE_LIMIT);
      if !appended {
        report := AppendLine(report, TRUNCATION_LINE, REPORT_LIMIT).0;
        return;
      }
      assert longer == Header(header) + Lines(issues[..kept + 1]);
      report, kept := longer, kept + 1;
    }
  }
}
