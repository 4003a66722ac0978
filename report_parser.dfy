/** `parse_analysis_result` (pythonProject2/main_app.py): one forward scan
    over the lines of an analysis report that routes each stripped,
    non-blank line to the section announced by the last marker line, cuts
    the rows of the "top 5 combinations" table into 7-field trade rows, and
    gives up with a fixed "no results" record as soon as a line says that no
    valid strategy was found. */
module ReportParser {
  import opened Wrappers
  import opened PyStr

  /** The value of `current_section`: None, "summary", "risk", "pricing" or
      "top5". */
  datatype Section = NoSection | Summary | Risk | Pricing | Top5

  /** One line of the table: Rank, Expiration, Strikes, Net Cost, Net Vega,
      Efficiency, Score, each still display text. */
  datatype TradeRow = TradeRow(
    rank: string, expiration: string, strikes: string, netCost: string,
    netVega: string, efficiency: string, score: string)

  /** The dictionary the parser returns. */
  datatype ParsedReport = ParsedReport(
    summary: string, risk: string, pricingComparison: string, top5: seq<TradeRow>)

  const NoResultsPhrase := "No valid strategies found"

  /** What the parser returns once it meets the no-results line. */
  const NoResultsReport := ParsedReport(NoResultsPhrase + " for these parameters.", "", "", [])

  function Fields(row: TradeRow): seq<string>
  {
    [row.rank, row.expiration, row.strikes, row.netCost, row.netVega, row.efficiency, row.score]
  }

  // ---------------------------------------------------------------------
  // Table rows

  /** A table cell as the row extractor leaves it: non-empty, without
      surrounding whitespace, without `|`. */
  predicate IsCell(f: string)
  {
    f != [] && IsStripped(f) && '|' !in f
  }

  /** Every field of the row is a cell. */
  predicate IsCellRow(row: TradeRow)
  {
    IsCell(row.rank) && IsCell(row.expiration) && IsCell(row.strikes) && IsCell(row.netCost)
    && IsCell(row.netVega) && IsCell(row.efficiency) && IsCell(row.score)
  }

  /** `[part.strip() for part in line.split("|") if part.strip()]`. */
  function Pieces(line: string): (r: seq<string>)
    ensures forall k :: 0 <= k < |r| ==> IsCell(r[k])
  {
    var parts := Split(line, '|');
    NonEmptyStrippedCells(parts);
    NonEmptyStripped(parts)
  }

  /** The stripped parts that are not empty, in order. */
  function NonEmptyStripped(parts: seq<string>): (r: seq<string>)
    ensures |r| <= |parts|
  {
    if parts == [] then []
    else
      var p := Strip(parts[0]);
      var rest := NonEmptyStripped(parts[1..]);
      if p != [] then [p] + rest else rest
  }

  /** Parts without `|` leave only cells. */
  lemma {:induction false} NonEmptyStrippedCells(parts: seq<string>)
    requires forall k :: 0 <= k < |parts| ==> '|' !in parts[k]
    ensures forall k :: 0 <= k < |NonEmptyStripped(parts)| ==> IsCell(NonEmptyStripped(parts)[k])
  {
    if parts != [] {
      var p, rest := Strip(parts[0]), parts[1..];
      assert forall k :: 0 <= k < |rest| ==> rest[k] == parts[k + 1];
      NonEmptyStrippedCells(rest);
      StripKeepsOut(parts[0], '|');
      var tail := NonEmptyStripped(rest);
      if p != [] {
        assert NonEmptyStripped(parts) == [p] + tail;
        assert forall k :: 0 < k < |tail| + 1 ==> ([p] + tail)[k] == tail[k - 1];
      } else {
        assert NonEmptyStripped(parts) == tail;
      }
    }
  }

  /** The column-header test: the upper-cased line names both RANK and
      EXPIRATION. */
  predicate IsHeader(line: string)
  {
    Contains(Upper(line), "RANK") && Contains(Upper(line), "EXPIRATION")
  }

  /** What happens to a stripped line met in the top5 section: a row, or
      nothing when the line has no `|`, starts with `---`, is the header, or
      has fewer than 7 non-empty pieces. Every field of a row is a cell. */
  function ExtractRow(line: string): Option<TradeRow>
  {
    if Contains(line, "|") && !StartsWith(line, "---") && !IsHeader(line) then
      var parts := Pieces(line);
      if |parts| >= 7 then
        Some(TradeRow(parts[0], parts[1], parts[2], parts[3], parts[4], parts[5], parts[6]))
      else None
    else None
  }

  /** No row comes from a line without `|`, from a `---` border, from the
      header or from a line of fewer than 7 pieces; every field of a row is a
      cell. */
  lemma ExtractRowFilters(line: string)
    ensures !Contains(line, "|") ==> ExtractRow(line) == None
    ensures StartsWith(line, "---") ==> ExtractRow(line) == None
    ensures IsHeader(line) ==> ExtractRow(line) == None
    ensures |Pieces(line)| < 7 ==> ExtractRow(line) == None
    ensures ExtractRow(line).Some? ==> IsCellRow(ExtractRow(line).value)
  {
  }

  // ---------------------------------------------------------------------
  // Specification of the scan

  /** How the scan treats one raw line, in the source's order of tests: blank
      after stripping; a section marker (case-insensitive, RISK anywhere
      counts); the case-sensitive no-results phrase; or content. */
  datatype LineKind = Blank | Marker(target: Section) | NoResults | Content

  function Classify(raw: string): (k: LineKind)
    ensures k == Blank <==> Strip(raw) == []
    ensures k.Marker? ==> k.target != NoSection
  {
    ClassifyLine(Strip(raw))
  }

  /** The tests above on the stripped line. */
  function ClassifyLine(line: string): (k: LineKind)
    ensures k == Blank <==> line == []
    ensures k.Marker? ==> k.target != NoSection
    ensures k == Content ==> !Contains(line, NoResultsPhrase)
  {
    if line == [] then Blank
    else
      var upper := Upper(line);
      if Contains(upper, "TOP RECOMMENDED TRADE") then Marker(Summary)
      else if Contains(upper, "STRATEGY OVERVIEW") || Contains(upper, "RISK") then Marker(Risk)
      else if Contains(upper, "PRICING COMPARISON") then Marker(Pricing)
      else if Contains(upper, "TOP 5 COMBINATIONS") then Marker(Top5)
      else if Contains(line, NoResultsPhrase) then NoResults
      else Content
  }

  /** The marker tests all fail: the upper-cased line names no section
      heading and does not hold RISK anywhere. */
  predicate NamesNoMarker(line: string)
  {
    var upper := Upper(line);
    !Contains(upper, "TOP RECOMMENDED TRADE") && !Contains(upper, "STRATEGY OVERVIEW")
    && !Contains(upper, "RISK") && !Contains(upper, "PRICING COMPARISON")
    && !Contains(upper, "TOP 5 COMBINATIONS")
  }

  /** A stripped line is content exactly when it is not empty, passes no
      marker test (so it holds RISK in no letter case) and does not hold the
      no-results phrase. */
  lemma ContentExactly(line: string)
    ensures ClassifyLine(line) == Content <==>
      line != [] && NamesNoMarker(line) && !Contains(line, NoResultsPhrase)
  {
  }

  /** A line and its stripped form are treated alike. */
  lemma ClassifyStripped(raw: string)
    ensures Classify(Strip(raw)) == Classify(raw)
  {
    StripIdempotent(raw);
  }

  /** What the scan makes of one raw line: how it is classified, its
      stripped text, and the row that text gives when it is met in the top5
      section. */
  datatype Reading = Reading(kind: LineKind, text: string, row: Option<TradeRow>)

  function Read(raw: string): Reading
  {
    var line := Strip(raw);
    Reading(Classify(raw), line, ExtractRow(line))
  }

  /** The reading of every line, in order. */
  ghost function Readings(lines: seq<string>): (rs: seq<Reading>)
    ensures |rs| == |lines|
  {
    if lines == [] then [] else Readings(lines[..|lines| - 1]) + [Read(lines[|lines| - 1])]
  }

  lemma {:induction false} ReadingAt(lines: seq<string>, k: nat)
    requires k < |lines|
    ensures Readings(lines)[k] == Read(lines[k])
  {
    var init, last := lines[..|lines| - 1], lines[|lines| - 1];
    var before := Readings(init);
    assert Readings(lines) == before + [Read(last)];
    if k < |init| {
      ReadingAt(init, k);
      assert init[k] == lines[k];
      assert (before + [Read(last)])[k] == before[k];
    } else {
      assert k == |before| && last == lines[k];
      assert (before + [Read(last)])[k] == Read(last);
    }
  }

  /** The section in force after the first `n` readings: the target of the
      last marker among them, or NoSection. */
  ghost function SectionAfter(rs: seq<Reading>, n: nat): Section
    requires n <= |rs|
  {
    if n == 0 then NoSection
    else match rs[n - 1].kind
      case Marker(t) => t
      case _ => SectionAfter(rs, n - 1)
  }

  /** The texts of the content lines among the first `n` readings that were
      met while `sec` was in force, in order. */
  ghost function Routed(rs: seq<Reading>, n: nat, sec: Section): seq<string>
    requires n <= |rs|
  {
    if n == 0 then []
    else
      Routed(rs, n - 1, sec)
      + (if rs[n - 1].kind == Content && SectionAfter(rs, n - 1) == sec then [rs[n - 1].text] else [])
  }

  /** The rows of the content lines among the first `n` readings that were
      met while Top5 was in force, in order. */
  ghost function Rows(rs: seq<Reading>, n: nat): seq<TradeRow>
    requires n <= |rs|
  {
    if n == 0 then []
    else if rs[n - 1].kind == Content && SectionAfter(rs, n - 1) == Top5 && rs[n - 1].row.Some?
    then Rows(rs, n - 1) + [rs[n - 1].row.value]
    else Rows(rs, n - 1)
  }

  /** One of the first `n` readings is the no-results line. */
  ghost predicate HasNoResultsLine(rs: seq<Reading>, n: nat)
    requires n <= |rs|
  {
    n > 0 && (rs[n - 1].kind == NoResults || HasNoResultsLine(rs, n - 1))
  }

  lemma {:induction false} NoResultsAt(rs: seq<Reading>, n: nat, k: nat)
    requires k < n <= |rs| && rs[k].kind == NoResults
    ensures HasNoResultsLine(rs, n)
  {
    if k < n - 1 {
      NoResultsAt(rs, n - 1, k);
    }
  }

  lemma {:induction false} NoResultsWitness(rs: seq<Reading>, n: nat)
    requires n <= |rs| && HasNoResultsLine(rs, n)
    ensures exists k :: 0 <= k < n && rs[k].kind == NoResults
  {
    if rs[n - 1].kind != NoResults {
      NoResultsWitness(rs, n - 1);
    }
  }

  /** What parsing `text` yields. */
  ghost function Expected(text: string): ParsedReport
  {
    ExpectedLines(Split(text, '\n'))
  }

  /** What the scan of `lines` yields. */
  ghost function ExpectedLines(lines: seq<string>): ParsedReport
  {
    var rs := Readings(lines);
    if HasNoResultsLine(rs, |rs|) then NoResultsReport
    else ParsedReport(
      JoinWith(Routed(rs, |rs|, Summary), "\n"),
      JoinWith(Routed(rs, |rs|, Risk), "\n"),
      JoinWith(Routed(rs, |rs|, Pricing), "\n"),
      Rows(rs, |rs|))
  }

  // ---------------------------------------------------------------------
  // The scan

  /** `parse_analysis_result(result_text)`: split the text at newlines and
      scan the lines. */
  method ParseAnalysisResult(resultText: string) returns (r: ParsedReport)
    ensures r == Expected(resultText)
  {
    var lines := Split(resultText, '\n');
    r := ScanLines(lines);
  }

  /** How the first `i + 1` readings extend the first `i`: one step of
      each specification function. */
  lemma ScanStep(rs: seq<Reading>, i: nat)
    requires i < |rs|
    ensures SectionAfter(rs, i + 1) ==
      (if rs[i].kind.Marker? then rs[i].kind.target else SectionAfter(rs, i))
    ensures Routed(rs, i + 1, Summary) == Routed(rs, i, Summary)
      + (if rs[i].kind == Content && SectionAfter(rs, i) == Summary then [rs[i].text] else [])
    ensures Routed(rs, i + 1, Risk) == Routed(rs, i, Risk)
      + (if rs[i].kind == Content && SectionAfter(rs, i) == Risk then [rs[i].text] else [])
    ensures Routed(rs, i + 1, Pricing) == Routed(rs, i, Pricing)
      + (if rs[i].kind == Content && SectionAfter(rs, i) == Pricing then [rs[i].text] else [])
    ensures Rows(rs, i + 1) ==
      if rs[i].kind == Content && SectionAfter(rs, i) == Top5 && rs[i].row.Some?
      then Rows(rs, i) + [rs[i].row.value] else Rows(rs, i)
    ensures HasNoResultsLine(rs, i + 1) <==> rs[i].kind == NoResults || HasNoResultsLine(rs, i)
  {
  }

  /** The scan's variables after the first `i` readings: the section in
      force, the three buffers and the rows, with no no-results line met. */
  ghost predicate Tracks(rs: seq<Reading>, i: nat, section: Section, summaryLines: seq<string>,
                         riskLines: seq<string>, pricingLines: seq<string>, top5Data: seq<TradeRow>)
  {
    && i <= |rs|
    && section == SectionAfter(rs, i)
    && summaryLines == Routed(rs, i, Summary)
    && riskLines == Routed(rs, i, Risk)
    && pricingLines == Routed(rs, i, Pricing)
    && top5Data == Rows(rs, i)
    && !HasNoResultsLine(rs, i)
  }

  /** `line.strip()` and the tests on it, for the line at index `i`. */
  method ReadLine(lines: seq<string>, i: nat) returns (rd: Reading)
    requires i < |lines|
    ensures rd == Readings(lines)[i]
  {
    rd := Read(lines[i]);
    ReadingAt(lines, i);
  }

  /** The `for line in lines` loop of `parse_analysis_result`. */
  method ScanLines(lines: seq<string>) returns (r: ParsedReport)
    ensures r == ExpectedLines(lines)
  {
    ghost var rs := Readings(lines);
    var summaryLines: seq<string> := [];
    var riskLines: seq<string> := [];
    var pricingLines: seq<string> := [];
    var top5Data: seq<TradeRow> := [];
    var currentSection := NoSection;
    for i := 0 to |lines|
      invariant Tracks(rs, i, currentSection, summaryLines, riskLines, pricingLines, top5Data)
    {
      var rd := ReadLine(lines, i);
      var line := rd.text;
      ScanStep(rs, i);
      match rd.kind
      case Blank =>
      case Marker(target) =>
        currentSection := target;
      case NoResults =>
        assert HasNoResultsLine(rs, |rs|) by {
          NoResultsAt(rs, |rs|, i);
        }
        return NoResultsReport;
      case Content =>
        if currentSection == Summary {
          summaryLines := summaryLines + [line];
        } else if currentSection == Risk {
          riskLines := riskLines + [line];
        } else if currentSection == Pricing {
          pricingLines := pricingLines + [line];
        } else if currentSection == Top5 {
          match rd.row
          case Some(row) => top5Data := top5Data + [row];
          case None =>
        }
    }
    r := ParsedReport(
      JoinWith(summaryLines, "\n"), JoinWith(riskLines, "\n"),
      JoinWith(pricingLines, "\n"), top5Data);
  }

  // ---------------------------------------------------------------------
  // Properties of the scan

  /** Reading `k` is a content line met while `sec` was in force. */
  ghost predicate ContentIn(rs: seq<Reading>, k: int, sec: Section)
  {
    0 <= k < |rs| && rs[k].kind == Content && SectionAfter(rs, k) == sec
  }

  /** Every buffered text is the text of a content line met while its
      section was in force. */
  lemma {:induction false} RoutedFrom(rs: seq<Reading>, n: nat, sec: Section, j: nat)
    requires n <= |rs| && j < |Routed(rs, n, sec)|
    ensures exists k :: k < n && ContentIn(rs, k, sec) && Routed(rs, n, sec)[j] == rs[k].text
  {
    if j < |Routed(rs, n - 1, sec)| {
      RoutedFrom(rs, n - 1, sec, j);
    } else {
      assert ContentIn(rs, n - 1, sec);
    }
  }

  /** Every content line met while `sec` was in force is buffered there. */
  lemma {:induction false} RoutedTo(rs: seq<Reading>, n: nat, sec: Section, k: int)
    requires n <= |rs| && k < n && ContentIn(rs, k, sec)
    ensures rs[k].text in Routed(rs, n, sec)
  {
    if k < n - 1 {
      RoutedTo(rs, n - 1, sec, k);
    }
  }

  /** A text is in a buffer exactly when it is the text of a content line
      met while that section was in force, so blank lines, marker lines
      and lines met before any marker are in no buffer. */
  lemma RoutedMembership(rs: seq<Reading>, sec: Section, s: string)
    ensures s in Routed(rs, |rs|, sec) <==> exists k :: ContentIn(rs, k, sec) && rs[k].text == s
  {
    if s in Routed(rs, |rs|, sec) {
      var j :| 0 <= j < |Routed(rs, |rs|, sec)| && Routed(rs, |rs|, sec)[j] == s;
      RoutedFrom(rs, |rs|, sec, j);
    }
    if exists k :: ContentIn(rs, k, sec) && rs[k].text == s {
      var k :| ContentIn(rs, k, sec) && rs[k].text == s;
      RoutedTo(rs, |rs|, sec, k);
    }
  }

  /** Reading more lines only appends to a buffer: lines are buffered in
      the order they are read. */
  lemma {:induction false} RoutedPrefix(rs: seq<Reading>, i: nat, n: nat, sec: Section)
    requires i <= n <= |rs|
    ensures Routed(rs, i, sec) <= Routed(rs, n, sec)
  {
    if i < n {
      RoutedPrefix(rs, i, n - 1, sec);
    }
  }

  /** Every row comes from a content line met in the top5 section. */
  lemma {:induction false} RowFrom(rs: seq<Reading>, n: nat, j: nat)
    requires n <= |rs| && j < |Rows(rs, n)|
    ensures exists k :: k < n && ContentIn(rs, k, Top5) && rs[k].row == Some(Rows(rs, n)[j])
  {
    if j < |Rows(rs, n - 1)| {
      RowFrom(rs, n - 1, j);
    } else {
      assert ContentIn(rs, n - 1, Top5);
    }
  }

  /** Every content line of the top5 section that makes a row is in the
      rows. */
  lemma RowTo(rs: seq<Reading>, k: int, row: TradeRow)
    requires ContentIn(rs, k, Top5) && rs[k].row == Some(row)
    ensures row in Rows(rs, |rs|)
  {
    var before, upTo, all := Rows(rs, k), Rows(rs, k + 1), Rows(rs, |rs|);
    assert upTo == before + [row];
    RowsPrefix(rs, k + 1, |rs|);
    assert all[|before|] == row;
  }

  /** Reading more lines only appends rows: rows keep the line order. */
  lemma {:induction false} RowsPrefix(rs: seq<Reading>, i: nat, n: nat)
    requires i <= n <= |rs|
    ensures Rows(rs, i) <= Rows(rs, n)
  {
    if i < n {
      RowsPrefix(rs, i, n - 1);
    }
  }

  /** The buffered texts of a report are non-empty, stripped lines without
      the no-results phrase, and none names a section heading or RISK in any
      letter case. */
  lemma RoutedTextShape(lines: seq<string>, sec: Section, j: nat)
    requires j < |Routed(Readings(lines), |lines|, sec)|
    ensures var t := Routed(Readings(lines), |lines|, sec)[j];
      t != [] && IsStripped(t) && !Contains(t, NoResultsPhrase) && NamesNoMarker(t)
  {
    var rs := Readings(lines);
    RoutedFrom(rs, |rs|, sec, j);
    var k :| k < |rs| && ContentIn(rs, k, sec) && Routed(rs, |rs|, sec)[j] == rs[k].text;
    ReadingAt(lines, k);
    ContentExactly(rs[k].text);
  }

  /** Without a marker line the section never leaves NoSection. */
  lemma {:induction false} NoMarkersNoSection(rs: seq<Reading>, n: nat)
    requires n <= |rs| && forall k :: 0 <= k < |rs| ==> !rs[k].kind.Marker?
    ensures SectionAfter(rs, n) == NoSection
  {
    if n > 0 {
      NoMarkersNoSection(rs, n - 1);
    }
  }

  /** Without a marker line nothing is buffered and no row is made. */
  lemma {:induction false} NoMarkersNothingRouted(rs: seq<Reading>, n: nat, sec: Section)
    requires n <= |rs| && forall k :: 0 <= k < |rs| ==> !rs[k].kind.Marker?
    requires sec != NoSection
    ensures Routed(rs, n, sec) == [] && Rows(rs, n) == []
  {
    if n > 0 {
      NoMarkersNoSection(rs, n - 1);
      NoMarkersNothingRouted(rs, n - 1, sec);
    }
  }

  /** A report without any marker line parses to the no-results record or
      to an all-empty one. */
  lemma NoMarkersEmptyReport(text: string)
    requires forall k :: 0 <= k < |Split(text, '\n')| ==> !Classify(Split(text, '\n')[k]).Marker?
    ensures Expected(text) == NoResultsReport || Expected(text) == ParsedReport("", "", "", [])
  {
    var lines := Split(text, '\n');
    var rs := Readings(lines);
    forall k | 0 <= k < |rs|
      ensures !rs[k].kind.Marker?
    {
      ReadingAt(lines, k);
    }
    NoMarkersNothingRouted(rs, |rs|, Summary);
    NoMarkersNothingRouted(rs, |rs|, Risk);
    NoMarkersNothingRouted(rs, |rs|, Pricing);
  }

  /** The no-results summary holds the phrase and is a single line. */
  lemma NoResultsSummaryShape()
    ensures Contains(NoResultsReport.summary, NoResultsPhrase)
    ensures '\n' !in NoResultsReport.summary
  {
    assert StartsWith(NoResultsReport.summary, NoResultsPhrase);
    PhraseIsOneLine();
    SuffixIsOneLine();
  }

  lemma PhraseIsOneLine()
    ensures '\n' !in NoResultsPhrase
  {
    assert NoResultsPhrase == "No valid " + "strategies " + "found";
    assert '\n' !in "No valid " && '\n' !in "strategies " && '\n' !in "found";
  }

  lemma SuffixIsOneLine()
    ensures '\n' !in " for these parameters."
  {
    assert " for these parameters." == " for these " + "parameters.";
    assert '\n' !in " for these " && '\n' !in "parameters.";
  }

  /** A text without the phrase is not the no-results summary. */
  lemma WithoutPhraseIsNotNoResults(t: string)
    requires !Contains(t, NoResultsPhrase)
    ensures t != NoResultsReport.summary
  {
    NoResultsSummaryShape();
  }

  /** A text with a newline is not the no-results summary. */
  lemma MultiLineIsNotNoResults(t: string)
    requires '\n' in t
    ensures t != NoResultsReport.summary
  {
    NoResultsSummaryShape();
  }

  /** Texts without the phrase never join to the no-results summary: a
      single text would hold the phrase, and several hold a newline. */
  lemma ContentJoinIsNotNoResults(ts: seq<string>)
    requires forall k :: 0 <= k < |ts| ==> !Contains(ts[k], NoResultsPhrase)
    ensures JoinWith(ts, "\n") != NoResultsReport.summary
  {
    if |ts| == 0 {
      assert NoResultsReport.summary[0] == 'N';
    } else if |ts| == 1 {
      assert JoinWith(ts, "\n") == ts[0];
      WithoutPhraseIsNotNoResults(ts[0]);
    } else {
      JoinHasSeparator(ts, "\n");
      MultiLineIsNotNoResults(JoinWith(ts, "\n"));
    }
  }

  /** The parse gives the no-results record exactly when some line holds
      the phrase (and is not a marker): whatever was buffered before it is
      dropped, and no report without such a line parses to that record. */
  lemma NoResultsExactly(text: string)
    ensures var lines := Split(text, '\n');
      Expected(text) == NoResultsReport <==>
      exists k :: 0 <= k < |lines| && Classify(lines[k]) == NoResults
  {
    var lines := Split(text, '\n');
    NoResultsLineIff(lines);
    ExpectedNoResultsIff(text);
  }

  /** The parse is the no-results record exactly when some reading is the
      no-results line. */
  lemma ExpectedNoResultsIff(text: string)
    ensures var rs := Readings(Split(text, '\n'));
      Expected(text) == NoResultsReport <==> HasNoResultsLine(rs, |rs|)
  {
    var lines := Split(text, '\n');
    var rs := Readings(lines);
    if !HasNoResultsLine(rs, |rs|) {
      var summary := JoinWith(Routed(rs, |rs|, Summary), "\n");
      assert Expected(text).summary == summary;
      SummaryIsNotNoResults(lines);
      assert summary != NoResultsReport.summary;
    }
  }

  lemma NoResultsLineIff(lines: seq<string>)
    ensures HasNoResultsLine(Readings(lines), |lines|) <==>
      exists k :: 0 <= k < |lines| && Classify(lines[k]) == NoResults
  {
    var rs := Readings(lines);
    if HasNoResultsLine(rs, |rs|) {
      NoResultsWitness(rs, |rs|);
      var k :| 0 <= k < |rs| && rs[k].kind == NoResults;
      ReadingAt(lines, k);
    }
    if exists k :: 0 <= k < |lines| && Classify(lines[k]) == NoResults {
      var k :| 0 <= k < |lines| && Classify(lines[k]) == NoResults;
      ReadingAt(lines, k);
      NoResultsAt(rs, |rs|, k);
    }
  }

  /** The joined summary buffer of a report is never the no-results
      summary. */
  lemma SummaryIsNotNoResults(lines: seq<string>)
    ensures JoinWith(Routed(Readings(lines), |lines|, Summary), "\n") != NoResultsReport.summary
  {
    var summary := Routed(Readings(lines), |lines|, Summary);
    forall k | 0 <= k < |summary|
      ensures !Contains(summary[k], NoResultsPhrase)
    {
      RoutedTextShape(lines, Summary, k);
    }
    ContentJoinIsNotNoResults(summary);
  }

  /** The fields of the row made from the first 7 of `parts`. */
  lemma FieldsOfPieces(parts: seq<string>)
    requires |parts| >= 7
    ensures Fields(TradeRow(parts[0], parts[1], parts[2], parts[3], parts[4], parts[5], parts[6])) == parts[..7]
  {
    var f := Fields(TradeRow(parts[0], parts[1], parts[2], parts[3], parts[4], parts[5], parts[6]));
    assert |f| == 7;
    forall i | 0 <= i < 7
      ensures f[i] == parts[i]
    {
    }
  }

  /** An extracted row holds the first 7 pieces of the line; later pieces
      are dropped. A line that passes every filter and has at least 7
      pieces makes a row. */
  lemma ExtractRowFields(line: string)
    ensures ExtractRow(line).Some? ==> |Pieces(line)| >= 7 && Fields(ExtractRow(line).value) == Pieces(line)[..7]
    ensures Contains(line, "|") && !StartsWith(line, "---") && !IsHeader(line) && |Pieces(line)| >= 7
      ==> ExtractRow(line).Some?
  {
    var parts := Pieces(line);
    if Contains(line, "|") && !StartsWith(line, "---") && !IsHeader(line) && |parts| >= 7 {
      FieldsOfPieces(parts);
      assert ExtractRow(line) == Some(TradeRow(parts[0], parts[1], parts[2], parts[3], parts[4], parts[5], parts[6]));
    } else {
      assert ExtractRow(line) == None;
    }
  }

  /** Parts that are already cells pass the clean-up unchanged. */
  lemma {:induction false} CellsUnchanged(parts: seq<string>)
    requires forall k :: 0 <= k < |parts| ==> IsCell(parts[k])
    ensures NonEmptyStripped(parts) == parts
  {
    if parts != [] {
      var rest := parts[1..];
      assert forall k :: 0 <= k < |rest| ==> rest[k] == parts[k + 1];
      StripOfStripped(parts[0]);
      CellsUnchanged(rest);
      assert NonEmptyStripped(parts) == [parts[0]] + rest;
      HeadTail(parts);
    }
  }

  /** Cells joined with `|` are cut back into the same cells: a table line
      written from 7 or more cells gives the row of its first 7. */
  lemma ExtractRowOfCells(fs: seq<string>)
    requires |fs| >= 7 && forall k :: 0 <= k < |fs| ==> IsCell(fs[k])
    requires !StartsWith(JoinWith(fs, "|"), "---") && !IsHeader(JoinWith(fs, "|"))
    ensures ExtractRow(JoinWith(fs, "|")) == Some(TradeRow(fs[0], fs[1], fs[2], fs[3], fs[4], fs[5], fs[6]))
  {
    var line := JoinWith(fs, "|");
    JoinHasSeparator(fs, "|");
    var i :| 0 <= i < |line| && line[i] == '|';
    assert OccursAt(line, "|", i);
    ContainsOccurs(line, "|");
    SplitJoin(fs, '|');
    CellsUnchanged(fs);
    assert Pieces(line) == fs;
  }

  // ---------------------------------------------------------------------
  // The engine call around the parser

  /** The side of the risk reversal the engine is asked to analyse. */
  datatype Strategy = Bullish | Bearish

  /** What the engine call gives: the report text, or the message of the
      exception it raised. */
  datatype EngineReply = ReportText(text: string) | EngineFailure(message: string)

  /** `strategy_type == "Bullish"` picks the bullish engine; every other
      value picks the bearish one. */
  function StrategyFor(strategyType: string): (s: Strategy)
    ensures s == Bullish <==> strategyType == "Bullish"
  {
    if strategyType == "Bullish" then Bullish else Bearish
  }

  /** The record shown for a failed engine call. */
  function ErrorReport(message: string): ParsedReport
  {
    ParsedReport("Analysis Error: " + message, "", "", [])
  }

  /** `live_analysis_engine_run`: the engine, a parameter here, is asked for
      a report of the chosen side; its text is parsed, and an exception it
      raises becomes a record holding only the error message. */
  method LiveAnalysisRun(
    ticker: string, minDte: int, maxDte: int, strategyType: string,
    engine: (Strategy, string, int, int) -> EngineReply)
    returns (r: ParsedReport)
    ensures var reply := engine(StrategyFor(strategyType), ticker, minDte, maxDte);
      r == match reply
        case ReportText(text) => Expected(text)
        case EngineFailure(message) => ErrorReport(message)
  {
    var reply := engine(StrategyFor(strategyType), ticker, minDte, maxDte);
    match reply
    case ReportText(text) =>
      r := ParseAnalysisResult(text);
    case EngineFailure(message) =>
      r := ErrorReport(message);
  }

  /** An error record has an empty table and empty risk and pricing parts,
      and its summary names the error, so it is never the no-results
      record. */
  lemma ErrorReportShape(message: string)
    ensures ErrorReport(message).top5 == [] && ErrorReport(message).risk == []
    ensures ErrorReport(message).pricingComparison == []
    ensures StartsWith(ErrorReport(message).summary, "Analysis Error: ")
    ensures ErrorReport(message) != NoResultsReport
  {
    var e := ErrorReport(message).summary;
    assert e[0] == 'A' && NoResultsReport.summary[0] == 'N';
  }
}
