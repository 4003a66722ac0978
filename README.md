# Option analyzer core, in Dafny

A model of the logic inside the desktop option analyzer (`pythonProject2/main_app.py`).
The analyzer asks an analysis engine for a plain-text report on a risk reversal. It parses
that report into sections and a table of trades. It then shows a Reg-T margin estimate for
the top trade. The model covers four pieces:

- **The report parser** (`parse_analysis_result`), module `ReportParser`. It is a method
  with a `for` loop over the report's lines. The loop updates the current section and four
  buffers, and returns early on the "no valid strategies" line. The method is proved
  equal to a declarative specification, `Expected`. That specification describes, for any
  prefix of the lines, the section in force, the texts routed to each section and the table
  rows extracted. Lemmas then state what the parser promises: routing, order,
  row extraction and the no-results record.
- **The engine wrapper** (`live_analysis_engine_run`), in `ReportParser`. The engine is a
  function parameter. Its reply is either parsed or turned into the "Analysis Error"
  record.
- **The margin-impact estimate** in `display_results`, module `MarginEstimator`. It is
  lifted out as a pure function of the parsed report over exact reals. Every failure of
  `float()`, and the empty table, gives "N/A".
- **The input check** in `start_analysis`, module `InputCheck`. The ticker must not be
  empty, and both DTE entries must read as integers with `0 <= min <= max`.

Supporting modules model the Python built-ins the code relies on:

- `PyStr`: `str.strip` with Python's whitespace set, `upper`, `in`, `startswith`,
  `split` on one character, `join` and `replace(pat, "")`.
- `PyNum`: `float()` on decimal text and `int()` in base 10, both partial, with `None`
  standing for `ValueError`.
- `Wrappers`: `Option` and `Result`.

Three behaviours of the code are easy to miss, and the model keeps them:

- Section markers are tested before the no-results phrase (main_app.py:92-104). A line
  that holds "No valid strategies found" and also a marker such as "RISK" switches
  the section and is dropped. So the no-results record comes from a line *classified* as
  the no-results line (`NoResultsExactly`), not from every line holding the phrase.
- The no-results record fills only "summary" with the fixed sentence. Its risk and pricing
  parts are empty strings and its table is empty (main_app.py:105-110).
- With no "Breakeven: $" number in the summary, the underlying price is
  `sum(strike_parts) / 2` (main_app.py:399-400). The comment there calls this the
  "average of strikes", but it is the mean of the call and put strikes only when the
  strikes field has exactly two pieces (`FallbackIsMean`).

## Model

| member | source | states |
|---|---|---|
| ReportParser.ParseAnalysisResult | pythonProject2/main_app.py:73-134 | The parse of a report text is exactly what the declarative specification `Expected` (section in force, routed texts, rows, no-results line) gives for the text's lines |
| ReportParser.ReadLine | pythonProject2/main_app.py:87-104 | The line at index `i` is stripped and classified as the specification's reading of that line |
| ReportParser.ScanLines | pythonProject2/main_app.py:86-134 | The loop over the lines is proved against its specification: the section variable, the three buffers and the row list equal the specification after each prefix; the early return gives the no-results record exactly when a no-results line exists |
| ReportParser.Classify | pythonProject2/main_app.py:87-104 | A raw line is blank exactly when it strips to nothing, and a marker always names a real section; the tests themselves are `ClassifyLine`'s |
| ReportParser.ClassifyLine | pythonProject2/main_app.py:87-104 | A stripped line is blank exactly when empty; a marker always names a real section; a content line never holds the no-results phrase |
| ReportParser.ContentExactly | pythonProject2/main_app.py:88-104 | A stripped line is a content line if and only if it is not empty, its upper-cased text holds none of the five marker phrases (so no RISK in any letter case), and it does not hold the no-results phrase |
| ReportParser.ClassifyStripped | pythonProject2/main_app.py:87 | A line and its stripped form are classified alike |
| ReportParser.NoResultsExactly | pythonProject2/main_app.py:104-110 | The parse is the no-results record if and only if some line is classified as the no-results line; earlier buffered lines are dropped |
| ReportParser.ExpectedNoResultsIff | pythonProject2/main_app.py:104-110 | The parse equals the no-results record exactly when the readings contain a no-results line |
| ReportParser.NoResultsSummaryShape | pythonProject2/main_app.py:106 | The no-results summary holds the phrase and is a single line |
| ReportParser.SummaryIsNotNoResults | pythonProject2/main_app.py:113-114 | A summary joined from routed lines is never the no-results text, so without a no-results line the parse can never equal the sentinel record |
| ReportParser.RoutedMembership | pythonProject2/main_app.py:86-118 | A text is in a section's buffer if and only if it is the stripped text of a content line met while that section was in force; blank lines, marker lines and lines before any marker are in no buffer |
| ReportParser.RoutedFrom | pythonProject2/main_app.py:113-118 | Every buffered text comes from an earlier content line of that section |
| ReportParser.RoutedTo | pythonProject2/main_app.py:113-118 | Every content line of a section is in that section's buffer |
| ReportParser.RoutedPrefix | pythonProject2/main_app.py:113-118 | Reading more lines only appends to a buffer, so texts keep the order of the lines |
| ReportParser.RoutedTextShape | pythonProject2/main_app.py:87-104 | Every buffered text is non-empty, stripped and free of the no-results phrase, and names no section heading and no RISK in any letter case |
| ReportParser.RowFrom | pythonProject2/main_app.py:119-127 | Every row comes from a content line met in the top5 section whose extraction made that row |
| ReportParser.RowTo | pythonProject2/main_app.py:119-127 | Every top5 content line that makes a row is in the rows |
| ReportParser.RowsPrefix | pythonProject2/main_app.py:127 | Reading more lines only appends rows, so rows keep line order |
| ReportParser.NoMarkersEmptyReport | pythonProject2/main_app.py:84-119 | A report without any marker line parses to the no-results record or to the all-empty record |
| ReportParser.Pieces | pythonProject2/main_app.py:125 | Every piece left after splitting on `\|`, stripping and dropping empties is non-empty, stripped and free of `\|` |
| ReportParser.ExtractRow | pythonProject2/main_app.py:119-127 | The row a stripped top5 line gives, if any; `ExtractRowFilters` states that every field of a row is a non-empty, stripped cell without `\|` and which lines give none, `ExtractRowFields` and `ExtractRowOfCells` which row it is |
| ReportParser.ExtractRowFilters | pythonProject2/main_app.py:121-127 | No row comes from a line without `\|`, a `---` border, the RANK/EXPIRATION header, or fewer than 7 pieces; every field of a row is a cell |
| ReportParser.ExtractRowFields | pythonProject2/main_app.py:125-127 | A row is exactly the first 7 pieces, later pieces dropped; a line passing every filter with at least 7 pieces always makes a row |
| ReportParser.ExtractRowOfCells | pythonProject2/main_app.py:125-127 | A table line written by joining 7 or more cells with `\|` is cut back into the row of its first 7 cells |
| ReportParser.StrategyFor | pythonProject2/main_app.py:56-59 | The bullish engine is chosen exactly for "Bullish"; every other value picks the bearish one |
| ReportParser.LiveAnalysisRun | pythonProject2/main_app.py:50-71 | The engine's report text is parsed as `Expected` specifies; an engine exception gives the "Analysis Error: " record |
| ReportParser.ErrorReport | pythonProject2/main_app.py:66-71 | The record for a failed engine call; `ErrorReportShape` states its fields |
| ReportParser.ErrorReportShape | pythonProject2/main_app.py:66-71 | The error record has empty risk, pricing comparison and table, a summary starting "Analysis Error: ", and is never the no-results record |
| MarginEstimator.EstimateMargin | pythonProject2/main_app.py:369-410 | An available estimate has put <= call, a non-negative out-of-the-money amount and a margin of at least 10 U; `NotAvailableExactly`, `StrikeSelection`, `UnderlyingSelection` and `AvailableEstimate` state the rest |
| MarginEstimator.NotAvailableExactly | pythonProject2/main_app.py:370-410 | The estimate is unavailable if and only if the table is empty, or the strikes, the net cost or the breakeven number fail to parse |
| MarginEstimator.StrikeSelection | pythonProject2/main_app.py:376-379 | The call strike is the largest and the put strike the smallest of the parsed strikes, both among them, so call >= put |
| MarginEstimator.UnderlyingSelection | pythonProject2/main_app.py:394-400 | The underlying is the breakeven number when the regex matches, else half the sum of the strikes |
| MarginEstimator.FallbackIsMean | pythonProject2/main_app.py:398-400 | With no breakeven and two strike pieces, the underlying is the mean of the call and put strikes |
| MarginEstimator.AvailableEstimate | pythonProject2/main_app.py:402-407 | An available estimate has otm = max(0, call - U), never negative, and a margin at least 10 U and at least 20 U - 100 otm, equal to one of the two |
| MarginEstimator.OtmBounds | pythonProject2/main_app.py:402 | The out-of-the-money amount is not negative, at least call - U, and one of the two |
| MarginEstimator.MarginBounds | pythonProject2/main_app.py:404-407 | With a zero call premium the margin is the larger of 20 U - 100 otm and 10 U |
| MarginEstimator.MarginLabel | pythonProject2/main_app.py:370-408 | Both labels begin "Margin Impact: "; `LabelIsNotAvailable` states when it is the N/A label |
| MarginEstimator.LabelIsNotAvailable | pythonProject2/main_app.py:408 | The label reads "Margin Impact: N/A" exactly when the estimate is unavailable |
| MarginEstimator.BreakevenGroupSpec | pythonProject2/main_app.py:394-397 | The group read is the longest digit-or-dot run after the leftmost "Breakeven: $" followed by a digit or dot; no group exactly when no such place exists |
| MarginEstimator.TwoDotBreakevenNotAvailable | pythonProject2/main_app.py:397-410 | A breakeven group with two dots fails `float()`, so the estimate is unavailable rather than falling back to the strikes |
| MarginEstimator.ParseEach | pythonProject2/main_app.py:376 | The list comprehension succeeds exactly when every piece parses, and then gives each piece's value in order |
| MarginEstimator.SeqMax | pythonProject2/main_app.py:378 | `max` is an element and bounds every element from above |
| MarginEstimator.SeqMin | pythonProject2/main_app.py:379 | `min` is an element and bounds every element from below |
| MarginEstimator.PriceRun | pythonProject2/main_app.py:394 | The greedy `[0-9.]+` run is a prefix made of digits and dots and stops at the first other character |
| MarginEstimator.FirstMatchFrom | pythonProject2/main_app.py:394 | `re.search` finds the leftmost match, or none exists |
| MarginEstimator.NetCost | pythonProject2/main_app.py:382-383 | An empty cleaned net cost reads as 0.0 |
| MarginEstimator.Strikes | pythonProject2/main_app.py:375-376 | A strikes field that reads gives at least one value, so `max` and `min` exist; `ParseEach` and `StrikesOfPair` state the values |
| MarginEstimator.StrikeValue | pythonProject2/main_app.py:376 | One strike piece, `float(s.replace("$", "").strip())`; `StrikeValueOfPrice` states that `$t` reads as `float(t)` |
| MarginEstimator.NetCostText | pythonProject2/main_app.py:382 | The cleaned net-cost text; `DebitText` and `CreditText` state that `$t DB` and `$t CR` clean to `t` |
| MarginEstimator.BreakevenGroup | pythonProject2/main_app.py:394-397 | The regex group; `BreakevenGroupSpec` states the leftmost, greedy match it reads |
| MarginEstimator.Underlying | pythonProject2/main_app.py:394-400 | The underlying price; `UnderlyingSelection` and `FallbackIsMean` state which value it takes |
| MarginEstimator.OtmCall | pythonProject2/main_app.py:402 | `max(0, call - U)`; `OtmBounds` states its bounds |
| MarginEstimator.ShortCallMargin | pythonProject2/main_app.py:404-407 | The Reg-T formula; `MarginBounds` states what it gives with a zero premium |
| MarginEstimator.BreakevenAfter | pythonProject2/main_app.py:394 | In a summary with no `B` before "Breakeven: $", followed by a run of digits and dots and then another character or the end, the regex group is exactly that run |
| MarginEstimator.StrikesOfPair | pythonProject2/main_app.py:375-376 | A strikes field `$a/$b` of two prices reads as the two prices |
| MarginEstimator.NetCostOfDebit | pythonProject2/main_app.py:382-383 | A net cost `$t DB` reads as `float(t)`; the debit marker gives no sign |
| MarginEstimator.NetCostOfCredit | pythonProject2/main_app.py:382-383 | A net cost `$t CR` reads as `float(t)`; the credit marker gives no sign |
| MarginEstimator.Example454 | pythonProject2/main_app.py:375-407 | Strikes `$22.50/$17.50`, net cost `$0.20 DB` and summary `Breakeven: $22.70` give call 22.5, put 17.5, U 22.7, otm 0 and margin 454 |
| MarginEstimator.Example2375 | pythonProject2/main_app.py:375-407 | Strikes `$30.00/$17.50`, net cost `$1.25 CR` and no breakeven give U 23.75, otm 6.25 and the 10% floor of 237.5 |
| InputCheck.StartAnalysis | pythonProject2/main_app.py:304-319 | A started analysis has a non-empty ticker, admissible DTEs and the strategy unchanged; `StartedExactly`, `EmptyTickerFirst` and `DteRefusal` state when it starts and why it refuses |
| InputCheck.StartedExactly | pythonProject2/main_app.py:304-319 | The analysis starts if and only if the stripped ticker is not empty and both DTE entries read as integers with 0 <= min <= max |
| InputCheck.StartedArguments | pythonProject2/main_app.py:305-316 | A started analysis gets the stripped, upper-cased, non-empty ticker, the integers `int()` read, in range, and the strategy unchanged |
| InputCheck.EmptyTickerFirst | pythonProject2/main_app.py:309-311 | The empty-ticker refusal happens exactly when the stripped ticker is empty, whatever the DTEs |
| InputCheck.DteRefusal | pythonProject2/main_app.py:312-319 | A DTE refusal names the first entry `int()` cannot read, or else the two out-of-range values |
| InputCheck.ReadDtes | pythonProject2/main_app.py:312-316 | The DTEs are accepted if and only if both stripped entries read as integers with 0 <= min <= max, and then as those integers; the check never blames the ticker |
| InputCheck.StartedOnWrittenDtes | pythonProject2/main_app.py:312-316 | Entries holding `str(n)` and `str(m)` with 0 <= n <= m, each with any whitespace of its own before and after it, start the analysis on n and m |
| InputCheck.PaddedDte | pythonProject2/main_app.py:313-314 | An entry holding `str(n)` with any whitespace before and after it reads as n |
| InputCheck.EntryIntReadsStripped | pythonProject2/main_app.py:306-314 | After `.strip()` no whitespace is left for `int()` to skip, so an entry reads as its stripped text |
| InputCheck.StripMatters | pythonProject2/main_app.py:306-314 | The `.strip()` matters: `int()` alone refuses "\x1c5", while the stripped entry reads as 5 |
| InputCheck.ErrorStatus | pythonProject2/main_app.py:310-318 | Every refusal status starts with "Error: ", and both DTE refusals with "Error: Invalid DTEs. " |
| InputCheck.StartStatus | pythonProject2/main_app.py:309-320 | The status reads as an error (starts with "Error: ") exactly when the inputs were refused; a started analysis shows the running message |
| PyNum.ParseInt | pythonProject2/main_app.py:313-314 | `int()`; `ParseIntRoundTrip` and `ParseIntOfStripped` state what it reads |
| PyNum.ParseIntOfStripped | pythonProject2/main_app.py:313-314 | On text with no surrounding whitespace `int()` reads the text as it is |
| PyNum.ParseDecimal | pythonProject2/main_app.py:376 | `float()`; `ParseDecimalShape`, `ParseFixedPoint` and `TwoDotsRejected` state what it accepts and reads |
| PyNum.ParseDecimalShape | pythonProject2/main_app.py:376 | What `float` accepts holds a digit, is made only of digits, dots and a leading sign, holds no two dots, and is not negative without a `-` |
| PyNum.TwoDotsRejected | pythonProject2/main_app.py:397 | Text with two dots is not a number |
| PyNum.ParseIntRoundTrip | pythonProject2/main_app.py:313-314 | `int(str(n)) == n` for every integer n |
| PyNum.ParseFixedPoint | pythonProject2/main_app.py:376 | `float` reads `<n>.<digits>` as n plus the fraction's value over 10 to the number of its digits |
| PyStr.Strip | pythonProject2/main_app.py:87 | `str.strip()` leaves no surrounding whitespace and never lengthens; `StripSlice` and `StripAt` state that only whitespace is cut off either end, `StripPadded` that exactly that whitespace is cut, `StripIdempotent` that it is idempotent |
| PyStr.StripAt | pythonProject2/main_app.py:87 | The stripped text sits in the original at an index with only whitespace before and after it, and a non-empty one starts at a non-whitespace character |
| PyStr.StripSlice | pythonProject2/main_app.py:87-89 | The stripped text occurs inside the original with only whitespace before and after it, and is empty exactly when every character is whitespace |
| PyStr.StripPadded | pythonProject2/main_app.py:87 | Stripping any whitespace before and after a non-empty stripped text gives back that text |
| PyStr.Contains | pythonProject2/main_app.py:92-104 | `p in s`, as used by the marker tests and the `\|` test at line 121; `ContainsOccurs` states what it means |
| PyStr.StartsWith | pythonProject2/main_app.py:121 | `s.startswith(p)`; `StartsWithSplits` states what it means |
| PyStr.ContainsOccurs | pythonProject2/main_app.py:92-104 | `p in s` holds if and only if `p` occurs in `s` at some index |
| PyStr.StartsWithSplits | pythonProject2/main_app.py:121 | `s.startswith(p)` holds if and only if `s` is `p` followed by the rest of `s`, and then `p in s` holds |
| PyStr.Split | pythonProject2/main_app.py:77 | `split(sep)` gives at least one piece and no piece holds the separator |
| PyStr.JoinWith | pythonProject2/main_app.py:129-132 | `sep.join(parts)`; `JoinSplit`, `SplitJoin` and `JoinHasSeparator` state how it relates to `Split` |
| PyStr.RemoveAll | pythonProject2/main_app.py:376 | `replace(pat, "")` never lengthens, leaves text without `pat` as it is, and leaves no one-character `pat` behind |
| PyStr.Upper | pythonProject2/main_app.py:92 | `upper()` keeps the length; `UpperAt` states it maps each character |
| PyStr.UpperAt | pythonProject2/main_app.py:92 | Each character of the upper-cased text is the upper-cased character |
| PyStr.SplitJoin | pythonProject2/main_app.py:125 | Splitting a join of separator-free parts gives back the parts |
| PyStr.JoinSplit | pythonProject2/main_app.py:77 | Joining the pieces of a split with the separator gives back the text |
| PyStr.StripIdempotent | pythonProject2/main_app.py:87 | Stripping twice is stripping once |
| PyStr.UpperStripped | pythonProject2/main_app.py:305 | Upper-casing a stripped string leaves it stripped |

## Left out

- The GUI: widget construction, layout, the result labels and rows, the 5/10 split of the
  table and the gradient background. These are Tk side effects with no logic to prove.
- Threading and UI scheduling in `start_analysis` and `_run_analysis_thread`. After the
  checks pass, the model stops at the decision to start (`Started`).
- The analysis engine itself, `run_bullish_analysis` and `run_bearish_analysis`. It is a
  function parameter of `LiveAnalysisRun`. Its exception is the reply `EngineFailure`.
  The `print` calls are left out.
- `dummy_analysis_engine_run`, which returns canned data after `time.sleep`, and
  `resource_path`, which depends on the operating system and the installer.
- `vegaedge-webapp/pages/api/analyze/bullish.ts` is not part of this model. It is an HTTP
  proxy.
- MarginEstimator.EstimateMargin: arithmetic is on exact reals, so IEEE rounding is not
  modelled.
- MarginEstimator.MarginLabel: the `,.2f` currency formatting is the parameter `money`.
- PyNum.ParseDecimal: only decimal notation is read. Exponents, `inf`, `nan`,
  underscores and non-ASCII digits, which Python's `float` also accepts, are read as
  failures.
- PyNum.ParseInt: underscores and non-ASCII digits, which Python's `int` also accepts, are
  read as failures. There is no limit on the number of digits. Since Python 3.11 (and 3.10.7,
  3.9.14 and 3.8.14), `int()` raises `ValueError` on more than 4300 digits, so for DTE
  entries that long the model starts the analysis where the program refuses it. The whitespace `int()` skips is modelled as CPython's: what
  `str.strip()` removes except U+001C to U+001F.
- PyStr.Upper: only ASCII letters are upper-cased. Python's full Unicode case mapping is not
  modelled.
- InputCheck.ErrorStatus: the text of the `ValueError` raised by `int()` is the parameter
  `intError`.
- ReportParser.Read computes a line's table row eagerly, even for lines outside the top5
  section. The row is used only in the top5 section, and computing it has no side effects,
  so the result is the same.
