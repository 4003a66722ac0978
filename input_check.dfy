/** The checks `start_analysis` (pythonProject2/main_app.py) makes on the
    three entry fields before it starts the engine: the ticker must not be
    empty once stripped, and both DTE fields must read as integers with
    0 <= min <= max. */
module InputCheck {
  import opened Wrappers
  import opened PyStr
  import opened PyNum

  /** Why the inputs were refused; each case sets its own error status. */
  datatype StartError =
    | EmptyTicker
      /** `int(text)` raised on this (stripped) entry text. */
    | NotAnInteger(text: string)
    | DtesOutOfRange(minDte: int, maxDte: int)

  /** What `start_analysis` decides: run the engine on these arguments, or
      show an error and return. */
  datatype StartOutcome =
    | Started(ticker: string, minDte: int, maxDte: int, strategyType: string)
    | Rejected(error: StartError)

  predicate DtesAdmissible(minDte: int, maxDte: int)
  {
    0 <= minDte <= maxDte
  }

  /** `int(entry.strip())`: how a DTE entry is read. */
  function EntryInt(entry: string): Option<int>
  {
    ParseInt(Strip(entry))
  }

  /** The decision: the ticker is checked first, then the DTEs. A started
      analysis has a ticker and admissible DTEs and keeps the strategy. */
  function StartAnalysis(tickerEntry: string, minEntry: string, maxEntry: string,
                         strategyType: string): (o: StartOutcome)
    ensures o.Started? ==>
      o.ticker != [] && DtesAdmissible(o.minDte, o.maxDte) && o.strategyType == strategyType
  {
    var ticker := Upper(Strip(tickerEntry));
    if ticker == [] then Rejected(EmptyTicker)
    else
      match ReadDtes(minEntry, maxEntry)
      case Err(e) => Rejected(e)
      case Ok(dtes) => Started(ticker, dtes.0, dtes.1, strategyType)
  }

  /** The `try` block: `int(min_dte)`, then `int(max_dte)`, then the range
      test, each on the stripped entry text. The DTEs are accepted exactly
      when both read as integers in order and not negative, and the check
      never blames the ticker. */
  function ReadDtes(minEntry: string, maxEntry: string): (r: Result<(int, int), StartError>)
    ensures r.Ok? <==>
      EntryInt(minEntry).Some? && EntryInt(maxEntry).Some?
      && DtesAdmissible(EntryInt(minEntry).value, EntryInt(maxEntry).value)
    ensures r.Ok? ==> r.value == (EntryInt(minEntry).value, EntryInt(maxEntry).value)
    ensures r.Err? ==> !r.error.EmptyTicker?
  {
    var minText, maxText := Strip(minEntry), Strip(maxEntry);
    match ParseInt(minText)
    case None => Err(NotAnInteger(minText))
    case Some(minDte) =>
      match ParseInt(maxText)
      case None => Err(NotAnInteger(maxText))
      case Some(maxDte) =>
        if !DtesAdmissible(minDte, maxDte) then Err(DtesOutOfRange(minDte, maxDte))
        else Ok((minDte, maxDte))
  }

  const EmptyTickerStatus := "Error: Ticker Symbol cannot be empty."
  const InvalidDtesPrefix := "Error: Invalid DTEs. "
  const RangeMessage := "DTEs must be non-negative and Min DTE <= Max DTE."
  const RunningStatus := "Analysis Running... Please wait."

  /** The error status for a refusal; `intError` is the text of the
      `ValueError` Python's `int()` raises for the entry text. Every refusal
      starts with "Error: ", and the two DTE refusals share the
      "Invalid DTEs." prefix. */
  function ErrorStatus(e: StartError, intError: string -> string): (status: string)
    ensures StartsWith(status, "Error: ")
    ensures !e.EmptyTicker? ==> StartsWith(status, InvalidDtesPrefix)
  {
    match e
    case EmptyTicker => EmptyTickerStatus
    case NotAnInteger(text) => InvalidDtesPrefix + intError(text)
    case DtesOutOfRange(_, _) => InvalidDtesPrefix + RangeMessage
  }

  /** The status `start_analysis` shows: the running message when the
      analysis starts, the error status otherwise. The status reads as an
      error exactly when the inputs were refused. */
  function StartStatus(o: StartOutcome, intError: string -> string): (status: string)
    ensures StartsWith(status, "Error: ") <==> o.Rejected?
  {
    match o
    case Started(_, _, _, _) =>
      assert RunningStatus[0] != "Error: "[0];
      RunningStatus
    case Rejected(e) => ErrorStatus(e, intError)
  }

  // ---------------------------------------------------------------------
  // Properties

  /** After `.strip()` there is no whitespace left for `int()` to skip, so
      an entry is read as its stripped text. */
  lemma EntryIntReadsStripped(entry: string)
    ensures EntryInt(entry) == ParseStrippedInt(Strip(entry))
  {
    ParseIntOfStripped(Strip(entry));
  }

  /** The `.strip()` before `int()` matters: `int()` alone refuses an entry
      that starts with U+001C, which `.strip()` removes. */
  lemma StripMatters()
    ensures ParseInt("\U{1C}5") == None
    ensures EntryInt("\U{1C}5") == Some(5)
  {
    var s := "\U{1C}5";
    assert IntTrimStart(s) == s && IntTrimEnd(s) == s;
    assert !AllDigits(s) by {
      assert !IsDigit(s[0]);
    }
    assert TrimStart(s) == "5" by {
      assert IsSpace(s[0]) && s[1..] == "5";
    }
    assert Strip(s) == "5";
    ParseIntDigits("5");
  }

  /** The analysis starts exactly when the stripped ticker is not empty and
      both DTE entries read as integers in order and not negative. */
  lemma StartedExactly(tickerEntry: string, minEntry: string, maxEntry: string, strategyType: string)
    ensures StartAnalysis(tickerEntry, minEntry, maxEntry, strategyType).Started? <==>
      Strip(tickerEntry) != []
      && EntryInt(minEntry).Some? && EntryInt(maxEntry).Some?
      && DtesAdmissible(EntryInt(minEntry).value, EntryInt(maxEntry).value)
  {
    assert |Upper(Strip(tickerEntry))| == |Strip(tickerEntry)|;
  }

  /** What a started analysis is given: a non-empty stripped ticker with no
      lower-case letter, the upper-cased entry; DTEs are what `int` read
      from the entries and in range; the strategy passes through. */
  lemma StartedArguments(tickerEntry: string, minEntry: string, maxEntry: string, strategyType: string)
    requires StartAnalysis(tickerEntry, minEntry, maxEntry, strategyType).Started?
    ensures var o := StartAnalysis(tickerEntry, minEntry, maxEntry, strategyType);
      && o.ticker == Upper(Strip(tickerEntry)) && o.ticker != []
      && IsStripped(o.ticker) && Upper(o.ticker) == o.ticker
      && Some(o.minDte) == EntryInt(minEntry) && Some(o.maxDte) == EntryInt(maxEntry)
      && 0 <= o.minDte <= o.maxDte
      && o.strategyType == strategyType
  {
    StartedExactly(tickerEntry, minEntry, maxEntry, strategyType);
    StartedValue(tickerEntry, minEntry, maxEntry, strategyType);
    TickerShape(Strip(tickerEntry));
  }

  /** When the DTE entries read as integers in range and the ticker is not
      empty, the analysis runs on the upper-cased ticker and those values. */
  lemma StartedValue(tickerEntry: string, minEntry: string, maxEntry: string, strategyType: string)
    requires Strip(tickerEntry) != [] && EntryInt(minEntry).Some? && EntryInt(maxEntry).Some?
    requires DtesAdmissible(EntryInt(minEntry).value, EntryInt(maxEntry).value)
    ensures StartAnalysis(tickerEntry, minEntry, maxEntry, strategyType)
         == Started(Upper(Strip(tickerEntry)), EntryInt(minEntry).value, EntryInt(maxEntry).value, strategyType)
  {
    assert |Upper(Strip(tickerEntry))| == |Strip(tickerEntry)|;
  }

  lemma TickerShape(stripped: string)
    requires IsStripped(stripped)
    ensures IsStripped(Upper(stripped)) && Upper(Upper(stripped)) == Upper(stripped)
  {
    UpperIdempotent(stripped);
    UpperStripped(stripped);
  }

  /** An empty ticker is reported before anything is wrong with the DTEs. */
  lemma EmptyTickerFirst(tickerEntry: string, minEntry: string, maxEntry: string, strategyType: string)
    ensures StartAnalysis(tickerEntry, minEntry, maxEntry, strategyType) == Rejected(EmptyTicker)
        <==> Strip(tickerEntry) == []
  {
    var stripped := Strip(tickerEntry);
    assert |Upper(stripped)| == |stripped|;
  }

  /** A refusal for the DTEs names the first entry `int` could not read, or
      else the two values out of range. */
  lemma DteRefusal(tickerEntry: string, minEntry: string, maxEntry: string, strategyType: string)
    requires Strip(tickerEntry) != []
    ensures var o := StartAnalysis(tickerEntry, minEntry, maxEntry, strategyType);
      && (EntryInt(minEntry).None? ==> o == Rejected(NotAnInteger(Strip(minEntry))))
      && (EntryInt(minEntry).Some? && EntryInt(maxEntry).None? ==>
            o == Rejected(NotAnInteger(Strip(maxEntry))))
      && (EntryInt(minEntry).Some? && EntryInt(maxEntry).Some?
          && !DtesAdmissible(EntryInt(minEntry).value, EntryInt(maxEntry).value) ==>
            o == Rejected(DtesOutOfRange(EntryInt(minEntry).value, EntryInt(maxEntry).value)))
  {
    assert |Upper(Strip(tickerEntry))| == |Strip(tickerEntry)|;
  }

  /** Entries holding `str(n)` and `str(m)` for 0 <= n <= m start the
      analysis on n and m, whatever whitespace surrounds each entry. */
  lemma StartedOnWrittenDtes(tickerEntry: string, n: nat, m: nat,
                             minPre: string, minPost: string, maxPre: string, maxPost: string,
                             strategyType: string)
    requires Strip(tickerEntry) != [] && n <= m
    requires forall i :: 0 <= i < |minPre| ==> IsSpace(minPre[i])
    requires forall i :: 0 <= i < |minPost| ==> IsSpace(minPost[i])
    requires forall i :: 0 <= i < |maxPre| ==> IsSpace(maxPre[i])
    requires forall i :: 0 <= i < |maxPost| ==> IsSpace(maxPost[i])
    ensures StartAnalysis(tickerEntry, minPre + IntToString(n) + minPost,
                          maxPre + IntToString(m) + maxPost, strategyType)
         == Started(Upper(Strip(tickerEntry)), n, m, strategyType)
  {
    PaddedDte(minPre, n, minPost);
    PaddedDte(maxPre, m, maxPost);
    StartedValue(tickerEntry, minPre + IntToString(n) + minPost,
                 maxPre + IntToString(m) + maxPost, strategyType);
  }

  /** An entry holding `str(n)` with whitespace around it reads as n. */
  lemma PaddedDte(pre: string, n: nat, post: string)
    requires forall i :: 0 <= i < |pre| ==> IsSpace(pre[i])
    requires forall i :: 0 <= i < |post| ==> IsSpace(post[i])
    ensures EntryInt(pre + IntToString(n) + post) == Some(n)
  {
    var d := NatToString(n);
    assert IntToString(n) == d;
    ParseIntRoundTrip(n);
    DigitsStripped(d, false);
    StripPadded(pre, d, post);
  }
}
