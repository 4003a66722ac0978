/** The margin-impact estimate of `display_results`
    (pythonProject2/main_app.py), lifted out as a pure function of the
    parsed report: the strikes and the net cost of the first row are read
    back from their display text, the underlying price is taken from a
    "Breakeven: $<number>" in the summary or else from the strikes, and the
    Reg-T short-call formula is applied with a call premium of 0. Every
    failed parse gives "N/A". Arithmetic is on exact reals. */
module MarginEstimator {
  import opened Wrappers
  import opened PyStr
  import opened PyNum
  import opened ReportParser

  // ---------------------------------------------------------------------
  // Strikes and net cost

  /** `float(s.replace("$", "").strip())` for one piece of the strikes. */
  function StrikeValue(piece: string): Option<real>
  {
    ParseDecimal(Strip(RemoveAll(piece, "$")))
  }

  /** A list comprehension `[parse(p) for p in pieces]` whose `parse` may
      raise: every piece read, or None as soon as one of them fails. */
  function ParseEach(pieces: seq<string>, parse: string -> Option<real>): (r: Option<seq<real>>)
    ensures r.Some? <==> forall k :: 0 <= k < |pieces| ==> parse(pieces[k]).Some?
    ensures r.Some? ==> |r.value| == |pieces|
    ensures r.Some? ==> forall k :: 0 <= k < |pieces| ==> parse(pieces[k]) == Some(r.value[k])
  {
    if pieces == [] then Some([])
    else
      match parse(pieces[0])
      case None => None
      case Some(v) =>
        match ParseEach(pieces[1..], parse)
        case None =>
          assert exists k :: 1 <= k < |pieces| && parse(pieces[k]).None? by {
            var k :| 0 <= k < |pieces[1..]| && parse(pieces[1..][k]).None?;
            assert pieces[1..][k] == pieces[k + 1];
          }
          None
        case Some(vs) =>
          assert forall k :: 1 <= k < |pieces| ==> pieces[k] == pieces[1..][k - 1];
          Some([v] + vs)
  }

  /** The strike values written in the strikes field, `"$25.00/$17.50"`
      giving [25.0, 17.5]. */
  function Strikes(field: string): (r: Option<seq<real>>)
    ensures r.Some? ==> |r.value| >= 1
  {
    ParseEach(Split(field, '/'), StrikeValue)
  }

  /** `max(xs)`. */
  function SeqMax(xs: seq<real>): (m: real)
    requires xs != []
    ensures m in xs
    ensures forall k :: 0 <= k < |xs| ==> xs[k] <= m
  {
    if |xs| == 1 then xs[0]
    else
      var rest := SeqMax(xs[1..]);
      assert forall k :: 1 <= k < |xs| ==> xs[k] == xs[1..][k - 1];
      if xs[0] >= rest then xs[0] else rest
  }

  /** `min(xs)`. */
  function SeqMin(xs: seq<real>): (m: real)
    requires xs != []
    ensures m in xs
    ensures forall k :: 0 <= k < |xs| ==> m <= xs[k]
  {
    if |xs| == 1 then xs[0]
    else
      var rest := SeqMin(xs[1..]);
      assert forall k :: 1 <= k < |xs| ==> xs[k] == xs[1..][k - 1];
      if xs[0] <= rest then xs[0] else rest
  }

  /** `sum(xs)`. */
  function SeqSum(xs: seq<real>): real
  {
    if xs == [] then 0.0 else xs[0] + SeqSum(xs[1..])
  }

  /** `top_5[0][3].replace("$", "").replace("DB", "").replace("CR", "").strip()`. */
  function NetCostText(field: string): string
  {
    Strip(RemoveAll(RemoveAll(RemoveAll(field, "$"), "DB"), "CR"))
  }

  /** `float(text) if text else 0.0` on the cleaned net cost. The debit or
      credit suffix is dropped, not turned into a sign. */
  function NetCost(field: string): (r: Option<real>)
    ensures NetCostText(field) == [] ==> r == Some(0.0)
  {
    var text := NetCostText(field);
    if text == [] then Some(0.0) else ParseDecimal(text)
  }

  // ---------------------------------------------------------------------
  // The breakeven price in the summary

  const BreakevenTag := "Breakeven: $"

  /** The characters of the group `[0-9.]`. */
  predicate IsPriceChar(c: char)
  {
    IsDigit(c) || c == '.'
  }

  /** The greedy run of `[0-9.]+` at the start of `s`. */
  function PriceRun(s: string): (r: string)
    ensures r <= s
    ensures forall i :: 0 <= i < |r| ==> IsPriceChar(r[i])
    ensures |r| < |s| ==> !IsPriceChar(s[|r|])
  {
    if s != [] && IsPriceChar(s[0]) then [s[0]] + PriceRun(s[1..]) else []
  }

  /** The regex `Breakeven: \$([0-9.]+)` matches at index `i`. */
  predicate MatchesAt(s: string, i: int)
  {
    OccursAt(s, BreakevenTag, i) && i + |BreakevenTag| < |s| && IsPriceChar(s[i + |BreakevenTag|])
  }

  /** The leftmost index at or after `i` where the regex matches. */
  function FirstMatchFrom(s: string, i: nat): (r: Option<nat>)
    ensures r.None? ==> forall j :: i <= j ==> !MatchesAt(s, j)
    ensures r.Some? ==> i <= r.value && MatchesAt(s, r.value)
    ensures r.Some? ==> forall j :: i <= j < r.value ==> !MatchesAt(s, j)
    decreases |s| - i
  {
    if i >= |s| then None
    else if MatchesAt(s, i) then Some(i)
    else FirstMatchFrom(s, i + 1)
  }

  /** `m.group(1)` of `re.search(r"Breakeven: \$([0-9.]+)", summary)`, or
      None when there is no match. */
  function BreakevenGroup(summary: string): Option<string>
  {
    match FirstMatchFrom(summary, 0)
    case None => None
    case Some(i) => Some(PriceRun(summary[i + |BreakevenTag|..]))
  }

  /** The underlying price: the breakeven number when the regex matches (a
      group that is not a number fails the estimate), otherwise
      `sum(strike_parts) / 2`. */
  function Underlying(summary: string, strikes: seq<real>): Option<real>
  {
    match BreakevenGroup(summary)
    case Some(group) => ParseDecimal(group)
    case None => Some(SeqSum(strikes) / 2.0)
  }

  // ---------------------------------------------------------------------
  // The Reg-T estimate

  function Max(a: real, b: real): real
  {
    if a >= b then a else b
  }

  /** The call premium the estimate assumes: it is not in the table. */
  const CallPrice: real := 0.0

  /** `max(0, call_strike - underlying_price)`. */
  function OtmCall(callStrike: real, underlying: real): real
  {
    Max(0.0, callStrike - underlying)
  }

  /** `call_price * 100 + max((0.20 * U - otm) * 100, 0.10 * U * 100)`. */
  function ShortCallMargin(callPrice: real, underlying: real, otm: real): real
  {
    callPrice * 100.0 + Max((0.20 * underlying - otm) * 100.0, 0.10 * underlying * 100.0)
  }

  datatype MarginEstimate =
    | NotAvailable
    | Available(callStrike: real, putStrike: real, underlying: real, otmCall: real, margin: real)

  /** The estimate for a parsed report. An available estimate never puts
      the put strike above the call strike, its out-of-the-money amount is
      not negative, and its margin is at least 10% of the underlying per
      100 shares. */
  function EstimateMargin(report: ParsedReport): (e: MarginEstimate)
    ensures e.Available? ==>
      e.putStrike <= e.callStrike && e.otmCall >= 0.0 && e.margin >= 10.0 * e.underlying
  {
    if report.top5 == [] then NotAvailable
    else
      var row := report.top5[0];
      match Strikes(row.strikes)
      case None => NotAvailable
      case Some(parts) =>
        var callStrike, putStrike := SeqMax(parts), SeqMin(parts);
        match NetCost(row.netCost)
        case None => NotAvailable
        case Some(_) =>
          match Underlying(report.summary, parts)
          case None => NotAvailable
          case Some(u) =>
            var otm := OtmCall(callStrike, u);
            Available(callStrike, putStrike, u, otm, ShortCallMargin(CallPrice, u, otm))
  }

  const MarginNote := "(IBKR RegT est. for risk reversal: short call margin)"
  const NotAvailableLabel := "Margin Impact: N/A"

  /** The label text; `money` is the `,.2f` currency formatting. Both
      labels begin "Margin Impact: ". */
  function MarginLabel(e: MarginEstimate, money: real -> string): (text: string)
    ensures StartsWith(text, "Margin Impact: ")
  {
    match e
    case NotAvailable => NotAvailableLabel
    case Available(_, _, _, _, margin) => "Margin Impact: $" + money(margin) + " " + MarginNote
  }

  // ---------------------------------------------------------------------
  // Properties

  /** The estimate is unavailable exactly when the table is empty or one of
      the strikes, the net cost or the breakeven number fails to parse. */
  lemma NotAvailableExactly(report: ParsedReport)
    ensures EstimateMargin(report) == NotAvailable <==>
      report.top5 == []
      || Strikes(report.top5[0].strikes).None?
      || NetCost(report.top5[0].netCost).None?
      || Underlying(report.summary, Strikes(report.top5[0].strikes).value).None?
  {
  }

  /** The call strike is the largest and the put strike the smallest of the
      strike values, so the call strike is never below the put strike. */
  lemma StrikeSelection(report: ParsedReport)
    requires EstimateMargin(report).Available?
    ensures var e, parts := EstimateMargin(report), Strikes(report.top5[0].strikes).value;
      e.callStrike in parts && e.putStrike in parts
      && (forall k :: 0 <= k < |parts| ==> e.putStrike <= parts[k] <= e.callStrike)
      && e.putStrike <= e.callStrike
  {
    var parts := Strikes(report.top5[0].strikes).value;
    assert parts[0] <= SeqMax(parts);
  }

  /** The underlying price is the breakeven number when the summary holds
      one, and half the sum of the strikes otherwise. */
  lemma UnderlyingSelection(report: ParsedReport)
    requires EstimateMargin(report).Available?
    ensures var e, parts := EstimateMargin(report), Strikes(report.top5[0].strikes).value;
      match BreakevenGroup(report.summary)
      case Some(group) => ParseDecimal(group) == Some(e.underlying)
      case None => e.underlying == SeqSum(parts) / 2.0
  {
  }

  /** The out-of-the-money amount is never negative, is at least
      call - U, and is one of the two. */
  lemma OtmBounds(callStrike: real, u: real)
    ensures var otm := OtmCall(callStrike, u);
      otm >= 0.0 && otm >= callStrike - u && (otm == 0.0 || otm == callStrike - u)
  {
  }

  /** With a zero premium the margin is the larger of 20% of U less the
      out-of-the-money amount and 10% of U, per 100 shares: at least 10 U,
      at least 20 U - 100 otm, and equal to one of them. */
  lemma MarginBounds(u: real, otm: real)
    ensures var m := ShortCallMargin(CallPrice, u, otm);
      m >= 10.0 * u && m >= 20.0 * u - 100.0 * otm
      && (m == 10.0 * u || m == 20.0 * u - 100.0 * otm)
  {
  }

  /** What an available estimate holds: otm = max(0, call - U) and the
      margin of the formula, with the bounds of the two lemmas above. */
  lemma AvailableEstimate(report: ParsedReport)
    requires EstimateMargin(report).Available?
    ensures var e := EstimateMargin(report);
      e.otmCall >= 0.0 && e.otmCall >= e.callStrike - e.underlying
      && (e.otmCall == 0.0 || e.otmCall == e.callStrike - e.underlying)
      && e.margin >= 10.0 * e.underlying
      && e.margin >= 20.0 * e.underlying - 100.0 * e.otmCall
      && (e.margin == 10.0 * e.underlying || e.margin == 20.0 * e.underlying - 100.0 * e.otmCall)
  {
    var e := EstimateMargin(report);
    OtmBounds(e.callStrike, e.underlying);
    MarginBounds(e.underlying, e.otmCall);
  }

  /** The sum of two values halved is their mean. */
  lemma {:induction false} SumOfTwo(xs: seq<real>)
    requires |xs| == 2
    ensures SeqSum(xs) / 2.0 == (SeqMax(xs) + SeqMin(xs)) / 2.0
  {
    assert SeqSum(xs[1..][1..]) == 0.0;
    assert SeqSum(xs) == xs[0] + xs[1];
  }

  /** The fallback for a strikes field of two prices is the mean of the call
      and put strikes; with more pieces it is half their sum, not a mean. */
  lemma FallbackIsMean(report: ParsedReport)
    requires EstimateMargin(report).Available?
    requires BreakevenGroup(report.summary).None?
    requires |Strikes(report.top5[0].strikes).value| == 2
    ensures var e := EstimateMargin(report);
      e.underlying == (e.callStrike + e.putStrike) / 2.0
  {
    SumOfTwo(Strikes(report.top5[0].strikes).value);
  }

  /** Only a failed parse can hide the estimate: the N/A label is shown
      exactly when the estimate is unavailable. */
  lemma LabelIsNotAvailable(e: MarginEstimate, money: real -> string)
    ensures MarginLabel(e, money) == NotAvailableLabel <==> e == NotAvailable
  {
    if e.Available? {
      var text := MarginLabel(e, money);
      assert text[15] == '$' && NotAvailableLabel[15] == 'N';
    }
  }

  /** The number the regex reads follows the leftmost "Breakeven: $" that
      is followed by a digit or a dot, and is the longest run of digits and
      dots there. */
  lemma BreakevenGroupSpec(summary: string)
    ensures BreakevenGroup(summary).None? <==> forall i :: 0 <= i ==> !MatchesAt(summary, i)
    ensures BreakevenGroup(summary).Some? ==> exists i ::
      MatchesAt(summary, i) && (forall j :: 0 <= j < i ==> !MatchesAt(summary, j))
      && BreakevenGroup(summary).value == PriceRun(summary[i + |BreakevenTag|..])
  {
    match FirstMatchFrom(summary, 0)
    case None =>
    case Some(i) =>
      assert MatchesAt(summary, i);
  }

  /** A breakeven group with two dots, such as the "22.70." read from a
      sentence "Breakeven: $22.70.", is not a number, and the estimate is
      then unavailable instead of falling back to the strikes. */
  lemma TwoDotBreakevenNotAvailable(report: ParsedReport, i: nat, j: nat)
    requires BreakevenGroup(report.summary).Some?
    requires var g := BreakevenGroup(report.summary).value; i < j < |g| && g[i] == '.' && g[j] == '.'
    ensures EstimateMargin(report) == NotAvailable
  {
    TwoDotsRejected(BreakevenGroup(report.summary).value, i, j);
  }

  // ---------------------------------------------------------------------
  // The display strings the estimate reads back

  /** Text that `float` reads holds no `$`, `/`, `D`, `C` or `B` and no
      surrounding whitespace. */
  lemma PriceTextShape(t: string)
    requires ParseDecimal(t).Some?
    ensures t != [] && IsStripped(t)
    ensures '$' !in t && '/' !in t && 'D' !in t && 'C' !in t && 'B' !in t
  {
    ParseDecimalShape(t);
    assert !IsSpace(t[0]) && !IsSpace(t[|t| - 1]);
  }

  /** A strike written `$<t>` is read as `float(t)`. */
  lemma StrikeValueOfPrice(t: string)
    requires ParseDecimal(t).Some?
    ensures StrikeValue("$" + t) == ParseDecimal(t)
  {
    PriceTextShape(t);
    RemoveAllLeading("$", t);
    NotContainsChar(t, "$", '$');
    StripOfStripped(t);
  }

  /** A list of two pieces that both parse gives the two values. */
  lemma ParseEachPair(p: string, q: string, parse: string -> Option<real>)
    requires parse(p).Some? && parse(q).Some?
    ensures ParseEach([p, q], parse) == Some([parse(p).value, parse(q).value])
  {
    var pieces := [p, q];
    assert pieces[0] == p && pieces[1] == q;
    var r := ParseEach(pieces, parse);
    assert r.Some?;
    assert r.value[0] == parse(p).value && r.value[1] == parse(q).value;
    assert r.value == [parse(p).value, parse(q).value];
  }

  /** The strikes field `$<a>/$<b>` is cut at its one `/`. */
  lemma PairPieces(a: string, b: string)
    requires '/' !in a && '/' !in b
    ensures Split("$" + a + "/$" + b, '/') == ["$" + a, "$" + b]
  {
    var p, q := "$" + a, "$" + b;
    assert "$" + a + "/$" + b == p + "/" + q;
    assert [p, q][..1] == [p];
    assert JoinWith([p, q], "/") == p + "/" + q;
    assert '/' !in p && '/' !in q;
    SplitJoin([p, q], '/');
  }

  /** A strikes field `$<a>/$<b>` is read as the two prices. */
  lemma StrikesOfPair(a: string, b: string)
    requires ParseDecimal(a).Some? && ParseDecimal(b).Some?
    ensures Strikes("$" + a + "/$" + b) == Some([ParseDecimal(a).value, ParseDecimal(b).value])
  {
    PriceTextShape(a);
    PriceTextShape(b);
    PairPieces(a, b);
    StrikeValueOfPrice(a);
    StrikeValueOfPrice(b);
    ParseEachPair("$" + a, "$" + b, StrikeValue);
  }

  /** Cleaning `$<t> DB` leaves `t` when `t` holds none of the removed
      characters. */
  lemma DebitText(t: string)
    requires t != [] && IsStripped(t) && '$' !in t && 'D' !in t && 'C' !in t
    ensures NetCostText("$" + t + " DB") == t
  {
    var u, w := t + " DB", t + " ";
    assert RemoveAll("$" + t + " DB", "$") == u by {
      assert "$" + t + " DB" == "$" + u;
      RemoveAllLeading("$", u);
      NotContainsChar(u, "$", '$');
    }
    assert RemoveAll(u, "DB") == w by {
      assert u == w + "DB";
      RemoveAllTrailing(w, "DB");
    }
    assert RemoveAll(w, "CR") == w by {
      NotContainsChar(w, "CR", 'C');
    }
    StripTrailingSpace(t, ' ');
  }

  /** Cleaning `$<t> CR` leaves `t` as well. */
  lemma CreditText(t: string)
    requires t != [] && IsStripped(t) && '$' !in t && 'D' !in t && 'C' !in t
    ensures NetCostText("$" + t + " CR") == t
  {
    var u, w := t + " CR", t + " ";
    assert RemoveAll("$" + t + " CR", "$") == u by {
      assert "$" + t + " CR" == "$" + u;
      RemoveAllLeading("$", u);
      NotContainsChar(u, "$", '$');
    }
    assert RemoveAll(u, "DB") == u by {
      NotContainsChar(u, "DB", 'D');
    }
    assert RemoveAll(u, "CR") == w by {
      assert u == w + "CR";
      RemoveAllTrailing(w, "CR");
    }
    StripTrailingSpace(t, ' ');
  }

  /** A net cost written `$<t> DB` is read as `float(t)`: the debit marker
      is dropped and gives no sign. */
  lemma NetCostOfDebit(t: string)
    requires ParseDecimal(t).Some?
    ensures NetCost("$" + t + " DB") == ParseDecimal(t)
  {
    PriceTextShape(t);
    DebitText(t);
  }

  /** A net cost written `$<t> CR` is read as `float(t)` too: a credit
      gives the same positive number as a debit. */
  lemma NetCostOfCredit(t: string)
    requires ParseDecimal(t).Some?
    ensures NetCost("$" + t + " CR") == ParseDecimal(t)
  {
    PriceTextShape(t);
    CreditText(t);
  }

  /** The greedy group stops at the first character that is not a digit or
      a dot. */
  lemma PriceRunOf(t: string, rest: string)
    requires forall i :: 0 <= i < |t| ==> IsPriceChar(t[i])
    requires rest == [] || !IsPriceChar(rest[0])
    ensures PriceRun(t + rest) == t
  {
    var after := t + rest;
    var run := PriceRun(after);
    assert forall i :: 0 <= i < |t| ==> after[i] == t[i];
    assert |t| < |after| ==> after[|t|] == rest[0];
    assert |run| <= |t| ==> |run| == |t|;
    assert run == after[..|run|];
  }

  /** The regex finds the match at `n` when it matches nowhere before. */
  lemma FirstMatchIs(s: string, n: nat)
    requires MatchesAt(s, n) && forall j :: 0 <= j < n ==> !MatchesAt(s, j)
    ensures FirstMatchFrom(s, 0) == Some(n)
  {
  }

  /** In a summary `<pre>Breakeven: $<t><rest>` whose `pre` holds no `B`,
      the regex reads the run of digits and dots `t`. */
  lemma BreakevenAfter(pre: string, t: string, rest: string)
    requires 'B' !in pre
    requires t != [] && forall i :: 0 <= i < |t| ==> IsPriceChar(t[i])
    requires rest == [] || !IsPriceChar(rest[0])
    ensures BreakevenGroup(pre + BreakevenTag + t + rest) == Some(t)
  {
    var s := pre + BreakevenTag + t + rest;
    var n := |pre|;
    assert MatchesAt(s, n) by {
      assert s[n..n + |BreakevenTag|] == BreakevenTag;
      assert s[n + |BreakevenTag|] == t[0];
    }
    forall j | 0 <= j < n
      ensures !MatchesAt(s, j)
    {
      assert s[j] == pre[j] && BreakevenTag[0] == 'B';
    }
    FirstMatchIs(s, n);
    assert s[n + |BreakevenTag|..] == t + rest;
    PriceRunOf(t, rest);
  }

  // ---------------------------------------------------------------------
  // Worked examples

  /** `float` reads "<whole>.<frac>" as `v`, with the digits of the whole
      part given as text. */
  lemma ReadsAs(s: string, whole: nat, wholeText: string, frac: string, v: real)
    requires AllDigits(frac) && wholeText == NatToString(whole) && s == wholeText + "." + frac
    requires v == FixedPoint(whole, DigitsValue(frac), |frac|)
    ensures ParseDecimal(s) == Some(v)
  {
    ParseFixedPoint(whole, frac);
  }

  lemma Reads2250(s: string)
    requires s == "22.50"
    ensures ParseDecimal(s) == Some(22.5)
  {
    assert NatToString(22) == "22";
    assert DigitsValue("50") == 50;
    assert Pow10(2) == 100;
    ReadsAs(s, 22, "22", "50", 22.5);
  }

  lemma Reads1750(s: string)
    requires s == "17.50"
    ensures ParseDecimal(s) == Some(17.5)
  {
    assert NatToString(17) == "17";
    assert DigitsValue("50") == 50;
    assert Pow10(2) == 100;
    ReadsAs(s, 17, "17", "50", 17.5);
  }

  lemma Reads2270(s: string)
    requires s == "22.70"
    ensures ParseDecimal(s) == Some(22.7)
  {
    assert NatToString(22) == "22";
    assert DigitsValue("70") == 70;
    assert Pow10(2) == 100;
    ReadsAs(s, 22, "22", "70", 22.7);
  }

  lemma Reads3000(s: string)
    requires s == "30.00"
    ensures ParseDecimal(s) == Some(30.0)
  {
    assert NatToString(30) == "30";
    assert DigitsValue("00") == 0;
    ReadsAs(s, 30, "30", "00", 30.0);
  }

  lemma Reads020(s: string)
    requires s == "0.20"
    ensures ParseDecimal(s) == Some(0.2)
  {
    assert NatToString(0) == "0";
    assert DigitsValue("20") == 20;
    assert Pow10(2) == 100;
    ReadsAs(s, 0, "0", "20", 0.2);
  }

  lemma Reads125(s: string)
    requires s == "1.25"
    ensures ParseDecimal(s) == Some(1.25)
  {
    assert NatToString(1) == "1";
    assert DigitsValue("25") == 25;
    assert Pow10(2) == 100;
    ReadsAs(s, 1, "1", "25", 1.25);
  }

  /** `"$22.50/$17.50"` gives the strikes 22.5 and 17.5. */
  lemma StrikesExample(a: string, b: string)
    requires a == "22.50" && b == "17.50"
    ensures Strikes("$" + a + "/$" + b) == Some([22.5, 17.5])
  {
    Reads2250(a);
    Reads1750(b);
    StrikesOfPair(a, b);
  }

  /** `"$0.20 DB"` is a net cost of 0.2. */
  lemma DebitExample(c: string)
    requires c == "0.20"
    ensures NetCost("$" + c + " DB") == Some(0.2)
  {
    Reads020(c);
    NetCostOfDebit(c);
  }

  /** `"Breakeven: $22.70"` gives the group "22.70". */
  lemma BreakevenExample(t: string)
    requires t == "22.70"
    ensures BreakevenGroup(BreakevenTag + t) == Some(t)
  {
    assert forall i :: 0 <= i < |t| ==> IsPriceChar(t[i]);
    assert BreakevenTag + t == [] + BreakevenTag + t + [];
    BreakevenAfter([], t, []);
  }

  lemma Margin454()
    ensures SeqMax([22.5, 17.5]) == 22.5 && SeqMin([22.5, 17.5]) == 17.5
    ensures OtmCall(22.5, 22.7) == 0.0
    ensures ShortCallMargin(CallPrice, 22.7, 0.0) == 454.0
  {
  }

  /** The top row `$22.50/$17.50` with a net cost of `$0.20 DB` under a
      summary quoting `Breakeven: $22.70`: the call strike is below the
      underlying, so nothing is out of the money, and the margin is 20% of
      the underlying times 100 shares. */
  lemma Example454(report: ParsedReport, a: string, b: string, c: string, t: string)
    requires a == "22.50" && b == "17.50" && c == "0.20" && t == "22.70"
    requires report.top5 != [] && report.summary == BreakevenTag + t
    requires report.top5[0].strikes == "$" + a + "/$" + b
    requires report.top5[0].netCost == "$" + c + " DB"
    ensures EstimateMargin(report) == Available(22.5, 17.5, 22.7, 0.0, 454.0)
  {
    StrikesExample(a, b);
    DebitExample(c);
    BreakevenExample(t);
    Reads2270(t);
    Margin454();
  }

  /** `"$30.00/$17.50"` gives the strikes 30 and 17.5. */
  lemma WideStrikesExample(a: string, b: string)
    requires a == "30.00" && b == "17.50"
    ensures Strikes("$" + a + "/$" + b) == Some([30.0, 17.5])
  {
    Reads3000(a);
    Reads1750(b);
    StrikesOfPair(a, b);
  }

  /** `"$1.25 CR"` is a net cost of 1.25: the credit marker gives no sign. */
  lemma CreditExample(c: string)
    requires c == "1.25"
    ensures NetCost("$" + c + " CR") == Some(1.25)
  {
    Reads125(c);
    NetCostOfCredit(c);
  }

  lemma Margin2375()
    ensures SeqMax([30.0, 17.5]) == 30.0 && SeqMin([30.0, 17.5]) == 17.5
    ensures SeqSum([30.0, 17.5]) / 2.0 == 23.75
    ensures OtmCall(30.0, 23.75) == 6.25
    ensures ShortCallMargin(CallPrice, 23.75, 6.25) == 237.5
  {
  }

  /** With no breakeven in the summary the underlying is the middle of the
      strikes, 23.75; the call is 6.25 out of the money and the 10% floor
      of 237.50 applies. */
  lemma Example2375(report: ParsedReport, a: string, b: string, c: string)
    requires a == "30.00" && b == "17.50" && c == "1.25"
    requires report.top5 != [] && report.summary == []
    requires report.top5[0].strikes == "$" + a + "/$" + b
    requires report.top5[0].netCost == "$" + c + " CR"
    ensures EstimateMargin(report) == Available(30.0, 17.5, 23.75, 6.25, 237.5)
  {
    WideStrikesExample(a, b);
    CreditExample(c);
    assert BreakevenGroup(report.summary) == None;
    Margin2375();
  }
}
