/** Reading the bloom dates off a Weathernews spot page. The page title gives the year; the
    forecast date, first bloom, full bloom and petal-fall ("fubuki") blocks give a month and a
    day each, written as `<month>月<day>日`. The regular expressions that locate the title year
    and the blocks are not modelled: their captures are inputs. The month/day pattern, the
    range checks and the date formatting are. */
module WeathernewsForecastParser {
  import opened Wrappers
  import opened JsText
  import opened SakuraSpotPredictSchema

  // ----- escapeRegExp -----

  /** The characters a regular expression gives a meaning to. */
  predicate IsRegExpMeta(c: char) {
    c in {'.', '*', '+', '?', '^', '$', '{', '}', '(', ')', '|', '[', ']', '\\'}
  }

  /** `escapeRegExp`: a backslash before every metacharacter. */
  function EscapeRegExp(s: string): (r: string)
    ensures |r| >= |s|
    ensures forall i :: 0 <= i < |s| && !IsRegExpMeta(s[i]) ==> s[i] in r
  {
    if |s| == 0 then []
    else (if IsRegExpMeta(s[0]) then ['\\', s[0]] else [s[0]]) + EscapeRegExp(s[1..])
  }

  /** How a regular expression reads a pattern as literal text: a backslash makes the next
      character literal. `None` for a metacharacter that is not escaped, which would not be
      read literally. */
  function LiteralText(p: string): (r: Option<string>)
    decreases |p|
  {
    if |p| == 0 then Some([])
    else if p[0] == '\\' then
      if |p| == 1 then None
      else match LiteralText(p[2..]) case None => None case Some(rest) => Some([p[1]] + rest)
    else if IsRegExpMeta(p[0]) then None
    else match LiteralText(p[1..]) case None => None case Some(rest) => Some([p[0]] + rest)
  }

  /** An escaped label is read as exactly that label, so it is matched literally. */
  lemma {:induction false} EscapedIsLiteral(s: string)
    ensures LiteralText(EscapeRegExp(s)) == Some(s)
  {
    if |s| > 0 {
      EscapedIsLiteral(s[1..]);
      var e := EscapeRegExp(s);
      if IsRegExpMeta(s[0]) {
        assert e[2..] == EscapeRegExp(s[1..]);
      } else {
        assert e[1..] == EscapeRegExp(s[1..]);
      }
      assert s == [s[0]] + s[1..];
    }
  }

  // ----- The title year -----

  const MinYear: nat := 2000
  const MaxYear: nat := 2100

  /** `extractYearFromTitle`, given the four digits the title pattern captured (if it matched):
      the year, when it lies in 2000..2100. */
  function ExtractYearFromTitle(captured: Option<string>): (r: Option<nat>)
    requires captured.Some? ==> |captured.value| == 4 && AllDigits(captured.value)
    ensures r.Some? <==> captured.Some? && MinYear <= DecimalValue(captured.value) <= MaxYear
    ensures r.Some? ==> r.value == DecimalValue(captured.value)
  {
    if captured.None? then None
    else
      var year := DecimalValue(captured.value);
      if year < MinYear || year > MaxYear then None else Some(year)
  }

  // ----- The month/day pattern -----

  /** One or two digits (`\d{1,2}`) at `p`, `n` being how many. */
  predicate DigitRun(text: string, p: int, n: int) {
    && 0 <= p && p + n <= |text|
    && ((n == 1 && IsDigit(text[p])) || (n == 2 && IsDigit(text[p]) && IsDigit(text[p + 1])))
  }

  /** The value of the digit run of length `n` at `p`. */
  function NumberAt(text: string, p: int, n: int): (v: nat)
    requires DigitRun(text, p, n)
    ensures n == 1 ==> v < 10
    ensures v < 100
  {
    if n == 1 then DigitValue(text[p]) else 10 * DigitValue(text[p]) + DigitValue(text[p + 1])
  }

  /** The pattern `(\d{1,2})月(\d{1,2})日` matches at `p` with a month of `ml` digits and a day
      of `dl` digits. */
  predicate MonthDayShape(text: string, p: int, ml: int, dl: int) {
    && 1 <= ml <= 2 && 1 <= dl <= 2
    && p + ml + dl + 2 <= |text|
    && DigitRun(text, p, ml) && text[p + ml] == '月'
    && DigitRun(text, p + ml + 1, dl) && text[p + ml + 1 + dl] == '日'
  }

  predicate NoMonthDayAt(text: string, p: int) {
    forall ml, dl :: 1 <= ml <= 2 && 1 <= dl <= 2 ==> !MonthDayShape(text, p, ml, dl)
  }

  datatype MonthDay = MonthDay(month: nat, day: nat)

  /** `\d{1,2}` followed by `mark` at `p`, with the number of digits (0 for no match). As `mark`
      is not a digit, at most one length fits. */
  function DigitsBefore(text: string, p: nat, mark: char): (len: nat)
    requires !IsDigit(mark)
    ensures len <= 2
    ensures len > 0 ==> p + len < |text| && DigitRun(text, p, len) && text[p + len] == mark
    ensures forall n :: 1 <= n <= 2 && p + n < |text| && DigitRun(text, p, n) && text[p + n] == mark ==> n == len
  {
    if p + 2 < |text| && IsDigit(text[p]) && IsDigit(text[p + 1]) && text[p + 2] == mark then 2
    else if p + 1 < |text| && IsDigit(text[p]) && text[p + 1] == mark then 1
    else 0
  }

  /** The pattern tried at `p`. At a given position the digit counts are forced, so backtracking
      finds no other match there. */
  function MonthDayAt(text: string, p: nat): (r: Option<MonthDay>)
    ensures r.None? <==> NoMonthDayAt(text, p)
    ensures r.Some? ==> exists ml, dl :: (MonthDayShape(text, p, ml, dl)
      && r.value == MonthDay(NumberAt(text, p, ml), NumberAt(text, p + ml + 1, dl)))
  {
    var ml := DigitsBefore(text, p, '月');
    if ml == 0 then None
    else
      var dl := DigitsBefore(text, p + ml + 1, '日');
      if dl == 0 then None
      else
        assert MonthDayShape(text, p, ml, dl);
        Some(MonthDay(NumberAt(text, p, ml), NumberAt(text, p + ml + 1, dl)))
  }

  /** The leftmost match at or after `from`. */
  function FirstMonthDay(text: string, from: nat): (r: Option<MonthDay>)
    ensures r.None? ==> forall p :: from <= p <= |text| ==> NoMonthDayAt(text, p)
    ensures r.Some? ==> exists p :: (from <= p < |text| && MonthDayAt(text, p) == r
      && forall q :: from <= q < p ==> NoMonthDayAt(text, q))
    decreases |text| - from
  {
    if from >= |text| then
      assert forall p :: from <= p ==> NoMonthDayAt(text, p);
      None
    else
      match MonthDayAt(text, from)
      case Some(md) => Some(md)
      case None => FirstMonthDay(text, from + 1)
  }

  /** `parseMonthDay`: the first `<month>月<day>日` in the text, accepted only with a month in
      1..12 and a day in 1..31. Days per month are not checked, and a first match out of range
      is not followed by a search for a later one. */
  function ParseMonthDay(text: string): (r: Option<MonthDay>)
    ensures r.Some? ==> FirstMonthDay(text, 0) == r
    ensures r.Some? ==> 1 <= r.value.month <= 12 && 1 <= r.value.day <= 31
    ensures r.None? ==> (FirstMonthDay(text, 0).None?
      || !(1 <= FirstMonthDay(text, 0).value.month <= 12 && 1 <= FirstMonthDay(text, 0).value.day <= 31))
  {
    match FirstMonthDay(text, 0)
    case None => None
    case Some(md) =>
      if md.month < 1 || md.month > 12 then None
      else if md.day < 1 || md.day > 31 then None
      else Some(md)
  }

  // ----- Dates -----

  /** `toIsoDate`: year padded to four digits, month and day to two. */
  function ToIsoDate(year: nat, month: nat, day: nat): string {
    PadStart(NatToDecimal(year), 4, '0') + "-" + PadStart(NatToDecimal(month), 2, '0') + "-" + PadStart(NatToDecimal(day), 2, '0')
  }

  /** A year below 10000 and a month and day below 100 give an ISO date whose three numbers
      read back as the year, month and day. */
  lemma ToIsoDateRoundTrip(year: nat, month: nat, day: nat)
    requires year < 10000 && month < 100 && day < 100
    ensures IsIsoDate(ToIsoDate(year, month, day))
    ensures var d := ToIsoDate(year, month, day);
      DecimalValue(d[..4]) == year && DecimalValue(d[5..7]) == month && DecimalValue(d[8..]) == day
  {
    ZeroPaddedNumeral(year, 4);
    ZeroPaddedNumeral(month, 2);
    ZeroPaddedNumeral(day, 2);
    var y := PadStart(NatToDecimal(year), 4, '0');
    var m := PadStart(NatToDecimal(month), 2, '0');
    var dd := PadStart(NatToDecimal(day), 2, '0');
    var d := ToIsoDate(year, month, day);
    assert d == y + "-" + m + "-" + dd;
    assert d[..4] == y && d[5..7] == m && d[8..] == dd;
  }

  /** The date one block contributes: its trimmed text, when non-empty and holding a valid
      month and day, formatted with the title year. */
  function BlockDate(year: nat, captured: Option<string>): (r: Option<string>)
    ensures r.Some? ==> captured.Some? && ParseMonthDay(Trim(captured.value)).Some?
    ensures r.None? ==> captured.None? || ParseMonthDay(Trim(captured.value)).None?
  {
    if captured.None? then None
    else
      var text := Trim(captured.value);
      if |text| == 0 then None
      else match ParseMonthDay(text)
        case None => None
        case Some(md) => Some(ToIsoDate(year, md.month, md.day))
  }

  /** The captures of the page's patterns: the title's four-digit year, and the raw text of the
      status paragraph and of the three labelled blocks, where each pattern matched. */
  datatype PageCaptures = PageCaptures(
    titleYear: Option<string>,
    kaikaStatus: Option<string>,
    firstBloom: Option<string>,
    fullBloom: Option<string>,
    fubuki: Option<string>)

  predicate WellFormedCaptures(c: PageCaptures) {
    c.titleYear.Some? ==> |c.titleYear.value| == 4 && AllDigits(c.titleYear.value)
  }

  /** `parseWeathernewsSpotForecastHtml`: the result is filled field by field. It is `None` for
      an empty page, without a title year in range, or when none of the three bloom dates
      parses, even if the forecast date did. */
  method ParseWeathernewsSpotForecastHtml(html: string, captures: PageCaptures) returns (r: Option<Prediction>)
    requires WellFormedCaptures(captures)
    ensures |html| == 0 || ExtractYearFromTitle(captures.titleYear).None? ==> r.None?
    ensures |html| > 0 && ExtractYearFromTitle(captures.titleYear).Some? ==>
      var year := ExtractYearFromTitle(captures.titleYear).value;
      var p := Prediction(BlockDate(year, captures.kaikaStatus), BlockDate(year, captures.firstBloom),
                          BlockDate(year, captures.fullBloom), BlockDate(year, captures.fubuki));
      r == if p.firstBloomDate.None? && p.fullBloomDate.None? && p.fubukiDate.None? then None else Some(p)
  {
    if |html| == 0 {
      return None;
    }
    var year := ExtractYearFromTitle(captures.titleYear);
    if year.None? {
      return None;
    }
    var result := Prediction(None, None, None, None);
    var forecasted := BlockDate(year.value, captures.kaikaStatus);
    if forecasted.Some? {
      result := result.(forecastedAt := forecasted);
    }
    var firstBloom := BlockDate(year.value, captures.firstBloom);
    if firstBloom.Some? {
      result := result.(firstBloomDate := firstBloom);
    }
    var fullBloom := BlockDate(year.value, captures.fullBloom);
    if fullBloom.Some? {
      result := result.(fullBloomDate := fullBloom);
    }
    var fubuki := BlockDate(year.value, captures.fubuki);
    if fubuki.Some? {
      result := result.(fubukiDate := fubuki);
    }
    if result.firstBloomDate.None? && result.fullBloomDate.None? && result.fubukiDate.None? {
      return None;
    }
    return Some(result);
  }

  /** A block's date is an ISO date in the title year, with the block's month and day. */
  lemma BlockDateIsIsoDate(year: nat, captured: Option<string>)
    requires MinYear <= year <= MaxYear
    requires BlockDate(year, captured).Some?
    ensures IsIsoDate(BlockDate(year, captured).value)
    ensures var d := BlockDate(year, captured).value;
      var md := ParseMonthDay(Trim(captured.value)).value;
      DecimalValue(d[..4]) == year && DecimalValue(d[5..7]) == md.month && DecimalValue(d[8..]) == md.day
  {
    var md := ParseMonthDay(Trim(captured.value)).value;
    ToIsoDateRoundTrip(year, md.month, md.day);
  }

  /** Whatever the parser returns passes the prediction schema. */
  lemma ParsedPredictionIsValid(year: nat, c: PageCaptures)
    requires MinYear <= year <= MaxYear
    ensures var p := Prediction(BlockDate(year, c.kaikaStatus), BlockDate(year, c.firstBloom),
                                BlockDate(year, c.fullBloom), BlockDate(year, c.fubuki));
      p.firstBloomDate.Some? || p.fullBloomDate.Some? || p.fubukiDate.Some? ==> ValidPrediction(p)
  {
    if BlockDate(year, c.kaikaStatus).Some? { BlockDateIsIsoDate(year, c.kaikaStatus); }
    if BlockDate(year, c.firstBloom).Some? { BlockDateIsIsoDate(year, c.firstBloom); }
    if BlockDate(year, c.fullBloom).Some? { BlockDateIsIsoDate(year, c.fullBloom); }
    if BlockDate(year, c.fubuki).Some? { BlockDateIsIsoDate(year, c.fubuki); }
  }
}
