/**
 * The cell parsers of the TINSA importer (backend/app/etl/tinsa_importer.py):
 * numbers in Chilean format (dot for thousands, comma for decimals),
 * integers, percentages, SI/NO flags, dates and the coordinate repair.
 *
 * The importer reads every column as text, so a cell is either a string or
 * pandas' missing value NaN (`None` here).
 */
module TinsaParsers {
  import opened Wrappers
  import opened Text
  import opened Numeric

  /** A CSV cell read with `dtype=str`: the text, or `None` for NaN. */
  type Cell = Option<string>

  // ---------------------------------------------------------------------------
  // Numbers
  // ---------------------------------------------------------------------------

  /** The spellings the number parser treats as "no value" after stripping. */
  predicate IsNullToken(s: string) {
    s == "-" || s == "" || s == "nan" || s == "None" || s == "NaN"
  }

  /** Chilean to Python notation: thousands dots are dropped, the decimal comma becomes a point. */
  function ChileanToPython(s: string): (r: string)
    ensures '.' in r ==> ',' in s
    ensures ',' !in r
  {
    ReplaceChar(DeleteChar(s, '.'), ',', '.')
  }

  /** `parse_chilean_number`: `"4.250,0"` is 4250.0; missing, null tokens and garbage give `None`. */
  function ParseChileanNumber(c: Cell): Option<real> {
    match c
    case None => None
    case Some(v) =>
      var s := Strip(v);
      if IsNullToken(s) then None else PyFloat(ChileanToPython(s))
  }

  /** `parse_chilean_int`: the parsed number rounded with Python's `round` (ties to even). */
  function ParseChileanInt(c: Cell): (r: Option<int>)
    ensures r.Some? <==> ParseChileanNumber(c).Some?
    ensures r.Some? ==> -0.5 <= r.value as real - ParseChileanNumber(c).value <= 0.5
    ensures r.Some? && (r.value as real - ParseChileanNumber(c).value == 0.5
                        || ParseChileanNumber(c).value - r.value as real == 0.5)
            ==> r.value % 2 == 0
  {
    match ParseChileanNumber(c)
    case None => None
    case Some(n) => Some(RoundHalfEven(n))
  }

  /** The notation rewrite of `w,f`: the dots of `w` go, the comma becomes a point. */
  lemma ChileanToPythonDecimal(w: string, f: string)
    requires DigitsAndDots(w) && AllDigits(f)
    ensures ChileanToPython(w + "," + f) == Undotted(w) + "." + f
  {
    DeleteDotsDecimal(w, f);
    CommaToPoint(Undotted(w), f);
  }

  /** Deleting the dots of `w,f` deletes those of `w`. */
  lemma DeleteDotsDecimal(w: string, f: string)
    requires DigitsAndDots(w) && AllDigits(f)
    ensures DeleteChar(w + "," + f, '.') == Undotted(w) + "," + f
  {
    assert '.' !in f;
    DeleteAbsentChar(f, '.');
    DeleteCharAppend(w + ",", f, '.');
    DeleteCharAppend(w, ",", '.');
    assert DeleteChar(",", '.') == ",";
  }

  /** The one comma of `d,f` becomes a point. */
  lemma CommaToPoint(d: string, f: string)
    requires AllDigits(d) && AllDigits(f)
    ensures ReplaceChar(d + "," + f, ',', '.') == d + "." + f
  {
    var s := d + "," + f;
    var r := ReplaceChar(s, ',', '.');
    forall i | 0 <= i < |r|
      ensures r[i] == (d + "." + f)[i]
    {
      if i < |d| {
        assert s[i] == d[i];
      } else if i > |d| {
        assert s[i] == f[i - |d| - 1];
      }
    }
  }

  /** On text with no surrounding space that is not a null token the parser is `float` of the rewrite. */
  lemma ParseChileanNumberPlain(s: string)
    requires Strip(s) == s && !IsNullToken(s)
    ensures ParseChileanNumber(Some(s)) == PyFloat(ChileanToPython(s))
  {
  }

  lemma DecimalTextStrip(w: string, f: string)
    requires DigitsAndDots(w) && w != [] && AllDigits(f)
    ensures Strip(w + "," + f) == w + "," + f
  {
    var s := w + "," + f;
    assert s[0] == w[0];
    assert IsDigit(s[|s| - 1]) || s[|s| - 1] == ',';
    StripNoSpace(s);
  }

  lemma DecimalTextNotNull(w: string, f: string)
    ensures !IsNullToken(w + "," + f)
  {
    var s := w + "," + f;
    assert s[|w|] == ',';
  }

  /**
   * A number in Chilean format with a decimal part: digits grouped by dots,
   * a comma, digits.  `"4.250,5"` is 4250.5.
   */
  lemma ChileanDecimal(w: string, f: string)
    requires DigitsAndDots(w) && Undotted(w) != [] && AllDigits(f)
    ensures ParseChileanNumber(Some(w + "," + f))
         == Some(DigitsValue(Undotted(w) + f) as real / Pow10(|f|) as real)
  {
    AllDigitsAppend(Undotted(w), f);
    DecimalTextStrip(w, f);
    DecimalTextNotNull(w, f);
    ParseChileanNumberPlain(w + "," + f);
    ChileanToPythonDecimal(w, f);
    PyFloatOfPointNumber(Undotted(w), f);
  }

  /** The notation rewrite of an optionally signed dot-grouped integer drops the dots. */
  lemma ChileanToPythonInteger(sign: string, w: string)
    requires sign == "-" || sign == ""
    requires DigitsAndDots(w)
    ensures ChileanToPython(sign + w) == sign + Undotted(w)
  {
    var w' := Undotted(w);
    DeleteAbsentChar(sign, '.');
    DeleteCharAppend(sign, w, '.');
    assert DeleteChar(sign + w, '.') == sign + w';
    var t := sign + w';
    assert forall i :: 0 <= i < |t| ==> t[i] != ',';
    assert ReplaceChar(t, ',', '.') == t;
  }

  /** A run of digits read by `float`. */
  lemma PyFloatOfDigits(w: string)
    requires AllDigits(w) && w != []
    ensures PyFloat(w) == Some(DigitsValue(w) as real)
  {
    SignedTextStrip("", w);
    assert "" + w == w;
    PyFloatStripped(w);
    SignedDecimalOfDigits(w);
  }

  /** A minus sign and a run of digits read by `float`. */
  lemma PyFloatOfNegativeDigits(w: string, v: real)
    requires AllDigits(w) && w != []
    requires v == DigitsValue(w) as real
    ensures PyFloat("-" + w) == Some(-v)
  {
    SignedTextStrip("-", w);
    PyFloatStripped("-" + w);
    SignedDecimalOfNegativeDigits(w, v);
  }

  lemma PyFloatStripped(s: string)
    requires Strip(s) == s
    ensures PyFloat(s) == SignedDecimal(s)
  {
  }

  lemma SignedDecimalOfDigits(w: string)
    requires AllDigits(w) && w != []
    ensures SignedDecimal(w) == Some(DigitsValue(w) as real)
  {
    UnsignedDecimalOfDigits(w);
    SignedDecimalUnsigned(w);
  }

  lemma SignedDecimalOfNegativeDigits(w: string, v: real)
    requires AllDigits(w) && w != []
    requires v == DigitsValue(w) as real
    ensures SignedDecimal("-" + w) == Some(-v)
  {
    UnsignedDecimalOfDigits(w);
    SignedDecimalNegative(w, v);
  }

  lemma SignedTextStrip(sign: string, w: string)
    requires sign == "-" || sign == ""
    requires AllDigits(w) && w != []
    ensures Strip(sign + w) == sign + w
  {
    var s := sign + w;
    assert s[|s| - 1] == w[|w| - 1];
    assert s[0] == '-' || s[0] == w[0];
    StripNoSpace(s);
  }

  lemma IntegerTextStrip(sign: string, w: string)
    requires sign == "-" || sign == ""
    requires DigitsAndDots(w) && w != []
    ensures Strip(sign + w) == sign + w
  {
    var s := sign + w;
    assert s[|s| - 1] == w[|w| - 1];
    assert s[0] == '-' || s[0] == w[0];
    StripNoSpace(s);
  }

  lemma IntegerTextNotNull(sign: string, w: string)
    requires sign == "-" || sign == ""
    requires DigitsAndDots(w) && Undotted(w) != []
    ensures !IsNullToken(sign + w)
  {
    var s := sign + w;
    assert w != [];
    assert s[0] == '-' || IsDigit(s[0]) || s[0] == '.';
    if |s| == 1 {
      assert s == w == [w[0]];
    }
  }

  /** An integer in Chilean format: digits grouped by dots.  `"334.565"` is 334565. */
  lemma ChileanInteger(w: string)
    requires DigitsAndDots(w) && Undotted(w) != []
    ensures ParseChileanNumber(Some(w)) == Some(DigitsValue(Undotted(w)) as real)
  {
    assert w != [] && "" + w == w && "" + Undotted(w) == Undotted(w);
    IntegerTextStrip("", w);
    IntegerTextNotNull("", w);
    ParseChileanNumberPlain(w);
    ChileanToPythonInteger("", w);
    PyFloatOfDigits(Undotted(w));
  }

  /** A negative integer in Chilean format.  `"-334.565"` is -334565. */
  lemma ChileanNegativeInteger(w: string, v: real)
    requires DigitsAndDots(w) && Undotted(w) != []
    requires v == DigitsValue(Undotted(w)) as real
    ensures ParseChileanNumber(Some("-" + w)) == Some(-v)
  {
    assert w != [];
    IntegerTextStrip("-", w);
    IntegerTextNotNull("-", w);
    ParseChileanNumberPlain("-" + w);
    ChileanToPythonInteger("-", w);
    PyFloatOfNegativeDigits(Undotted(w), v);
  }

  /** A cell that strips to a null token reads as missing. */
  lemma ChileanNumberNullToken(v: string)
    requires IsNullToken(Strip(v))
    ensures ParseChileanNumber(Some(v)) == None
  {
  }

  /** A dash surrounded by blanks is a null token. */
  lemma ChileanNumberDash()
    ensures ParseChileanNumber(Some(" - ")) == None
  {
    StripDash();
    ChileanNumberNullToken(" - ");
  }

  lemma StripDash()
    ensures Strip(" - ") == "-"
  {
  }

  /** A blank cell reads as missing. */
  lemma ChileanNumberBlank(v: string)
    requires forall i :: 0 <= i < |v| ==> IsSpace(v[i])
    ensures ParseChileanNumber(Some(v)) == None
  {
    StripAllSpace(v);
  }

  /** `parse_percentage`: the `%` sign is dropped and a decimal comma accepted. */
  function ParsePercentage(c: Cell): Option<real> {
    match c
    case None => None
    case Some(v) =>
      var s := PercentageText(Strip(v));
      if s == "-" || s == "" || s == "nan" then None else PyFloat(s)
  }

  /** The text `float` reads: every `%` dropped, a comma read as the decimal point. */
  function PercentageText(s: string): (r: string)
    ensures '%' !in r && ',' !in r
  {
    ReplaceChar(DeleteChar(s, '%'), ',', '.')
  }

  /** The percentage text of digits, a comma, digits and `%` is the Python literal with a point. */
  lemma PercentageTextDecimal(w: string, f: string)
    requires AllDigits(w) && AllDigits(f)
    ensures PercentageText(w + "," + f + "%") == w + "." + f
  {
    var d := w + "," + f;
    assert '%' !in d by {
      assert forall i :: 0 <= i < |d| ==> d[i] == ',' || IsDigit(d[i]);
    }
    DropTrailingPercent(d);
    CommaAsPoint(w, f);
  }

  lemma DropTrailingPercent(d: string)
    requires '%' !in d
    ensures DeleteChar(d + "%", '%') == d
  {
    DeleteAbsentChar(d, '%');
    DeleteCharAppend(d, "%", '%');
    assert DeleteChar("%", '%') == "";
  }

  lemma CommaAsPoint(w: string, f: string)
    requires AllDigits(w) && AllDigits(f)
    ensures ReplaceChar(w + "," + f, ',', '.') == w + "." + f
  {
    var d := w + "," + f;
    var r := ReplaceChar(d, ',', '.');
    forall i | 0 <= i < |r|
      ensures r[i] == (w + "." + f)[i]
    {
      if i < |w| {
        assert d[i] == w[i];
      } else if i > |w| {
        assert d[i] == f[i - |w| - 1];
      }
    }
  }

  lemma PercentagePlain(w: string, f: string)
    requires AllDigits(w) && w != [] && AllDigits(f)
    ensures Strip(w + "," + f + "%") == w + "," + f + "%"
  {
    var s := w + "," + f + "%";
    assert s[0] == w[0] && s[|s| - 1] == '%';
    StripNoSpace(s);
  }

  /**
   * A percentage written with a decimal comma is that number, not divided
   * by 100: `"4,5%"` is 4.5.
   */
  lemma PercentageOfDecimal(w: string, f: string)
    requires AllDigits(w) && w != [] && AllDigits(f)
    ensures ParsePercentage(Some(w + "," + f + "%")) == Some(DigitsValue(w + f) as real / Pow10(|f|) as real)
  {
    PercentagePlain(w, f);
    PercentageTextDecimal(w, f);
    assert (w + "." + f)[|w|] == '.';
    PyFloatOfPointNumber(w, f);
  }

  // ---------------------------------------------------------------------------
  // Flags
  // ---------------------------------------------------------------------------

  /** `parse_boolean`: `SI` and `NO` in any case, surrounded by any whitespace. */
  function ParseBoolean(c: Cell): Option<bool> {
    match c
    case None => None
    case Some(v) =>
      var s := Upper(Strip(v));
      if s == "SI" then Some(true) else if s == "NO" then Some(false) else None
  }

  lemma UpperLower(s: string)
    ensures Upper(Lower(s)) == Upper(s)
  {
  }

  /** The flag does not depend on letter case. */
  lemma ParseBooleanIgnoresCase(v: string)
    ensures ParseBoolean(Some(Lower(v))) == ParseBoolean(Some(v))
  {
    StripLower(v);
    UpperLower(Strip(v));
  }

  /** Lower-casing commutes with stripping (ASCII case mapping does not touch whitespace). */
  lemma StripLower(v: string)
    ensures Strip(Lower(v)) == Lower(Strip(v))
  {
    TrimStartLower(v);
    TrimEndLower(TrimStart(v));
  }

  lemma {:induction false} TrimStartLower(v: string)
    ensures TrimStart(Lower(v)) == Lower(TrimStart(v))
  {
    if v != [] {
      assert Lower(v)[1..] == Lower(v[1..]);
      TrimStartLower(v[1..]);
    }
  }

  lemma {:induction false} TrimEndLower(v: string)
    ensures TrimEnd(Lower(v)) == Lower(TrimEnd(v))
  {
    if v != [] {
      assert Lower(v)[..|v| - 1] == Lower(v[..|v| - 1]);
      TrimEndLower(v[..|v| - 1]);
    }
  }

  /** `"si"` is true. */
  lemma ParseBooleanSi()
    ensures ParseBoolean(Some("si")) == Some(true)
  {
    StripNoSpace("si");
    assert Upper("si") == "SI";
  }

  /** `"NO"` is false. */
  lemma ParseBooleanNo()
    ensures ParseBoolean(Some("NO")) == Some(false)
  {
    StripNoSpace("NO");
  }

  /** Any other token, such as `"-"`, is missing. */
  lemma ParseBooleanDash()
    ensures ParseBoolean(Some("-")) == None
  {
    StripNoSpace("-");
    assert Upper("-") == "-";
  }

  // ---------------------------------------------------------------------------
  // Dates
  // ---------------------------------------------------------------------------

  datatype Date = Date(year: nat, month: nat, day: nat)

  predicate IsLeapYear(y: nat) {
    (y % 4 == 0 && y % 100 != 0) || y % 400 == 0
  }

  function DaysInMonth(y: nat, m: nat): nat {
    if m == 2 then (if IsLeapYear(y) then 29 else 28)
    else if m == 4 || m == 6 || m == 9 || m == 11 then 30
    else 31
  }

  /** A date `datetime.date` accepts: years 1 to 9999, a month, a day of that month. */
  predicate ValidDate(d: Date) {
    1 <= d.year <= 9999 && 1 <= d.month <= 12 && 1 <= d.day <= DaysInMonth(d.year, d.month)
  }

  /** The text `strptime`'s `%d` accepts: `01`-`31`, `1`-`9`, or a space and `1`-`9`. */
  function DayField(p: string): (r: Option<nat>)
    ensures r.Some? ==> 1 <= r.value <= 31
  {
    if |p| == 2 && ((p[0] == '3' && (p[1] == '0' || p[1] == '1'))
                    || ((p[0] == '1' || p[0] == '2') && IsDigit(p[1]))
                    || (p[0] == '0' && '1' <= p[1] <= '9')) then
      DigitsValueShort(p);
      Some(DigitsValue(p))
    else if |p| == 1 && '1' <= p[0] <= '9' then
      DigitsValueShort(p);
      Some(DigitsValue(p))
    else if |p| == 2 && p[0] == ' ' && '1' <= p[1] <= '9' then
      DigitsValueShort(p[1..]);
      Some(DigitsValue(p[1..]))
    else None
  }

  /** The text `strptime`'s `%m` accepts: `01`-`12` or `1`-`9`. */
  function MonthField(p: string): (r: Option<nat>)
    ensures r.Some? ==> 1 <= r.value <= 12
  {
    if |p| == 2 && ((p[0] == '1' && '0' <= p[1] <= '2') || (p[0] == '0' && '1' <= p[1] <= '9')) then
      DigitsValueShort(p);
      Some(DigitsValue(p))
    else if |p| == 1 && '1' <= p[0] <= '9' then
      DigitsValueShort(p);
      Some(DigitsValue(p))
    else None
  }

  /** The text `strptime`'s `%Y` accepts: exactly four digits. */
  function YearField(p: string): (r: Option<nat>)
    ensures r.Some? ==> r.value < 10000
  {
    if |p| == 4 && AllDigits(p) then
      DigitsValueBound(p);
      assert Pow10(4) == 10000;
      Some(DigitsValue(p))
    else None
  }

  /** The three formats tried in order: `%d-%m-%Y`, `%d/%m/%Y`, `%Y-%m-%d`. */
  datatype DateFormat = DayFirst(sep: char) | YearFirst(sep: char)

  const Formats: seq<DateFormat> := [DayFirst('-'), DayFirst('/'), YearFirst('-')]

  /**
   * `datetime.strptime(s, fmt)`: the whole string must be the three fields
   * joined by the separator, and the fields a valid calendar date.
   */
  function Strptime(s: string, fmt: DateFormat): (r: Option<Date>)
    ensures r.Some? ==> ValidDate(r.value)
  {
    var parts := Split(s, fmt.sep);
    if |parts| != 3 then None
    else
      var dp := if fmt.YearFirst? then parts[2] else parts[0];
      var yp := if fmt.YearFirst? then parts[0] else parts[2];
      match (DayField(dp), MonthField(parts[1]), YearField(yp))
      case (Some(d), Some(m), Some(y)) =>
        if ValidDate(Date(y, m, d)) then Some(Date(y, m, d)) else None
      case _ => None
  }

  /** The first format of `fmts` that parses `s`. */
  function FirstStrptime(s: string, fmts: seq<DateFormat>): (r: Option<Date>)
    ensures r.Some? ==> ValidDate(r.value)
    ensures r.Some? <==> exists i :: 0 <= i < |fmts| && Strptime(s, fmts[i]).Some?
  {
    if fmts == [] then None
    else match Strptime(s, fmts[0])
      case Some(d) => Some(d)
      case None =>
        assert forall i :: 1 <= i < |fmts| ==> fmts[i] == fmts[1..][i - 1];
        FirstStrptime(s, fmts[1..])
  }

  /** `date.isoformat()`: `YYYY-MM-DD`. */
  function IsoDate(d: Date): (r: string)
    requires ValidDate(d)
    ensures |r| == 10 && r[4] == '-' && r[7] == '-'
  {
    Pad4(d.year) + "-" + Pad2(d.month) + "-" + Pad2(d.day)
  }

  /** The Spanish month names, in the order the importer tries them. */
  const MonthNames: seq<string> := ["enero", "febrero", "marzo", "abril", "mayo", "junio", "julio",
                                    "agosto", "septiembre", "octubre", "noviembre", "diciembre"]

  /** Index of the first month name (from `from` on) contained in `sl`, or 12. */
  function FirstMonthIn(sl: string, from: nat): (i: nat)
    requires from <= 12
    ensures from <= i <= 12
    ensures i < 12 ==> Contains(sl, MonthNames[i])
    ensures forall j :: from <= j < i ==> !Contains(sl, MonthNames[j])
    decreases 12 - from
  {
    if from == 12 then 12
    else if Contains(sl, MonthNames[from]) then from
    else FirstMonthIn(sl, from + 1)
  }

  /** The first run of four digits in `s` (`re.search(r"(\d{4})", s)`), as a number. */
  function FirstFourDigits(s: string): (r: Option<nat>)
    ensures r.Some? ==> r.value < 10000
    decreases |s|
  {
    if |s| < 4 then None
    else if AllDigits(s[..4]) then
      DigitsValueBound(s[..4]);
      assert Pow10(4) == 10000;
      Some(DigitsValue(s[..4]))
    else FirstFourDigits(s[1..])
  }

  /**
   * The month-name fallback as written: `f"{year}-{month:02d}-01"` prints the
   * year without zero padding.
   */
  function MonthNameDateAsWritten(s: string): Option<string> {
    var m := FirstMonthIn(Lower(s), 0);
    if m == 12 then None
    else match FirstFourDigits(s)
      case None => None
      case Some(y) => Some(IntToString(y) + "-" + Pad2(m + 1) + "-01")
  }

  /** The month-name fallback with the year padded to four digits, an ISO date like every other result. */
  function MonthNameDate(s: string): (r: Option<string>)
    ensures r.Some? ==> |r.value| == 10 && r.value[4] == '-' && r.value[7] == '-' && r.value[8..] == "01"
  {
    var m := FirstMonthIn(Lower(s), 0);
    if m == 12 then None
    else match FirstFourDigits(s)
      case None => None
      case Some(y) => Some(Pad4(y) + "-" + Pad2(m + 1) + "-01")
  }

  lemma MonthOfUnpaddedExample()
    ensures FirstMonthIn(Lower("0099 enero"), 0) == 0
  {
    assert Lower("0099 enero") == "0099 enero";
    ContainsSuffix("0099 ", "enero");
    assert "0099 " + "enero" == "0099 enero";
  }

  lemma YearOfUnpaddedExample()
    ensures FirstFourDigits("0099 enero") == Some(99)
  {
    var s := "0099 enero";
    assert s[..4] == "0099";
    assert DigitsValue("0099") == 99 by {
      assert "0099"[..3] == "009" && "009"[..2] == "00" && "00"[..1] == "0";
    }
  }

  /** A year below 1000 found next to a month name does not give a well-formed date as written. */
  lemma MonthNameDateUnpadded()
    ensures MonthNameDateAsWritten("0099 enero") == Some("99-01-01")
    ensures MonthNameDate("0099 enero") == Some("0099-01-01")
  {
    UnpaddedAsWritten();
    UnpaddedCorrected();
  }

  lemma UnpaddedAsWritten()
    ensures MonthNameDateAsWritten("0099 enero") == Some("99-01-01")
  {
    MonthOfUnpaddedExample();
    YearOfUnpaddedExample();
    assert IntToString(99) == "99";
    PadOne();
    assert "99" + "-" + "01" + "-01" == "99-01-01";
  }

  lemma UnpaddedCorrected()
    ensures MonthNameDate("0099 enero") == Some("0099-01-01")
  {
    MonthOfUnpaddedExample();
    YearOfUnpaddedExample();
    PadOne();
    PadNinetyNine();
    assert "0099" + "-" + "01" + "-01" == "0099-01-01";
  }

  lemma PadOne()
    ensures Pad2(1) == "01"
  {
    assert 1 / 10 == 0 && 1 % 10 == 1;
    assert DigitChar(0) == '0' && DigitChar(1) == '1';
  }

  lemma PadNinetyNine()
    ensures Pad4(99) == "0099"
  {
    assert 99 / 100 == 0 && 99 % 100 == 99;
    assert 0 / 10 == 0 && 0 % 10 == 0 && 99 / 10 == 9 && 99 % 10 == 9;
    assert DigitChar(0) == '0' && DigitChar(9) == '9';
    assert Pad2(0) == "00" && Pad2(99) == "99";
  }

  /** The token check of `parse_date`, after stripping. */
  predicate IsDateNullToken(s: string) {
    s == "-" || s == "" || s == "nan"
  }

  /** `parse_date` with the corrected month-name fallback. */
  function ParseDateSpec(c: Cell): (r: Option<string>)
    ensures r.Some? ==> |r.value| == 10 && r.value[4] == '-' && r.value[7] == '-'
  {
    match c
    case None => None
    case Some(v) => ParseDateText(Strip(v))
  }

  /** `parse_date` on the stripped text. */
  function ParseDateText(s: string): (r: Option<string>)
    ensures r.Some? ==> |r.value| == 10 && r.value[4] == '-' && r.value[7] == '-'
  {
    if IsDateNullToken(s) then None
    else match FirstStrptime(s, Formats)
      case Some(d) => Some(IsoDate(d))
      case None => MonthNameDate(s)
  }

  /** `parse_date`: the three formats in order, then the month-name fallback. */
  method ParseDate(c: Cell) returns (r: Option<string>)
    ensures r == ParseDateSpec(c)
  {
    if c.None? {
      return None;
    }
    var s := Strip(c.value);
    assert ParseDateSpec(c) == ParseDateText(s);
    if IsDateNullToken(s) {
      return None;
    }
    r := TryFormats(s);
    if r.None? {
      r := TryMonthNames(s);
    }
  }

  /** The `for fmt in formats` loop: the first format that parses, as an ISO date. */
  method TryFormats(s: string) returns (r: Option<string>)
    ensures FirstStrptime(s, Formats).Some? ==> r == Some(IsoDate(FirstStrptime(s, Formats).value))
    ensures FirstStrptime(s, Formats).None? ==> r.None?
  {
    for i := 0 to |Formats|
      invariant forall j :: 0 <= j < i ==> Strptime(s, Formats[j]).None?
    {
      var d := Strptime(s, Formats[i]);
      if d.Some? {
        FirstStrptimeAt(s, Formats, i);
        return Some(IsoDate(d.value));
      }
    }
    assert FirstStrptime(s, Formats).None?;
    return None;
  }

  /** The month-name fallback: the first month named in the text, with the first four-digit run as the year. */
  method TryMonthNames(s: string) returns (r: Option<string>)
    ensures r == MonthNameDate(s)
  {
    var sl := Lower(s);
    for m := 0 to 12
      invariant FirstMonthIn(sl, 0) >= m || FirstFourDigits(s).None?
    {
      if Contains(sl, MonthNames[m]) {
        var year := FirstFourDigits(s);
        if year.Some? {
          assert FirstMonthIn(sl, 0) == m;
          return Some(Pad4(year.value) + "-" + Pad2(m + 1) + "-01");
        }
      }
    }
    return None;
  }

  /** When every earlier format fails, the first format that parses is format `i`. */
  lemma {:induction false} FirstStrptimeAt(s: string, fmts: seq<DateFormat>, i: nat)
    requires i < |fmts| && Strptime(s, fmts[i]).Some?
    requires forall j :: 0 <= j < i ==> Strptime(s, fmts[j]).None?
    ensures FirstStrptime(s, fmts) == Strptime(s, fmts[i])
  {
    if i > 0 {
      assert forall j :: 0 <= j < i - 1 ==> fmts[1..][j] == fmts[j + 1];
      FirstStrptimeAt(s, fmts[1..], i - 1);
    }
  }

  /** Two digits read back as the number they pad. */
  lemma DigitsValuePad2(n: nat)
    requires n < 100
    ensures DigitsValue(Pad2(n)) == n
  {
    DigitsValueShort(Pad2(n));
  }

  /** The value of digits followed by two more digits. */
  lemma DigitsValueAppend2(a: string, b: string)
    requires AllDigits(a) && AllDigits(b) && |b| == 2
    ensures AllDigits(a + b)
    ensures DigitsValue(a + b) == DigitsValue(a) * 100 + DigitsValue(b)
  {
    var ab := a + b;
    assert ab[..|ab| - 1] == a + b[..1];
    assert (a + b[..1])[..|a|] == a;
    assert b[..1][..0] == [];
    DigitsValueShort(b);
  }

  /** Four digits read back as the number they pad. */
  lemma DigitsValuePad4(n: nat)
    requires n < 10000
    ensures DigitsValue(Pad4(n)) == n
  {
    DigitsValuePad2(n / 100);
    DigitsValuePad2(n % 100);
    DigitsValueAppend2(Pad2(n / 100), Pad2(n % 100));
  }

  lemma DayFieldPad2(d: nat)
    requires 1 <= d <= 31
    ensures DayField(Pad2(d)) == Some(d)
  {
    DigitsValuePad2(d);
  }

  lemma MonthFieldPad2(m: nat)
    requires 1 <= m <= 12
    ensures MonthField(Pad2(m)) == Some(m)
  {
    DigitsValuePad2(m);
  }

  lemma YearFieldPad4(y: nat)
    requires y < 10000
    ensures YearField(Pad4(y)) == Some(y)
  {
    DigitsValuePad4(y);
  }

  /** Three digit fields joined by `sep` split back into the three fields. */
  lemma SplitThree(a: string, b: string, c: string, sep: char)
    requires AllDigits(a) && AllDigits(b) && AllDigits(c) && !IsDigit(sep)
    ensures Split(a + [sep] + b + [sep] + c, sep) == [a, b, c]
  {
    assert sep !in a && sep !in b && sep !in c;
    SplitNoSeparator(c, sep);
    SplitAtSeparator(b, sep, c);
    assert a + [sep] + b + [sep] + c == a + [sep] + (b + [sep] + c);
    SplitAtSeparator(a, sep, b + [sep] + c);
  }

  /** A valid date written day first with dashes, `DD-MM-YYYY`. */
  function DayFirstText(d: Date): string
    requires ValidDate(d)
  {
    Pad2(d.day) + "-" + Pad2(d.month) + "-" + Pad4(d.year)
  }

  lemma StrptimeDayFirst(d: Date)
    requires ValidDate(d)
    ensures Strptime(DayFirstText(d), DayFirst('-')) == Some(d)
  {
    SplitThree(Pad2(d.day), Pad2(d.month), Pad4(d.year), '-');
    assert DayFirstText(d) == Pad2(d.day) + ['-'] + Pad2(d.month) + ['-'] + Pad4(d.year);
    DayFieldPad2(d.day);
    MonthFieldPad2(d.month);
    YearFieldPad4(d.year);
  }

  lemma DayFirstTextPlain(d: Date)
    requires ValidDate(d)
    ensures Strip(DayFirstText(d)) == DayFirstText(d)
  {
    var t := DayFirstText(d);
    assert t[0] == Pad2(d.day)[0] && t[|t| - 1] == Pad4(d.year)[3];
    StripNoSpace(t);
  }

  /** A date written `DD-MM-YYYY` is read as that date, in ISO form. */
  lemma ParseDateDayFirst(d: Date)
    requires ValidDate(d)
    ensures ParseDateSpec(Some(DayFirstText(d))) == Some(IsoDate(d))
  {
    DayFirstTextPlain(d);
    ParseDateTextDayFirst(d);
  }

  lemma ParseDateTextDayFirst(d: Date)
    requires ValidDate(d)
    ensures ParseDateText(DayFirstText(d)) == Some(IsoDate(d))
  {
    var t := DayFirstText(d);
    assert !IsDateNullToken(t) by {
      assert |t| == 10;
    }
    StrptimeDayFirst(d);
    assert Formats[0] == DayFirst('-');
    FirstStrptimeAt(t, Formats, 0);
  }

  lemma StrptimeIso(d: Date)
    requires ValidDate(d)
    ensures Strptime(IsoDate(d), DayFirst('-')).None?
    ensures Strptime(IsoDate(d), DayFirst('/')).None?
    ensures Strptime(IsoDate(d), YearFirst('-')) == Some(d)
  {
    var t := IsoDate(d);
    SplitThree(Pad4(d.year), Pad2(d.month), Pad2(d.day), '-');
    assert t == Pad4(d.year) + ['-'] + Pad2(d.month) + ['-'] + Pad2(d.day);
    assert '/' !in t by {
      assert forall i :: 0 <= i < |t| ==> IsDigit(t[i]) || t[i] == '-';
    }
    SplitNoSeparator(t, '/');
    DayFieldPad2(d.day);
    MonthFieldPad2(d.month);
    YearFieldPad4(d.year);
  }

  lemma IsoDatePlain(d: Date)
    requires ValidDate(d)
    ensures Strip(IsoDate(d)) == IsoDate(d)
  {
    var t := IsoDate(d);
    assert t[0] == Pad4(d.year)[0] && t[|t| - 1] == Pad2(d.day)[1];
    StripNoSpace(t);
  }

  /** The parser is idempotent on its own output: an ISO date reads back as itself. */
  lemma ParseDateIso(d: Date)
    requires ValidDate(d)
    ensures ParseDateSpec(Some(IsoDate(d))) == Some(IsoDate(d))
  {
    IsoDatePlain(d);
    ParseDateTextIso(d);
  }

  lemma ParseDateTextIso(d: Date)
    requires ValidDate(d)
    ensures ParseDateText(IsoDate(d)) == Some(IsoDate(d))
  {
    var t := IsoDate(d);
    assert !IsDateNullToken(t) by {
      assert |t| == 10;
    }
    StrptimeIso(d);
    assert Formats[0] == DayFirst('-') && Formats[1] == DayFirst('/') && Formats[2] == YearFirst('-');
    FirstStrptimeAt(t, Formats, 2);
  }

  // ---------------------------------------------------------------------------
  // Coordinates
  // ---------------------------------------------------------------------------

  /** The divisors tried, in order: 1, 10, ..., 100000. */
  const Divisors: seq<real> := [1.0, 10.0, 100.0, 1000.0, 10000.0, 100000.0]

  /** The box a Chilean coordinate pair must fall in: latitude -60..-15, longitude -80..-60. */
  predicate InChileBox(lat: real, lon: real) {
    -60.0 <= lat <= -15.0 && -80.0 <= lon <= -60.0
  }

  /** Whether dividing both values by divisor `j` lands in the box. */
  predicate FitsAt(lat: real, lon: real, j: nat)
    requires j < |Divisors|
  {
    InChileBox(lat / Divisors[j], lon / Divisors[j])
  }

  /** The first divisor index from `k` on at which the pair fits, or 6 when none does. */
  function FirstFit(lat: real, lon: real, k: nat): (j: nat)
    requires k <= |Divisors|
    ensures k <= j <= |Divisors|
    ensures j < |Divisors| ==> FitsAt(lat, lon, j)
    ensures forall i :: k <= i < j ==> !FitsAt(lat, lon, i)
    decreases |Divisors| - k
  {
    if k == |Divisors| then k
    else if FitsAt(lat, lon, k) then k
    else FirstFit(lat, lon, k + 1)
  }

  /**
   * `fix_coordinates` on parsed values: the first divisor that puts the pair in
   * the box, else the first that puts the swapped pair in it, else nothing.
   * The rounding to six decimals is not modelled.
   */
  function FixValues(lat: real, lon: real): (r: Option<(real, real)>)
    ensures r.Some? ==> InChileBox(r.value.0, r.value.1)
  {
    var j := FirstFit(lat, lon, 0);
    if j < |Divisors| then Some((lat / Divisors[j], lon / Divisors[j]))
    else
      var k := FirstFit(lon, lat, 0);
      if k < |Divisors| then Some((lon / Divisors[k], lat / Divisors[k]))
      else None
  }

  /** `fix_coordinates` on the two cells: `None` stands for `(None, None)`. */
  function FixCoordinatesSpec(latRaw: Cell, lonRaw: Cell): (r: Option<(real, real)>)
    ensures r.Some? ==> InChileBox(r.value.0, r.value.1)
    ensures ParseChileanNumber(latRaw).None? || ParseChileanNumber(lonRaw).None? ==> r.None?
  {
    match (ParseChileanNumber(latRaw), ParseChileanNumber(lonRaw))
    case (Some(lat), Some(lon)) => FixValues(lat, lon)
    case _ => None
  }

  /** `fix_coordinates`: parse both cells, then sweep the divisors. */
  method FixCoordinates(latRaw: Cell, lonRaw: Cell) returns (r: Option<(real, real)>)
    ensures r == FixCoordinatesSpec(latRaw, lonRaw)
  {
    var lat := ParseChileanNumber(latRaw);
    var lon := ParseChileanNumber(lonRaw);
    if lat.None? || lon.None? {
      return None;
    }
    r := SweepDivisors(lat.value, lon.value);
  }

  /** The two divisor sweeps of `fix_coordinates`, unswapped first. */
  method SweepDivisors(lat: real, lon: real) returns (r: Option<(real, real)>)
    ensures r == FixValues(lat, lon)
  {
    r := Sweep(lat, lon);
    if r.None? {
      r := Sweep(lon, lat);
    }
  }

  /** One sweep: the pair divided by the first divisor that puts it in the box, if any. */
  method Sweep(lat: real, lon: real) returns (r: Option<(real, real)>)
    ensures var j := FirstFit(lat, lon, 0); j < |Divisors| ==> r == Some((lat / Divisors[j], lon / Divisors[j]))
    ensures FirstFit(lat, lon, 0) == |Divisors| ==> r.None?
  {
    for i := 0 to |Divisors|
      invariant forall j :: 0 <= j < i ==> !FitsAt(lat, lon, j)
    {
      var testLat := lat / Divisors[i];
      var testLon := lon / Divisors[i];
      if -60.0 <= testLat <= -15.0 && -80.0 <= testLon <= -60.0 {
        assert FirstFit(lat, lon, 0) == i;
        return Some((testLat, testLon));
      }
    }
    assert FirstFit(lat, lon, 0) == |Divisors|;
    return None;
  }

  /** A pair already in the box is returned undivided. */
  lemma FixValuesInBox(lat: real, lon: real)
    requires InChileBox(lat, lon)
    ensures FixValues(lat, lon) == Some((lat, lon))
  {
    assert FitsAt(lat, lon, 0);
  }

  /** Scaling a pair in the box up by `10^k` loses no information: the sweep recovers it. */
  lemma FixValuesScaled(lat: real, lon: real, k: nat)
    requires InChileBox(lat, lon) && k < |Divisors|
    ensures FixValues(lat * Divisors[k], lon * Divisors[k]) == Some((lat, lon))
  {
    var a, b := lat * Divisors[k], lon * Divisors[k];
    assert a / Divisors[k] == lat && b / Divisors[k] == lon;
    forall i | 0 <= i < k
      ensures !FitsAt(a, b, i)
    {
      ScaledTooLarge(lat, k, i);
    }
    assert FirstFit(a, b, 0) == k;
  }

  /** A swapped pair, in the box once swapped back and scaled by `10^k`, is swapped back. */
  lemma FixValuesSwapped(lat: real, lon: real, k: nat)
    requires InChileBox(lat, lon) && k < |Divisors|
    ensures FixValues(lon * Divisors[k], lat * Divisors[k]) == Some((lat, lon))
  {
    var a, b := lon * Divisors[k], lat * Divisors[k];
    if FirstFit(a, b, 0) < |Divisors| {
      SwappedFitsUnswapped(lat, lon, k);
    } else {
      SwappedFitsSwapped(lat, lon, k);
    }
  }

  /** The unswapped sweep fits a swapped pair only when both values are -60, and then the pair is its own swap. */
  lemma SwappedFitsUnswapped(lat: real, lon: real, k: nat)
    requires InChileBox(lat, lon) && k < |Divisors|
    requires FirstFit(lon * Divisors[k], lat * Divisors[k], 0) < |Divisors|
    ensures FixValues(lon * Divisors[k], lat * Divisors[k]) == Some((lat, lon))
  {
    var a, b := lon * Divisors[k], lat * Divisors[k];
    var j := FirstFit(a, b, 0);
    SwappedFitsOnlyAt(lat, lon, k, a, b);
    assert j == k;
    ScaledBack(lon, k);
    ScaledBack(lat, k);
    assert lat == -60.0 && lon == -60.0;
  }

  lemma ScaledBack(x: real, k: nat)
    requires k < |Divisors|
    ensures x * Divisors[k] / Divisors[k] == x
  {
  }

  /** A swapped pair scaled by `10^k` can only fit (unswapped) at divisor `k`. */
  lemma SwappedFitsOnlyAt(lat: real, lon: real, k: nat, a: real, b: real)
    requires InChileBox(lat, lon) && k < |Divisors|
    requires a == lon * Divisors[k] && b == lat * Divisors[k]
    ensures forall j :: 0 <= j < |Divisors| && j != k ==> !FitsAt(a, b, j)
  {
    forall j | 0 <= j < |Divisors| && j != k
      ensures !FitsAt(a, b, j)
    {
      if j < k {
        ScaledTooLarge(lon, k, j);
      } else {
        ScaledTooSmall(lat, k, j);
      }
    }
  }

  /** Otherwise the swapped sweep first fits at the divisor the pair was scaled by. */
  lemma SwappedFitsSwapped(lat: real, lon: real, k: nat)
    requires InChileBox(lat, lon) && k < |Divisors|
    requires FirstFit(lon * Divisors[k], lat * Divisors[k], 0) == |Divisors|
    ensures FixValues(lon * Divisors[k], lat * Divisors[k]) == Some((lat, lon))
  {
    var a, b := lon * Divisors[k], lat * Divisors[k];
    ScaledBack(lon, k);
    ScaledBack(lat, k);
    assert FitsAt(b, a, k);
    forall i | 0 <= i < k
      ensures !FitsAt(b, a, i)
    {
      ScaledTooLarge(lat, k, i);
    }
    var j := FirstFit(b, a, 0);
    assert j == k;
  }

  /** Dividing by a smaller divisor than the one a value was scaled by leaves it at least ten times as large. */
  lemma ScaledTooLarge(x: real, k: nat, i: nat)
    requires i < k < |Divisors| && x <= -15.0
    ensures x * Divisors[k] / Divisors[i] <= -150.0
  {
    var q := Divisors[k] / Divisors[i];
    assert q >= 10.0 by {
      assert Divisors[k] >= 10.0 * Divisors[i];
    }
    assert x * Divisors[k] / Divisors[i] == x * q;
  }

  /** Dividing by a larger divisor leaves a value in -80..-15 at most a tenth as large. */
  lemma ScaledTooSmall(x: real, k: nat, j: nat)
    requires k < j < |Divisors| && -80.0 <= x <= -15.0
    ensures -8.0 <= x * Divisors[k] / Divisors[j] <= 0.0
  {
    var q := Divisors[k] / Divisors[j];
    assert 0.0 < q <= 0.1 by {
      assert 10.0 * Divisors[k] <= Divisors[j];
    }
    assert x * Divisors[k] / Divisors[j] == x * q;
  }

  /** `"-33.4565"` and `"-70.6600"` lose their decimal points to the thousands rule; the sweep puts them back. */
  lemma FixValuesExample()
    ensures FixValues(-334565.0, -706600.0) == Some((-33.4565, -70.66))
  {
    FixValuesScaled(-33.4565, -70.66, 4);
  }

  /** With different numbers of decimals no common divisor fits, and the pair is dropped. */
  lemma FixValuesMixedDecimals()
    ensures FixValues(-334565.0, -7066.0) == None
  {
    assert forall i :: 0 <= i < |Divisors| ==> !FitsAt(-334565.0, -7066.0, i) && !FitsAt(-7066.0, -334565.0, i);
  }
}
