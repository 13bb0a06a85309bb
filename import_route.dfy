/**
 * The admin upload endpoint of the web front end, `POST /api/admin/import-tinsa`
 * (frontend/src/app/api/admin/import-tinsa/route.ts): a TINSA CSV file is
 * split into lines and fields by hand, its rows are grouped per project
 * (`PROYECTO` and `COMUNA_INCOIN`), and each group becomes one project row
 * (created or updated) and one typology row per line.
 *
 * Numbers are JavaScript doubles, modelled as reals; a row is a JavaScript
 * object from column to text, in which a column the header lacks is
 * `undefined` (`None`).
 */
module ImportRoute {
  import opened Wrappers
  import opened Text
  import opened Numeric
  import opened Collections
  import opened Storage

  // ---------------------------------------------------------------------------
  // parseChileanNumber
  // ---------------------------------------------------------------------------

  /** The text `parseFloat` reads: quotes removed, trimmed, every dot removed, the first comma made a point. */
  function Normalized(value: string): string {
    Repointed(Cleaned(value))
  }

  /** `value.replace(/"/g, '').trim()`. */
  function Cleaned(value: string): string {
    Strip(DeleteChar(value, '"'))
  }

  /** `.replace(/\./g, '').replace(',', '.')`. */
  function Repointed(cleaned: string): string {
    ReplaceFirstChar(DeleteChar(cleaned, '.'), ',', '.')
  }

  /** `parseChileanNumber`: blank text is 0, and so is text `parseFloat` cannot read. */
  function ParseChileanNumber(value: string): (r: real)
    ensures IsBlank(value) ==> r == 0.0
  {
    if IsBlank(value) then 0.0
    else match JsParseFloat(Normalized(value))
         case None => 0.0
         case Some(x) => x
  }

  /** Digits, dots and commas only. */
  predicate NumberText(s: string) {
    forall i :: 0 <= i < |s| ==> IsDigit(s[i]) || s[i] == '.' || s[i] == ','
  }

  lemma NumberTextAppend(a: string, b: string)
    requires NumberText(a) && NumberText(b)
    ensures NumberText(a + b)
  {
    assert forall i :: 0 <= i < |a + b| ==> (a + b)[i] == if i < |a| then a[i] else b[i - |a|];
  }

  /** Text made of digits, dots and commas has no quotes to remove and no space to trim. */
  lemma CleanedNumberText(s: string)
    requires s != [] && NumberText(s)
    ensures Cleaned(s) == s
  {
    assert '"' !in s;
    DeleteAbsentChar(s, '"');
    assert !IsSpace(s[0]) && !IsSpace(s[|s| - 1]);
    StripNoSpace(s);
  }

  /** Removing the dots of `w + t` when `t` has none. */
  lemma DeleteDotsPrefix(w: string, t: string)
    requires DigitsAndDots(w) && '.' !in t
    ensures DeleteChar(w + t, '.') == Undotted(w) + t
  {
    DeleteAbsentChar(t, '.');
    DeleteCharAppend(w, t, '.');
  }

  /** The first comma of `u,t`, `u` without commas, is the one after `u`. */
  lemma ReplaceFirstComma(u: string, t: string)
    requires ',' !in u
    ensures ReplaceFirstChar(u + "," + t, ',', '.') == u + "." + t
  {
    var d := u + "," + t;
    assert d[|u|] == ',';
    assert forall k :: 0 <= k < |u| ==> d[k] == u[k];
    assert IndexOf(d, ',') == |u|;
    assert d[..|u|] == u && d[|u| + 1..] == t;
  }

  /** The normalized text of `w,t`: the digits of `w`, a point, then `t` (which has no dots). */
  lemma NormalizedDecimal(w: string, t: string)
    requires DigitsAndDots(w) && w != [] && NumberText(t) && '.' !in t
    ensures Normalized(w + "," + t) == Undotted(w) + "." + t
  {
    var s := w + "," + t;
    assert NumberText(w) by {
      assert forall i :: 0 <= i < |w| ==> IsDigit(w[i]) || w[i] == '.';
    }
    NumberTextAppend(w, ",");
    NumberTextAppend(w + ",", t);
    CleanedNumberText(s);
    RepointedDecimal(w, t);
  }

  lemma RepointedDecimal(w: string, t: string)
    requires DigitsAndDots(w) && '.' !in t
    ensures Repointed(w + "," + t) == Undotted(w) + "." + t
  {
    assert w + "," + t == w + ("," + t);
    DeleteDotsPrefix(w, "," + t);
    assert Undotted(w) + ("," + t) == Undotted(w) + "," + t;
    ReplaceFirstComma(Undotted(w), t);
  }

  lemma DecimalNotBlank(w: string, f: string)
    requires w != []
    ensures !IsBlank(w + "," + f)
  {
    var s := w + "," + f;
    assert s[|w|] == ',';
    if Strip(s) == [] {
      StripEmptyAllSpace(s);
    }
  }

  /** The parse of text that is not blank reads its normalized form. */
  lemma ParseNotBlank(v: string, x: real)
    requires !IsBlank(v) && JsParseFloat(Normalized(v)) == Some(x)
    ensures ParseChileanNumber(v) == x
  {
  }

  /** `parseFloat` of `u.f` and of `u.f,g`, digits `u`, `f` and `g`, is the value of `u.f`. */
  lemma ParsePoint(u: string, f: string, g: string)
    requires AllDigits(u) && u != [] && AllDigits(f) && (g == [] || g[0] == ',')
    ensures JsParseFloat(u + "." + (f + g)) == Some(DigitsValue(u + f) as real / Pow10(|f|) as real)
  {
    var t := u + "." + (f + g);
    var n := |u| + 1 + |f|;
    assert t[..n] == u + "." + f;
    assert n < |t| ==> t[n] == ',';
    SignedDecimalOfPointNumber(u, f);
    assert t[0] == u[0];
    JsParseFloatPrefix(t, n);
  }

  /**
   * A Chilean number: digits grouped by dots, a comma and decimals, as in
   * `"1.234,56"`, which is 1234.56.
   */
  lemma ChileanDecimal(w: string, f: string, x: real)
    requires DigitsAndDots(w) && Undotted(w) != [] && AllDigits(f)
    requires x == DigitsValue(Undotted(w) + f) as real / Pow10(|f|) as real
    ensures ParseChileanNumber(w + "," + f) == x
  {
    assert f + "" == f;
    ChileanValue(w, f, f, "", x);
  }

  /** `w,t` reads as the value of `w.f`, where `t` is decimals `f` and possibly a second comma. */
  lemma ChileanValue(w: string, t: string, f: string, g: string, x: real)
    requires DigitsAndDots(w) && Undotted(w) != [] && AllDigits(f) && (g == [] || (g[0] == ',' && NumberText(g) && '.' !in g))
    requires t == f + g
    requires x == DigitsValue(Undotted(w) + f) as real / Pow10(|f|) as real
    ensures ParseChileanNumber(w + "," + t) == x
  {
    NormalizedValue(w, t, f, g, x);
    DecimalNotBlank(w, t);
    ParseNotBlank(w + "," + t, x);
  }

  /** The parse of the normalized text of `w,t`, where `t` is decimals `f` and possibly a second comma. */
  lemma NormalizedValue(w: string, t: string, f: string, g: string, x: real)
    requires DigitsAndDots(w) && Undotted(w) != [] && AllDigits(f) && (g == [] || (g[0] == ',' && NumberText(g) && '.' !in g))
    requires t == f + g
    requires x == DigitsValue(Undotted(w) + f) as real / Pow10(|f|) as real
    ensures JsParseFloat(Normalized(w + "," + t)) == Some(x)
  {
    DecimalsText(f, g);
    NormalizedDecimal(w, t);
    ParsePoint(Undotted(w), f, g);
  }

  /** Digits grouped by dots and no comma, as in `"1234"` or `"1.234"`, read as the integer. */
  lemma ChileanInteger(w: string)
    requires DigitsAndDots(w) && Undotted(w) != []
    ensures ParseChileanNumber(w) == DigitsValue(Undotted(w)) as real
  {
    NormalizedInteger(w);
    DigitsParse(Undotted(w));
    assert !IsBlank(w) by {
      assert w[0] == '.' || IsDigit(w[0]);
      if Strip(w) == [] {
        StripEmptyAllSpace(w);
      }
    }
    ParseNotBlank(w, DigitsValue(Undotted(w)) as real);
  }

  lemma NormalizedInteger(w: string)
    requires DigitsAndDots(w) && Undotted(w) != []
    ensures Normalized(w) == Undotted(w)
  {
    assert NumberText(w) by {
      assert forall i :: 0 <= i < |w| ==> IsDigit(w[i]) || w[i] == '.';
    }
    CleanedNumberText(w);
    assert ',' !in Undotted(w);
  }

  /** `parseFloat` of a digit string is the number it writes. */
  lemma DigitsParse(u: string)
    requires AllDigits(u) && u != []
    ensures JsParseFloat(u) == Some(DigitsValue(u) as real)
  {
    assert u[..|u|] == u;
    SignedDecimalUnsigned(u);
    UnsignedDecimalOfDigits(u);
    JsParseFloatPrefix(u, |u|);
  }

  /**
   * Only the first comma is the decimal point: `parseFloat` stops at a second
   * one, so `"1,5,3"` is 1.5 (the backend parser would reject it).
   */
  lemma ChileanSecondComma(w: string, f: string, g: string, x: real)
    requires DigitsAndDots(w) && Undotted(w) != [] && AllDigits(f) && AllDigits(g)
    requires x == DigitsValue(Undotted(w) + f) as real / Pow10(|f|) as real
    ensures ParseChileanNumber(w + "," + (f + "," + g)) == x
  {
    CommaDigitsText(g);
    var t := f + ("," + g);
    assert f + "," + g == t;
    ChileanValue(w, t, f, "," + g, x);
  }

  lemma DecimalsText(f: string, g: string)
    requires AllDigits(f) && NumberText(g) && '.' !in g
    ensures NumberText(f + g) && '.' !in f + g
  {
    assert forall i :: 0 <= i < |f + g| ==> (f + g)[i] == if i < |f| then f[i] else g[i - |f|];
  }

  lemma CommaDigitsText(g: string)
    requires AllDigits(g)
    ensures NumberText("," + g) && '.' !in "," + g
  {
    assert forall i :: 1 <= i < |"," + g| ==> ("," + g)[i] == g[i - 1];
  }

  /** Text that cannot start a number (a letter, say) reads as 0 rather than as an error. */
  lemma ChileanNotANumber(v: string)
    requires v != [] && !IsSpace(v[0]) && !IsSpace(v[|v| - 1]) && '"' !in v
    requires !IsDigit(v[0]) && v[0] != '+' && v[0] != '-' && v[0] != '.' && v[0] != ','
    ensures ParseChileanNumber(v) == 0.0
  {
    DeleteAbsentChar(v, '"');
    StripNoSpace(v);
    var d := DeleteChar(v, '.');
    assert d == [v[0]] + DeleteChar(v[1..], '.') by {
      assert v == [v[0]] + v[1..];
    }
    var t := ReplaceFirstChar(d, ',', '.');
    assert IndexOf(d, ',') > 0;
    assert t[0] == v[0];
    JsParseFloatNoNumber(t);
    assert !IsBlank(v);
  }

  // ---------------------------------------------------------------------------
  // parseCSVLine
  // ---------------------------------------------------------------------------

  /** The variables of the `parseCSVLine` loop: the finished fields, the field being read, the quote mode. */
  datatype Scan = Scan(values: seq<string>, current: string, inQuotes: bool)

  const StartScan := Scan([], "", false)

  /** One iteration: a quote toggles the mode, a comma outside quotes ends the (trimmed) field, anything else is kept. */
  function ScanChar(st: Scan, c: char): Scan {
    if c == '"' then st.(inQuotes := !st.inQuotes)
    else if c == ',' && !st.inQuotes then Scan(st.values + [Strip(st.current)], "", st.inQuotes)
    else st.(current := st.current + [c])
  }

  /** The loop over the characters of `s`, from state `st`. */
  function ScanFrom(st: Scan, s: string): Scan {
    if s == [] then st else ScanChar(ScanFrom(st, s[..|s| - 1]), s[|s| - 1])
  }

  /** The fields of a line: the finished ones and the last, trimmed. */
  function CsvFields(line: string): (r: seq<string>)
    ensures |r| >= 1
  {
    var st := ScanFrom(StartScan, line);
    st.values + [Strip(st.current)]
  }

  /** `parseCSVLine`. */
  method ParseCsvLine(line: string) returns (values: seq<string>)
    ensures values == CsvFields(line)
  {
    values := [];
    var current := "";
    var inQuotes := false;
    for i := 0 to |line|
      invariant Scan(values, current, inQuotes) == ScanFrom(StartScan, line[..i])
    {
      assert line[..i + 1][..i] == line[..i];
      var c := line[i];
      if c == '"' {
        inQuotes := !inQuotes;
      } else if c == ',' && !inQuotes {
        values := values + [Strip(current)];
        current := "";
      } else {
        current := current + [c];
      }
    }
    assert line[..|line|] == line;
    values := values + [Strip(current)];
  }

  /** The scan of a concatenation is the scan of the second part from where the first one ends. */
  lemma {:induction false} ScanFromAppend(st: Scan, a: string, b: string)
    ensures ScanFrom(st, a + b) == ScanFrom(ScanFrom(st, a), b)
    decreases |b|
  {
    if b == [] {
      assert a + b == a;
    } else {
      assert (a + b)[..|a + b| - 1] == a + b[..|b| - 1];
      ScanFromAppend(st, a, b[..|b| - 1]);
    }
  }

  /** The quote mode after a prefix is the parity of the quotes in it. */
  lemma {:induction false} ScanQuotes(s: string)
    ensures ScanFrom(StartScan, s).inQuotes <==> CountChar(s, '"') % 2 == 1
  {
    if s != [] {
      var init := s[..|s| - 1];
      var c := s[|s| - 1];
      assert s == init + [c];
      ScanQuotes(init);
      CountCharSnoc(init, c, '"');
      var st := ScanFrom(StartScan, init);
      assert ScanFrom(StartScan, s).inQuotes == (if c == '"' then !st.inQuotes else st.inQuotes);
      ParityStep(CountChar(init, '"'), c == '"');
    }
  }

  /** Adding one flips the parity; adding nothing keeps it. */
  lemma ParityStep(n: nat, b: bool)
    ensures ((n + if b then 1 else 0) % 2 == 1) <==> (b != (n % 2 == 1))
  {
  }

  /** The number of commas that are outside quotes. */
  function UnquotedCommas(s: string): nat {
    if s == [] then 0
    else
      var init := s[..|s| - 1];
      UnquotedCommas(init) + if s[|s| - 1] == ',' && CountChar(init, '"') % 2 == 0 then 1 else 0
  }

  /** Each comma outside quotes ends a field. */
  lemma {:induction false} ScanValues(s: string)
    ensures |ScanFrom(StartScan, s).values| == UnquotedCommas(s)
  {
    if s != [] {
      var init := s[..|s| - 1];
      ScanValues(init);
      ScanQuotes(init);
    }
  }

  /** A line has one field more than it has commas outside quotes. */
  lemma FieldCount(line: string)
    ensures |CsvFields(line)| == UnquotedCommas(line) + 1
  {
    ScanValues(line);
  }

  /** Quote characters never reach a field. */
  lemma {:induction false} ScanDropsQuotes(s: string)
    ensures forall i :: 0 <= i < |ScanFrom(StartScan, s).values| ==> '"' !in ScanFrom(StartScan, s).values[i]
    ensures '"' !in ScanFrom(StartScan, s).current
  {
    if s != [] {
      var init := s[..|s| - 1];
      ScanDropsQuotes(init);
      var st := ScanFrom(StartScan, init);
      assert ScanFrom(StartScan, s) == ScanChar(st, s[|s| - 1]);
      ScanCharKeepsNoQuotes(st, s[|s| - 1]);
    }
  }

  /** One character of the scan adds no quote to the fields. */
  lemma ScanCharKeepsNoQuotes(st: Scan, c: char)
    requires forall i :: 0 <= i < |st.values| ==> '"' !in st.values[i]
    requires '"' !in st.current
    ensures forall i :: 0 <= i < |ScanChar(st, c).values| ==> '"' !in ScanChar(st, c).values[i]
    ensures '"' !in ScanChar(st, c).current
  {
    if c == ',' && !st.inQuotes {
      NoQuoteFields(st.values, st.current);
    }
  }

  lemma FieldsHaveNoQuotes(line: string)
    ensures forall i :: 0 <= i < |CsvFields(line)| ==> '"' !in CsvFields(line)[i]
  {
    ScanDropsQuotes(line);
    var st := ScanFrom(StartScan, line);
    NoQuoteFields(st.values, st.current);
  }

  lemma NoQuoteFields(values: seq<string>, current: string)
    requires forall i :: 0 <= i < |values| ==> '"' !in values[i]
    requires '"' !in current
    ensures forall i :: 0 <= i < |values + [Strip(current)]| ==> '"' !in (values + [Strip(current)])[i]
  {
    StripChars(current);
    var fs := values + [Strip(current)];
    forall i | 0 <= i < |fs|
      ensures '"' !in fs[i]
    {
      if i < |values| {
        assert fs[i] == values[i];
      }
    }
  }

  /** Text without quotes and commas only grows the current field. */
  lemma {:induction false} ScanPlain(st: Scan, s: string)
    requires '"' !in s && (!st.inQuotes ==> ',' !in s)
    ensures ScanFrom(st, s) == st.(current := st.current + s)
    decreases |s|
  {
    if s != [] {
      var init := s[..|s| - 1];
      ScanPlain(st, init);
      assert st.current + init + [s[|s| - 1]] == st.current + s;
    } else {
      assert st.current + s == st.current;
    }
  }

  /** A comma then an opening quote ends the current field and enters quote mode. */
  lemma OpenQuote(st: Scan)
    requires !st.inQuotes
    ensures ScanFrom(st, ",\"") == Scan(st.values + [Strip(st.current)], "", true)
  {
    assert ScanFrom(st, ",") == ScanChar(st, ',') by {
      assert ","[..0] == [];
    }
    assert ",\""[..1] == ",";
  }

  /** A closing quote then a comma leaves quote mode and ends the current field. */
  lemma CloseQuote(st: Scan)
    requires st.inQuotes
    ensures ScanFrom(st, "\",") == Scan(st.values + [Strip(st.current)], "", false)
  {
    assert ScanFrom(st, "\"") == ScanChar(st, '"') by {
      assert "\""[..0] == [];
    }
    assert "\","[..1] == "\"";
  }

  /** The scan of `a,"q",b` up to its end. */
  lemma QuotedScan(a: string, q: string, b: string)
    requires '"' !in a && ',' !in a && '"' !in q && '"' !in b && ',' !in b
    ensures ScanFrom(StartScan, a + ",\"" + q + "\"," + b) == Scan([Strip(a), Strip(q)], b, false)
  {
    var st := Scan([Strip(a), Strip(q)], "", false);
    QuotedClose(a, q);
    ScanPlain(st, b);
    assert "" + b == b;
    ScanStep(a + ",\"" + q + "\",", b, st, Scan([Strip(a), Strip(q)], b, false));
  }

  /** The scan of `a,"q",`: two fields finished, outside quotes. */
  lemma QuotedClose(a: string, q: string)
    requires '"' !in a && ',' !in a && '"' !in q
    ensures ScanFrom(StartScan, a + ",\"" + q + "\",") == Scan([Strip(a), Strip(q)], "", false)
  {
    QuotedPrefix(a, q);
    CloseQuote(Scan([Strip(a)], q, true));
    ScanStep(a + ",\"" + q, "\",", Scan([Strip(a)], q, true), Scan([Strip(a), Strip(q)], "", false));
  }

  /** The scan of `a,"q`: one field finished, `q` being read inside quotes. */
  lemma QuotedPrefix(a: string, q: string)
    requires '"' !in a && ',' !in a && '"' !in q
    ensures ScanFrom(StartScan, a + ",\"" + q) == Scan([Strip(a)], q, true)
  {
    var st := Scan([Strip(a)], "", true);
    OpenPrefix(a);
    ScanPlain(st, q);
    assert "" + q == q;
    ScanStep(a + ",\"", q, st, Scan([Strip(a)], q, true));
  }

  /** The scan of `a,"`. */
  lemma OpenPrefix(a: string)
    requires '"' !in a && ',' !in a
    ensures ScanFrom(StartScan, a + ",\"") == Scan([Strip(a)], "", true)
  {
    ScanPlain(StartScan, a);
    assert StartScan.current + a == a;
    OpenQuote(Scan([], a, false));
    ScanStep(a, ",\"", Scan([], a, false), Scan([Strip(a)], "", true));
  }

  /** Scanning `p` then `s`. */
  lemma ScanStep(p: string, s: string, st: Scan, st': Scan)
    requires ScanFrom(StartScan, p) == st && ScanFrom(st, s) == st'
    ensures ScanFrom(StartScan, p + s) == st'
  {
    ScanFromAppend(StartScan, p, s);
  }

  /**
   * A comma inside quotes does not split: `a,"q",b` is the three fields `a`,
   * `q` and `b` (trimmed), whatever commas `q` holds.
   */
  lemma QuotedComma(a: string, q: string, b: string)
    requires '"' !in a && ',' !in a && '"' !in q && '"' !in b && ',' !in b
    ensures CsvFields(a + ",\"" + q + "\"," + b) == [Strip(a), Strip(q), Strip(b)]
  {
    QuotedScan(a, q, b);
  }

  // ---------------------------------------------------------------------------
  // Lines and header
  // ---------------------------------------------------------------------------

  /** `content.split('\n').filter(line => line.trim())`. */
  function Lines(content: string): (r: seq<string>)
    ensures forall i :: 0 <= i < |r| ==> !IsBlank(r[i])
  {
    Filter(Split(content, '\n'), (l: string) => !IsBlank(l))
  }

  /** The header: a plain split on every comma, each name trimmed and stripped of quotes. */
  function HeaderNames(line: string): (r: seq<string>)
    ensures |r| == CountChar(line, ',') + 1
    ensures forall i :: 0 <= i < |r| ==> '"' !in r[i] && ',' !in r[i]
  {
    var parts := Split(line, ',');
    seq(|parts|, i requires 0 <= i < |parts| => HeaderName(parts[i]))
  }

  function HeaderName(h: string): (r: string)
    ensures '"' !in r && forall c :: c in r ==> c in h
  {
    StripChars(h);
    DeleteChar(Strip(h), '"')
  }

  // ---------------------------------------------------------------------------
  // Rows and project groups
  // ---------------------------------------------------------------------------

  /** A data row: header name to text (`Record<string, string>`). */
  type CsvRow = map<string, string>

  /** `values[idx] || ''`: a missing field is the empty text. */
  function Cell(values: seq<string>, idx: nat): string {
    if idx < |values| then values[idx] else ""
  }

  /** Position `i` holds the last occurrence of its name in the header. */
  predicate LastOccurrence(header: seq<string>, i: nat)
    requires i < |header|
  {
    forall j :: i < j < |header| ==> header[j] != header[i]
  }

  /**
   * `header.forEach((col, idx) => { row[col] = values[idx] || '' })`: every
   * header name is a column, and a repeated name keeps the field of its last
   * occurrence.
   */
  function RowOf(header: seq<string>, values: seq<string>): CsvRow
    decreases |header|
  {
    if header == [] then map[]
    else RowOf(header[..|header| - 1], values)[header[|header| - 1] := Cell(values, |header| - 1)]
  }

  /** The columns of a row are the header names. */
  lemma {:induction false} RowOfColumns(header: seq<string>, values: seq<string>)
    ensures forall c :: c in RowOf(header, values) <==> c in header
    decreases |header|
  {
    if header != [] {
      var n := |header| - 1;
      var init := header[..n];
      RowOfColumns(init, values);
      assert forall c :: c in header <==> c in init || c == header[n];
    }
  }

  /** A name that occurs once in the header, or last, holds the field at its position. */
  lemma {:induction false} RowOfCell(header: seq<string>, values: seq<string>, i: nat)
    requires i < |header| && LastOccurrence(header, i)
    ensures header[i] in RowOf(header, values) && RowOf(header, values)[header[i]] == Cell(values, i)
    decreases |header|
  {
    var n := |header| - 1;
    if i < n {
      var init := header[..n];
      assert init[i] == header[i];
      assert LastOccurrence(init, i);
      RowOfCell(init, values, i);
    }
  }

  /** The `forEach` that fills a row. */
  method BuildRow(header: seq<string>, values: seq<string>) returns (row: CsvRow)
    ensures row == RowOf(header, values)
  {
    row := map[];
    for idx := 0 to |header|
      invariant row == RowOf(header[..idx], values)
    {
      assert header[..idx + 1][..idx] == header[..idx];
      row := row[header[idx] := Cell(values, idx)];
    }
    assert header[..|header|] == header;
  }

  /** A column of a row, `undefined` (`None`) when the header lacks it. */
  function Get(row: CsvRow, c: string): Option<string> {
    if c in row then Some(row[c]) else None
  }

  /** A template literal renders a missing value as `undefined`. */
  function Interpolated(v: Option<string>): string {
    if v.Some? then v.value else "undefined"
  }

  /** `` `${row['PROYECTO']}_${row['COMUNA_INCOIN']}`.trim() ``. */
  function RowKey(row: CsvRow): string {
    Strip(Interpolated(Get(row, "PROYECTO")) + "_" + Interpolated(Get(row, "COMUNA_INCOIN")))
  }

  /** The key of a row whose name and commune have no space at their outer ends is `name_commune`. */
  lemma RowKeyOf(row: CsvRow, name: string, commune: string)
    requires Get(row, "PROYECTO") == Some(name) && Get(row, "COMUNA_INCOIN") == Some(commune)
    requires name == [] || !IsSpace(name[0])
    requires commune == [] || !IsSpace(commune[|commune| - 1])
    ensures RowKey(row) == name + "_" + commune
  {
    var k := name + "_" + commune;
    assert k[0] == if name == [] then '_' else name[0];
    assert k[|k| - 1] == if commune == [] then '_' else commune[|commune| - 1];
    StripNoSpace(k);
  }

  /** The row a data line becomes. */
  function LineRow(header: seq<string>, line: string): CsvRow {
    RowOf(header, CsvFields(line))
  }

  /** The rows of the data lines, in order. */
  function DataRows(header: seq<string>, data: seq<string>): (r: seq<CsvRow>)
    ensures |r| == |data|
  {
    MapSeq(data, (line: string) => LineRow(header, line))
  }

  /**
   * The loop over the data lines that fills `projectGroups`; `keys` is the
   * order in which `Object.entries` lists the groups (the order of first
   * insertion, since no key is an integer: every key contains `_`).
   */
  method GroupRows(header: seq<string>, data: seq<string>) returns (keys: seq<string>, groups: map<string, seq<CsvRow>>)
    ensures GroupsOf(DataRows(header, data), RowKey, keys, groups)
  {
    keys := [];
    groups := map[];
    for i := 0 to |data|
      invariant GroupsOf(DataRows(header, data[..i]), RowKey, keys, groups)
    {
      var values := ParseCsvLine(data[i]);
      var row := BuildRow(header, values);
      assert row == LineRow(header, data[i]);
      var k := RowKey(row);
      GroupStep(DataRows(header, data[..i]), RowKey, row, keys, groups);
      MapSeqSnoc(data, i, (line: string) => LineRow(header, line));
      if k !in groups {
        keys := keys + [k];
      }
      groups := groups[k := (if k in groups then groups[k] else []) + [row]];
    }
    assert data[..|data|] == data;
  }

  // ---------------------------------------------------------------------------
  // Per-group aggregates
  // ---------------------------------------------------------------------------

  /** `parseChileanNumber(row[c] || '0')`: a missing or empty cell reads as `"0"`. */
  function Num(row: CsvRow, c: string): real {
    ParseChileanNumber(if c in row && row[c] != "" then row[c] else "0")
  }

  /** A missing or empty cell counts as 0. */
  lemma NumEmpty(row: CsvRow, c: string)
    requires c !in row || row[c] == ""
    ensures Num(row, c) == 0.0
  {
    ChileanZero("0");
  }

  lemma ChileanZero(z: string)
    requires z == "0"
    ensures ParseChileanNumber(z) == 0.0
  {
    ZeroDigits(z);
    ChileanInteger(z);
  }

  lemma ZeroDigits(z: string)
    requires |z| == 1 && z[0] == '0'
    ensures DigitsAndDots(z) && Undotted(z) == z && DigitsValue(z) == 0
  {
    assert '.' !in z;
    DeleteAbsentChar(z, '.');
    assert z[..0] == [];
  }

  function Units(row: CsvRow): real { Num(row, "UNIDADES") }
  function Sold(row: CsvRow): real { Num(row, "VENDIDAS") }
  function Price(row: CsvRow): real { Num(row, "PRECIO_UF") }

  /** The sums and the prices a group's `forEach` collects. */
  datatype Totals = Totals(units: real, sold: real, prices: seq<real>)

  function TotalsOf(rows: seq<CsvRow>): Totals {
    Totals(SumOf(rows, Units), SumOf(rows, Sold), PositiveValues(rows, Price))
  }

  /** The `rows.forEach` that sums units and sales and collects the positive prices. */
  method GroupTotals(rows: seq<CsvRow>) returns (t: Totals)
    ensures t == TotalsOf(rows)
  {
    var totalUnits, totalSold, prices := SumRows(rows, Units, Sold, Price);
    t := Totals(totalUnits, totalSold, prices);
  }

  /** The loop of the `forEach`, with the three column readers as parameters. */
  method SumRows<T>(rows: seq<T>, units: T -> real, sold: T -> real, price: T -> real)
      returns (totalUnits: real, totalSold: real, prices: seq<real>)
    ensures totalUnits == SumOf(rows, units) && totalSold == SumOf(rows, sold)
    ensures prices == PositiveValues(rows, price)
  {
    totalUnits, totalSold, prices := 0.0, 0.0, [];
    for i := 0 to |rows|
      invariant totalUnits == SumOf(rows[..i], units)
      invariant totalSold == SumOf(rows[..i], sold)
      invariant prices == PositiveValues(rows[..i], price)
    {
      SumOfPrefixStep(rows, i, units);
      SumOfPrefixStep(rows, i, sold);
      PositiveValuesPrefixStep(rows, i, price);
      totalUnits := totalUnits + units(rows[i]);
      totalSold := totalSold + sold(rows[i]);
      var p := price(rows[i]);
      if p > 0.0 {
        prices := prices + [p];
      }
    }
    assert rows[..|rows|] == rows;
  }

  function Identity(x: real): real { x }

  /** `prices.reduce((a, b) => a + b, 0) / prices.length`, `null` for no prices. */
  function AvgPrice(prices: seq<real>): Option<real> {
    MeanOf(prices, Identity)
  }

  /** The average of positive prices is absent exactly when there are none, and lies between the cheapest and the dearest. */
  lemma AvgPriceBounds(prices: seq<real>)
    requires forall i :: 0 <= i < |prices| ==> prices[i] > 0.0
    ensures AvgPrice(prices).None? <==> prices == []
    ensures prices != [] ==> 0.0 < MinOf(prices, Identity) <= AvgPrice(prices).value <= MaxOf(prices, Identity)
  {
    if prices != [] {
      MeanBetween(prices, Identity);
      var i :| 0 <= i < |prices| && MinOf(prices, Identity) == Identity(prices[i]);
    }
  }

  // ---------------------------------------------------------------------------
  // Project and typology records
  // ---------------------------------------------------------------------------

  /** `firstRow[c]?.trim()`. */
  function Trimmed(row: CsvRow, c: string): Option<string> {
    if c in row then Some(Strip(row[c])) else None
  }

  /** A truthy string: present and not empty. */
  predicate Present(v: Option<string>) {
    v.Some? && v.value != ""
  }

  /** A text column of a JSON body; an `undefined` value is left out of the object. */
  function WithText(f: Fields, c: string, v: Option<string>): Fields {
    if v.Some? then f[c := VStr(v.value)] else f
  }

  function OrNull(v: Option<real>): Value {
    if v.Some? then VReal(v.value) else VNull
  }

  /** The columns the insert and the update of a project both write. */
  function ProjectFigures(developer: Option<string>, region: Option<string>, t: Totals): Fields {
    var figures := map["total_units" := VReal(t.units), "sold_units" := VReal(t.sold),
                       "available_units" := VReal(t.units - t.sold), "avg_price_uf" := OrNull(AvgPrice(t.prices))];
    WithText(WithText(figures, "developer", developer), "region", region)
  }

  /** The record inserted for a new project. */
  function NewProject(name: string, commune: string, developer: Option<string>, region: Option<string>, t: Totals): Fields {
    ProjectFigures(developer, region, t)["name" := VStr(name)]["commune" := VStr(commune)]
  }

  /** The update of an existing project, stamped with the time of the request. */
  function ProjectUpdate(developer: Option<string>, region: Option<string>, t: Totals, now: string): Fields {
    ProjectFigures(developer, region, t)["updated_at" := VStr(now)]
  }

  /** A project's figures: the sums, the units not sold, the average price; developer and region only when the column exists. */
  lemma ProjectFiguresColumns(developer: Option<string>, region: Option<string>, t: Totals)
    ensures var f := ProjectFigures(developer, region, t);
            Column(f, "total_units") == VReal(t.units) && Column(f, "sold_units") == VReal(t.sold) &&
            Column(f, "available_units") == VReal(t.units - t.sold) &&
            Column(f, "avg_price_uf") == OrNull(AvgPrice(t.prices)) &&
            ("developer" in f <==> developer.Some?) && ("region" in f <==> region.Some?)
  {
  }

  /** An update never touches the name or the commune, so an updated project keeps its key. */
  lemma ProjectUpdateKeepsKey(developer: Option<string>, region: Option<string>, t: Totals, now: string)
    ensures "name" !in ProjectUpdate(developer, region, t, now) && "commune" !in ProjectUpdate(developer, region, t, now)
  {
  }

  /** The numbers of a typology line. */
  datatype Typology = Typology(bedrooms: real, bathrooms: real, surface: real, units: real, sold: real, price: real)

  function TypologyOf(row: CsvRow): Typology {
    Typology(Num(row, "DORMITORIOS"), Num(row, "BANOS"), Num(row, "SUPERFICIE_M2"),
             Num(row, "UNIDADES"), Num(row, "VENDIDAS"), Num(row, "PRECIO_UF"))
  }

  /** `bedrooms === 0 && bathrooms === 0`: the line is skipped. */
  predicate Skipped(t: Typology) {
    t.bedrooms == 0.0 && t.bathrooms == 0.0
  }

  function PositiveOrNull(x: real): Value {
    if x > 0.0 then VReal(x) else VNull
  }

  /** `(price > 0 && surface > 0) ? price / surface : null`. */
  function PricePerM2(t: Typology): Value {
    if t.price > 0.0 && t.surface > 0.0 then VReal(t.price / t.surface) else VNull
  }

  /** The price per square metre is given exactly when price and surface are positive, and then is their ratio. */
  lemma PricePerM2Meaning(t: Typology)
    ensures PricePerM2(t) != VNull <==> t.price > 0.0 && t.surface > 0.0
    ensures PricePerM2(t) != VNull ==> PricePerM2(t).r * t.surface == t.price
  {
  }

  /** The conflict target of the typology upsert. */
  const TypologyKey: seq<string> := ["project_id", "bedrooms", "bathrooms"]

  /** The record upserted for a typology line. */
  function TypologyRecord(pid: nat, t: Typology): Fields {
    map["project_id" := VInt(pid), "bedrooms" := VReal(t.bedrooms), "bathrooms" := VReal(t.bathrooms),
        "avg_surface_m2" := PositiveOrNull(t.surface), "total_units" := VReal(t.units),
        "available_units" := VReal(t.units - t.sold), "avg_price_uf" := PositiveOrNull(t.price),
        "avg_price_m2_uf" := PricePerM2(t)]
  }

  /** A typology is keyed by its project and its bedroom and bathroom counts, none of them NULL. */
  lemma TypologyRecordKey(pid: nat, t: Typology)
    ensures KeyOf(TypologyRecord(pid, t), TypologyKey) == Some([VInt(pid), VReal(t.bedrooms), VReal(t.bathrooms)])
  {
    var f := TypologyRecord(pid, t);
    var k1: seq<string> := ["bathrooms"];
    var k2: seq<string> := ["bedrooms", "bathrooms"];
    assert Column(f, "project_id") == VInt(pid);
    assert Column(f, "bedrooms") == VReal(t.bedrooms);
    assert Column(f, "bathrooms") == VReal(t.bathrooms);
    assert k1[1..] == [] && k1[0] == "bathrooms";
    assert KeyOf(f, k1[1..]) == Some([]);
    assert [VReal(t.bathrooms)] + [] == [VReal(t.bathrooms)];
    assert KeyOf(f, k1) == Some([VReal(t.bathrooms)]);
    assert k2[1..] == k1 && k2[0] == "bedrooms";
    assert [VReal(t.bedrooms)] + [VReal(t.bathrooms)] == [VReal(t.bedrooms), VReal(t.bathrooms)];
    assert KeyOf(f, k2) == Some([VReal(t.bedrooms), VReal(t.bathrooms)]);
    assert TypologyKey[1..] == k2 && TypologyKey[0] == "project_id";
    assert [VInt(pid)] + [VReal(t.bedrooms), VReal(t.bathrooms)] == [VInt(pid), VReal(t.bedrooms), VReal(t.bathrooms)];
  }

  /** The available units of a typology are its units not sold. */
  lemma TypologyAvailable(pid: nat, t: Typology)
    ensures Column(TypologyRecord(pid, t), "available_units") == VReal(t.units - t.sold)
    ensures Column(TypologyRecord(pid, t), "avg_price_m2_uf") == PricePerM2(t)
  {
  }

  /** The records of the typology lines of a group, in order. */
  function TypologyRecords(pid: nat, ts: seq<Typology>): (r: seq<Fields>)
    ensures |r| <= |ts|
  {
    if ts == [] then []
    else
      var t := ts[|ts| - 1];
      TypologyRecords(pid, ts[..|ts| - 1]) + if Skipped(t) then [] else [TypologyRecord(pid, t)]
  }

  predicate Kept(t: Typology) {
    !Skipped(t)
  }

  /** One record per line that is not skipped, each for the given project. */
  lemma {:induction false} TypologyRecordsCount(pid: nat, ts: seq<Typology>)
    ensures |TypologyRecords(pid, ts)| == CountOf(ts, Kept)
    ensures forall i :: 0 <= i < |TypologyRecords(pid, ts)| ==> Column(TypologyRecords(pid, ts)[i], "project_id") == VInt(pid)
  {
    if ts != [] {
      TypologyRecordsCount(pid, ts[..|ts| - 1]);
    }
  }

  /**
   * Upserting each record in a statement of its own: a statement that fails
   * changes nothing.  The count is that of the statements that succeed.
   */
  function UpsertEach(st: State, accepts: Fields -> bool, recs: seq<Fields>, cols: seq<string>): State {
    if recs == [] then st
    else
      var prev := UpsertEach(st, accepts, recs[..|recs| - 1], cols);
      var x := recs[|recs| - 1];
      if accepts(x) then UpsertAll(prev, [x], cols).0 else prev
  }

  /** The typology upserts keep every earlier row with its key, and keep identifiers distinct. */
  lemma {:induction false} UpsertEachExtends(st: State, accepts: Fields -> bool, recs: seq<Fields>, cols: seq<string>)
    ensures ExtendsKeys(st, UpsertEach(st, accepts, recs, cols), cols)
    ensures WellFormed(st) ==> WellFormed(UpsertEach(st, accepts, recs, cols))
  {
    if recs != [] {
      var init := recs[..|recs| - 1];
      var prev := UpsertEach(st, accepts, init, cols);
      UpsertEachExtends(st, accepts, init, cols);
      if accepts(recs[|recs| - 1]) {
        ExtendsKeysTransitive(st, prev, UpsertAll(prev, [recs[|recs| - 1]], cols).0, cols);
      }
    }
  }

  // ---------------------------------------------------------------------------
  // Importing a group
  // ---------------------------------------------------------------------------

  /** The messages pushed to `errors`; the database's own message text is not modelled. */
  datatype ImportError = MissingFields(key: string) | ProjectNotCreated(name: string) | TypologyFailed(name: string)

  /** An error that ends the processing of its group. */
  predicate IsGroupError(e: ImportError) {
    !e.TypologyFailed?
  }

  /** How the processing of one group ended. */
  datatype GroupResult = MissingName | CreateFailed | Imported(projectId: nat, isNew: bool, typologies: nat)

  /** The typologies of a group's lines. */
  function TypologiesOf(rows: seq<CsvRow>): seq<Typology> {
    MapSeq(rows, TypologyOf)
  }

  /**
   * The `for (const row of rows)` loop: one upsert per typology line, errors
   * collected.  The numbers of each line (`ts`, read by `TypologiesOf`) are
   * parsed before the loop rather than inside it; parsing has no effect.
   */
  method ImportTypologies(pid: nat, name: string, ts: seq<Typology>, typologies: Table) returns (created: nat, errors: seq<ImportError>)
    requires typologies.Valid()
    modifies typologies
    ensures typologies.Valid()
    ensures typologies.Snapshot() == UpsertEach(old(typologies.Snapshot()), typologies.accepts, TypologyRecords(pid, ts), TypologyKey)
    ensures created == CountOf(TypologyRecords(pid, ts), typologies.accepts)
    ensures |errors| + created == |TypologyRecords(pid, ts)|
    ensures forall i :: 0 <= i < |errors| ==> errors[i] == TypologyFailed(name)
  {
    ghost var base := typologies.Snapshot();
    ghost var accepts := typologies.accepts;
    ghost var recs: seq<Fields> := [];
    created := 0;
    errors := [];
    for i := 0 to |ts|
      invariant recs == TypologyRecords(pid, ts[..i])
      invariant typologies.Valid()
      invariant typologies.Snapshot() == UpsertEach(base, accepts, recs, TypologyKey)
      invariant created == CountOf(recs, accepts)
      invariant |errors| + created == |recs|
      invariant forall j :: 0 <= j < |errors| ==> errors[j] == TypologyFailed(name)
    {
      TypologyRecordsSnoc(pid, ts, i);
      created, errors := ImportTypology(pid, name, ts[i], typologies, base, recs, created, errors);
      recs := TypologyRecords(pid, ts[..i + 1]);
    }
    assert ts[..|ts|] == ts;
  }

  /** One pass of the loop: a line without counts is skipped, any other is upserted and counted or recorded as failed. */
  method ImportTypology(pid: nat, name: string, t: Typology, typologies: Table, ghost base: State, ghost recs: seq<Fields>,
                        created: nat, errors: seq<ImportError>)
      returns (created': nat, errors': seq<ImportError>)
    requires typologies.Valid()
    requires typologies.Snapshot() == UpsertEach(base, typologies.accepts, recs, TypologyKey)
    requires created == CountOf(recs, typologies.accepts) && |errors| + created == |recs|
    requires forall j :: 0 <= j < |errors| ==> errors[j] == TypologyFailed(name)
    modifies typologies
    ensures var recs' := recs + if Skipped(t) then [] else [TypologyRecord(pid, t)];
            typologies.Valid() &&
            typologies.Snapshot() == UpsertEach(base, typologies.accepts, recs', TypologyKey) &&
            created' == CountOf(recs', typologies.accepts) && |errors'| + created' == |recs'|
    ensures forall j :: 0 <= j < |errors'| ==> errors'[j] == TypologyFailed(name)
  {
    created', errors' := created, errors;
    if Skipped(t) {
      assert recs + [] == recs;
      return;
    }
    UpsertEachSnoc(base, typologies.accepts, recs, TypologyRecord(pid, t), TypologyKey);
    var ok := UpsertTypology(pid, t, typologies);
    if !ok {
      errors' := errors + [TypologyFailed(name)];
    } else {
      created' := created + 1;
    }
  }

  /** `upsert(typologyRecord, onConflict: 'project_id,bedrooms,bathrooms')` for one line. */
  method UpsertTypology(pid: nat, t: Typology, typologies: Table) returns (ok: bool)
    requires typologies.Valid()
    modifies typologies
    ensures typologies.Valid()
    ensures ok == typologies.accepts(TypologyRecord(pid, t))
    ensures typologies.Snapshot() == if ok then UpsertAll(old(typologies.Snapshot()), [TypologyRecord(pid, t)], TypologyKey).0
                                     else old(typologies.Snapshot())
  {
    var record := TypologyRecord(pid, t);
    var outcome := typologies.Upsert([record], TypologyKey);
    ok := outcome.Some?;
  }

  lemma TypologyRecordsSnoc(pid: nat, ts: seq<Typology>, i: nat)
    requires i < |ts|
    ensures TypologyRecords(pid, ts[..i + 1]) == TypologyRecords(pid, ts[..i]) + if Skipped(ts[i]) then [] else [TypologyRecord(pid, ts[i])]
    ensures Skipped(ts[i]) ==> TypologyRecords(pid, ts[..i + 1]) == TypologyRecords(pid, ts[..i])
  {
    assert ts[..i + 1][..i] == ts[..i];
    assert TypologyRecords(pid, ts[..i]) + [] == TypologyRecords(pid, ts[..i]);
  }

  /** One more record: upserted when the statement succeeds, which for a single record is when the table accepts it. */
  lemma UpsertEachSnoc(st: State, accepts: Fields -> bool, done: seq<Fields>, x: Fields, cols: seq<string>)
    ensures var prev := UpsertEach(st, accepts, done, cols);
            UpsertEach(st, accepts, done + [x], cols) == if accepts(x) then UpsertAll(prev, [x], cols).0 else prev
    ensures CountOf(done + [x], accepts) == CountOf(done, accepts) + if accepts(x) then 1 else 0
  {
    assert (done + [x])[..|done|] == done;
  }

  /** `.eq('name', projectName).eq('commune', commune)`. */
  function NameConds(name: string, commune: string): seq<(string, Value)> {
    [("name", VStr(name)), ("commune", VStr(commune))]
  }

  /** How saving a group's project ended: its id and whether it is new, or the insert failed. */
  datatype Saved = Saved(id: nat, isNew: bool) | NotSaved

  /**
   * The project of a group: the one row found by name and commune is updated
   * (whether the update succeeds is not looked at, as in the source),
   * otherwise a new project is inserted, which may fail.
   */
  function SaveOutcome(st: State, accepts: Fields -> bool, existing: Option<Row>, name: string, commune: string,
                       developer: Option<string>, region: Option<string>, totals: Totals, now: string): (State, Saved)
  {
    if existing.Some? then
      var update := ProjectUpdate(developer, region, totals, now);
      (if accepts(update) then UpdateAll(st, existing.value.id, update) else st, Saved(existing.value.id, false))
    else
      var insert := NewProject(name, commune, developer, region, totals);
      if accepts(insert) then (InsertAll(st, [insert]), Saved(st.nextId, true)) else (st, NotSaved)
  }

  /**
   * A saved project is stored afterwards under its id with the group's name
   * and commune, and no earlier row is lost.
   */
  lemma SavedProjectStored(st: State, accepts: Fields -> bool, existing: Option<Row>, name: string, commune: string,
                           developer: Option<string>, region: Option<string>, totals: Totals, now: string)
    requires existing.Some? ==> existing.value in st.rows && Matches(existing.value, NameConds(name, commune))
    ensures var (st', saved) := SaveOutcome(st, accepts, existing, name, commune, developer, region, totals, now);
            Extends(st, st') &&
            (saved.Saved? ==> Stores(st', saved.id, [VStr(name), VStr(commune)], ["name", "commune"]))
  {
    var (st', saved) := SaveOutcome(st, accepts, existing, name, commune, developer, region, totals, now);
    var cols := ["name", "commune"];
    if existing.Some? {
      var update := ProjectUpdate(developer, region, totals, now);
      ProjectUpdateKeepsKey(developer, region, totals, now);
      var i :| 0 <= i < |st.rows| && st.rows[i] == existing.value;
      var conds := NameConds(name, commune);
      assert Column(st.rows[i].fields, "name") == VStr(name) by {
        assert conds[0] == ("name", VStr(name));
      }
      assert Column(st.rows[i].fields, "commune") == VStr(commune) by {
        assert conds[1] == ("commune", VStr(commune));
      }
      assert ColumnsOf(st'.rows[i].fields, cols) == [VStr(name), VStr(commune)];
    } else if saved.Saved? {
      var insert := NewProject(name, commune, developer, region, totals);
      assert st'.rows[|st.rows|] == Row(st.nextId, insert);
      assert ColumnsOf(insert, cols) == [VStr(name), VStr(commune)];
    }
  }

  method SaveProject(name: string, commune: string, developer: Option<string>, region: Option<string>, totals: Totals,
                     now: string, projects: Table) returns (saved: Saved)
    requires projects.Valid()
    modifies projects
    ensures projects.Valid()
    ensures (projects.Snapshot(), saved) == SaveOutcome(old(projects.Snapshot()), projects.accepts, SelectOne(old(projects.Snapshot()), NameConds(name, commune)),
                                                        name, commune, developer, region, totals, now)
  {
    var existing := projects.SelectSingle(NameConds(name, commune));
    if existing.Some? {
      var _ := projects.UpdateById(existing.value.id, ProjectUpdate(developer, region, totals, now));
      saved := Saved(existing.value.id, false);
    } else {
      var projectId := projects.nextId;
      var ok := projects.Insert([NewProject(name, commune, developer, region, totals)]);
      saved := if ok then Saved(projectId, true) else NotSaved;
    }
  }

  /** The first line of a group names its project and its commune. */
  predicate Named(first: CsvRow) {
    Present(Trimmed(first, "PROYECTO")) && Present(Trimmed(first, "COMUNA_INCOIN"))
  }

  function ProjectNameOf(first: CsvRow): string
    requires Named(first)
  {
    Trimmed(first, "PROYECTO").value
  }

  function CommuneOf(first: CsvRow): string
    requires Named(first)
  {
    Trimmed(first, "COMUNA_INCOIN").value
  }

  /** How saving the project of a named group ends: the row found by its name and commune is updated, or a new one inserted. */
  function GroupSave(st: State, accepts: Fields -> bool, rows: seq<CsvRow>, now: string): (State, Saved)
    requires rows != [] && Named(rows[0])
  {
    SaveOutcome(st, accepts, SelectOne(st, NameConds(ProjectNameOf(rows[0]), CommuneOf(rows[0]))), ProjectNameOf(rows[0]), CommuneOf(rows[0]),
                Trimmed(rows[0], "INMOBILIARIA"), Trimmed(rows[0], "REGION"), TotalsOf(rows), now)
  }

  /** The projects table ends in the state `outcome` gives, and the group's result reports the save. */
  predicate SavedAs(outcome: (State, Saved), after: State, result: GroupResult) {
    var (st, saved) := outcome;
    after == st &&
    (saved.NotSaved? <==> result == CreateFailed) &&
    (saved.Saved? ==> result.Imported? && result.projectId == saved.id && result.isNew == saved.isNew)
  }

  /**
   * The typologies table ends with every typology record of the named group
   * upserted under project `pid`; `created` counts the accepted ones and every
   * other record left one error naming the project.
   */
  predicate TypologiesUpserted(rows: seq<CsvRow>, pid: nat, before: State, accepts: Fields -> bool, after: State,
                               created: nat, errors: seq<ImportError>)
    requires rows != [] && Named(rows[0])
  {
    var recs := TypologyRecords(pid, TypologiesOf(rows));
    after == UpsertEach(before, accepts, recs, TypologyKey) &&
    created == CountOf(recs, accepts) &&
    |errors| + created == |recs| &&
    forall i :: 0 <= i < |errors| ==> errors[i] == TypologyFailed(ProjectNameOf(rows[0]))
  }

  /**
   * The body of the loop over the groups: the first row must name the project
   * and its commune; the group is summed, its project saved, and its typologies
   * upserted under the project's id.
   */
  method ImportGroup(key: string, rows: seq<CsvRow>, projects: Table, typologies: Table, now: string)
      returns (result: GroupResult, errors: seq<ImportError>)
    requires rows != [] && projects != typologies
    requires projects.Valid() && typologies.Valid()
    modifies projects, typologies
    ensures projects.Valid() && typologies.Valid()
    ensures result.MissingName? <==> !Named(rows[0])
    ensures !Named(rows[0]) ==> errors == [MissingFields(key)] && unchanged(projects, typologies)
    ensures Named(rows[0]) ==> SavedAs(GroupSave(old(projects.Snapshot()), projects.accepts, rows, now), projects.Snapshot(), result)
    ensures Named(rows[0]) && result == CreateFailed ==> errors == [ProjectNotCreated(ProjectNameOf(rows[0]))] && unchanged(typologies)
    ensures ExtendsKeys(old(typologies.Snapshot()), typologies.Snapshot(), TypologyKey)
    ensures Extends(old(projects.Snapshot()), projects.Snapshot())
    ensures CountOf(errors, IsGroupError) == if result.Imported? then 0 else 1
    ensures Named(rows[0]) && result.Imported? ==>
      TypologiesUpserted(rows, result.projectId, old(typologies.Snapshot()), typologies.accepts, typologies.Snapshot(),
                         result.typologies, errors)
  {
    var firstRow := rows[0];
    var projectName := Trimmed(firstRow, "PROYECTO");
    var commune := Trimmed(firstRow, "COMUNA_INCOIN");
    var developer := Trimmed(firstRow, "INMOBILIARIA");
    var region := Trimmed(firstRow, "REGION");
    if !Present(projectName) || !Present(commune) {
      result, errors := MissingName, [MissingFields(key)];
      assert errors[..0] == [];
      return;
    }
    var totals := GroupTotals(rows);
    ghost var existing := SelectOne(projects.Snapshot(), NameConds(projectName.value, commune.value));
    ghost var before := projects.Snapshot();
    var saved := SaveProject(projectName.value, commune.value, developer, region, totals, now, projects);
    SavedProjectStored(before, projects.accepts, existing, projectName.value, commune.value, developer, region, totals, now);
    if saved.NotSaved? {
      result, errors := CreateFailed, [ProjectNotCreated(projectName.value)];
      assert errors[..0] == [];
      return;
    }
    ghost var typologiesBefore := typologies.Snapshot();
    var created;
    created, errors := ImportTypologies(saved.id, projectName.value, TypologiesOf(rows), typologies);
    UpsertEachExtends(typologiesBefore, typologies.accepts, TypologyRecords(saved.id, TypologiesOf(rows)), TypologyKey);
    NoGroupErrors(errors, projectName.value);
    result := Imported(saved.id, saved.isNew, created);
  }

  /** Typology errors never end a group. */
  lemma {:induction false} NoGroupErrors(errors: seq<ImportError>, name: string)
    requires forall i :: 0 <= i < |errors| ==> errors[i] == TypologyFailed(name)
    ensures CountOf(errors, IsGroupError) == 0
  {
    if errors != [] {
      NoGroupErrors(errors[..|errors| - 1], name);
    }
  }

  /** The counters of the response. */
  datatype Stats = Stats(processed: nat, created: nat, updated: nat, typologies: nat, errors: nat)

  /** How one group ended, with the messages it pushed. */
  datatype GroupOutcome = GroupOutcome(result: GroupResult, errors: seq<ImportError>)

  /** The group's project was inserted (`isNew`): counted in `created`. */
  predicate CreatedGroup(o: GroupOutcome) {
    o.result.Imported? && o.result.isNew
  }

  /** The group's project already existed and was updated: counted in `updated`. */
  predicate UpdatedGroup(o: GroupOutcome) {
    o.result.Imported? && !o.result.isNew
  }

  /** What the group adds to `typologies`. */
  function TypologiesAdded(o: GroupOutcome): int {
    if o.result.Imported? then o.result.typologies else 0
  }

  function ErrorsOf(o: GroupOutcome): seq<ImportError> {
    o.errors
  }

  /**
   * What a group's outcome says about its rows: a first row without a name
   * or a commune is one `MissingFields` message; a project that could not be
   * saved is one `ProjectNotCreated`; a saved project has one typology
   * counted or one `TypologyFailed` message per typology record.
   */
  ghost predicate Reported(key: string, rows: seq<CsvRow>, o: GroupOutcome) {
    rows != [] &&
    (o.result.MissingName? <==> !Named(rows[0])) &&
    (!Named(rows[0]) ==> o.errors == [MissingFields(key)]) &&
    (Named(rows[0]) && o.result.CreateFailed? ==> o.errors == [ProjectNotCreated(ProjectNameOf(rows[0]))]) &&
    (Named(rows[0]) && o.result.Imported? ==>
       |o.errors| + o.result.typologies == |TypologyRecords(o.result.projectId, TypologiesOf(rows))| &&
       forall i :: 0 <= i < |o.errors| ==> o.errors[i] == TypologyFailed(ProjectNameOf(rows[0])))
  }

  /** The first `|outcomes|` groups, each reported by its outcome. */
  ghost predicate AllReported(keys: seq<string>, groups: map<string, seq<CsvRow>>, outcomes: seq<GroupOutcome>)
    decreases |outcomes|
  {
    |outcomes| <= |keys| &&
    (outcomes != [] ==>
       var n := |outcomes| - 1;
       AllReported(keys, groups, outcomes[..n]) && keys[n] in groups && Reported(keys[n], groups[keys[n]], outcomes[n]))
  }

  /** Each group's outcome reports that group. */
  lemma {:induction false} AllReportedAt(keys: seq<string>, groups: map<string, seq<CsvRow>>, outcomes: seq<GroupOutcome>, g: nat)
    requires AllReported(keys, groups, outcomes) && g < |outcomes|
    ensures keys[g] in groups && Reported(keys[g], groups[keys[g]], outcomes[g])
    decreases |outcomes|
  {
    var n := |outcomes| - 1;
    if g < n {
      AllReportedAt(keys, groups, outcomes[..n], g);
      assert outcomes[..n][g] == outcomes[g];
    }
  }

  lemma AllReportedSnoc(keys: seq<string>, groups: map<string, seq<CsvRow>>, outcomes: seq<GroupOutcome>, o: GroupOutcome)
    requires AllReported(keys, groups, outcomes) && |outcomes| < |keys|
    requires keys[|outcomes|] in groups && Reported(keys[|outcomes|], groups[keys[|outcomes|]], o)
    ensures AllReported(keys, groups, outcomes + [o])
  {
    assert (outcomes + [o])[..|outcomes|] == outcomes;
  }

  /** The ending of `ImportGroup`, restated over the group's outcome alone. */
  lemma GroupReported(key: string, rows: seq<CsvRow>, result: GroupResult, errors: seq<ImportError>,
                      before: State, accepts: Fields -> bool, after: State)
    requires rows != []
    requires result.MissingName? <==> !Named(rows[0])
    requires !Named(rows[0]) ==> errors == [MissingFields(key)]
    requires Named(rows[0]) && result == CreateFailed ==> errors == [ProjectNotCreated(ProjectNameOf(rows[0]))]
    requires Named(rows[0]) && result.Imported? ==>
      TypologiesUpserted(rows, result.projectId, before, accepts, after, result.typologies, errors)
    ensures Reported(key, rows, GroupOutcome(result, errors))
  {
  }

  /** The group pushed one message that ended it, unless its project was saved. */
  predicate EndedOnce(o: GroupOutcome) {
    CountOf(o.errors, IsGroupError) == if o.result.Imported? then 0 else 1
  }

  /** What a group reports leaves it ended once. */
  lemma ReportedEndsOnce(key: string, rows: seq<CsvRow>, o: GroupOutcome)
    requires Reported(key, rows, o)
    ensures EndedOnce(o)
  {
    if o.result.Imported? {
      NoGroupErrors(o.errors, ProjectNameOf(rows[0]));
    } else {
      assert o.errors[..0] == [];
    }
  }

  /** Every group reported ended once. */
  lemma {:induction false} AllEndedOnce(keys: seq<string>, groups: map<string, seq<CsvRow>>, outcomes: seq<GroupOutcome>)
    requires AllReported(keys, groups, outcomes)
    ensures forall g :: 0 <= g < |outcomes| ==> EndedOnce(outcomes[g])
  {
    forall g | 0 <= g < |outcomes|
      ensures EndedOnce(outcomes[g])
    {
      AllReportedAt(keys, groups, outcomes, g);
      ReportedEndsOnce(keys[g], groups[keys[g]], outcomes[g]);
    }
  }

  /**
   * Every group is counted exactly once: created, updated, or by the one
   * message that ended it.
   */
  lemma {:induction false} ReportedTally(outcomes: seq<GroupOutcome>)
    requires forall g :: 0 <= g < |outcomes| ==> EndedOnce(outcomes[g])
    ensures CountOf(outcomes, CreatedGroup) + CountOf(outcomes, UpdatedGroup)
          + CountOf(Flatten(MapSeq(outcomes, ErrorsOf)), IsGroupError) == |outcomes|
  {
    if outcomes != [] {
      var n := |outcomes| - 1;
      var o := outcomes[n];
      ReportedTally(outcomes[..n]);
      assert outcomes == outcomes[..n] + [o];
      OutcomeSnoc(outcomes[..n], o);
      CountOfAppend(Flatten(MapSeq(outcomes[..n], ErrorsOf)), o.errors, IsGroupError);
      assert EndedOnce(o);
    }
  }

  /** One more group: its counts and messages follow those of the groups before it. */
  lemma OutcomeSnoc(outcomes: seq<GroupOutcome>, o: GroupOutcome)
    ensures CountOf(outcomes + [o], CreatedGroup) == CountOf(outcomes, CreatedGroup) + if CreatedGroup(o) then 1 else 0
    ensures CountOf(outcomes + [o], UpdatedGroup) == CountOf(outcomes, UpdatedGroup) + if UpdatedGroup(o) then 1 else 0
    ensures SumInt(outcomes + [o], TypologiesAdded) == SumInt(outcomes, TypologiesAdded) + TypologiesAdded(o)
    ensures Flatten(MapSeq(outcomes + [o], ErrorsOf)) == Flatten(MapSeq(outcomes, ErrorsOf)) + o.errors
  {
    assert (outcomes + [o])[..|outcomes|] == outcomes;
    assert MapSeq(outcomes + [o], ErrorsOf) == MapSeq(outcomes, ErrorsOf) + [o.errors];
    FlattenSnoc(MapSeq(outcomes, ErrorsOf), o.errors);
  }

  /**
   * What one group does to the projects table `p` and the typologies table
   * `t`, and how it ends: a group without a name or a commune touches
   * nothing; otherwise its project is saved, and when that succeeds its
   * typology records are upserted one by one under the project's id, each
   * refused one leaving a `TypologyFailed` message.
   */
  ghost function ImportStep(p: State, t: State, acceptsP: Fields -> bool, acceptsT: Fields -> bool,
                           key: string, rows: seq<CsvRow>, now: string): (State, State, GroupOutcome)
    requires rows != []
  {
    if !Named(rows[0]) then (p, t, GroupOutcome(MissingName, [MissingFields(key)]))
    else AfterSave(GroupSave(p, acceptsP, rows, now), t, acceptsT, rows)
  }

  /** A named group once its project's save ended as `save`: its typologies are upserted when the project was saved. */
  ghost function AfterSave(save: (State, Saved), t: State, acceptsT: Fields -> bool, rows: seq<CsvRow>): (State, State, GroupOutcome)
    requires rows != [] && Named(rows[0])
  {
    if save.1.NotSaved? then (save.0, t, GroupOutcome(CreateFailed, [ProjectNotCreated(ProjectNameOf(rows[0]))]))
    else
      var recs := TypologyRecords(save.1.id, TypologiesOf(rows));
      var n := CountOf(recs, acceptsT);
      (save.0, UpsertEach(t, acceptsT, recs, TypologyKey),
       GroupOutcome(Imported(save.1.id, save.1.isNew, n), Failures(|recs| - n, ProjectNameOf(rows[0]))))
  }

  /** `n` messages that a typology of project `name` could not be saved. */
  function Failures(n: nat, name: string): (r: seq<ImportError>)
    ensures |r| == n && forall i :: 0 <= i < n ==> r[i] == TypologyFailed(name)
  {
    if n == 0 then [] else Failures(n - 1, name) + [TypologyFailed(name)]
  }

  /** Messages that all say a typology of `name` failed are that many `Failures`. */
  lemma AllFailures(errors: seq<ImportError>, name: string)
    requires forall i :: 0 <= i < |errors| ==> errors[i] == TypologyFailed(name)
    ensures errors == Failures(|errors|, name)
  {
  }

  /** Every listed key has a non-empty group. */
  predicate GroupsGiven(keys: seq<string>, groups: map<string, seq<CsvRow>>) {
    forall i :: 0 <= i < |keys| ==> keys[i] in groups && groups[keys[i]] != []
  }

  /** The groups imported one after the other, in the order of `keys`: the final tables and each group's outcome. */
  ghost function ImportFold(keys: seq<string>, groups: map<string, seq<CsvRow>>, p: State, t: State,
                            acceptsP: Fields -> bool, acceptsT: Fields -> bool, now: string): (r: (State, State, seq<GroupOutcome>))
    requires GroupsGiven(keys, groups)
    ensures |r.2| == |keys|
    decreases |keys|
  {
    if keys == [] then (p, t, [])
    else
      var n := |keys| - 1;
      var (p', t', outcomes) := ImportFold(keys[..n], groups, p, t, acceptsP, acceptsT, now);
      var (p'', t'', o) := ImportStep(p', t', acceptsP, acceptsT, keys[n], groups[keys[n]], now);
      (p'', t'', outcomes + [o])
  }

  /** One more group of the loop is one more step of the fold. */
  lemma FoldStep(keys: seq<string>, groups: map<string, seq<CsvRow>>, g: nat, p0: State, t0: State,
                 acceptsP: Fields -> bool, acceptsT: Fields -> bool, now: string,
                 p: State, t: State, outcomes: seq<GroupOutcome>, p': State, t': State, o: GroupOutcome)
    requires GroupsGiven(keys, groups) && g < |keys|
    requires (p, t, outcomes) == ImportFold(keys[..g], groups, p0, t0, acceptsP, acceptsT, now)
    requires (p', t', o) == ImportStep(p, t, acceptsP, acceptsT, keys[g], groups[keys[g]], now)
    ensures (p', t', outcomes + [o]) == ImportFold(keys[..g + 1], groups, p0, t0, acceptsP, acceptsT, now)
  {
    assert keys[..g + 1][..g] == keys[..g];
  }

  /**
   * How a named group's project is saved: a group whose name and commune
   * select one existing row updates it and is counted as updated; otherwise
   * a new project is inserted and counted as created when the table accepts
   * it, and the group fails with `ProjectNotCreated` when it does not.
   */
  lemma ImportStepSaves(p: State, t: State, acceptsP: Fields -> bool, acceptsT: Fields -> bool,
                       key: string, rows: seq<CsvRow>, now: string)
    requires rows != [] && Named(rows[0])
    ensures var (p', t', o) := ImportStep(p, t, acceptsP, acceptsT, key, rows, now);
            var name, commune := ProjectNameOf(rows[0]), CommuneOf(rows[0]);
            var existing := SelectOne(p, NameConds(name, commune));
            var insert := NewProject(name, commune, Trimmed(rows[0], "INMOBILIARIA"), Trimmed(rows[0], "REGION"), TotalsOf(rows));
            (existing.Some? ==> o.result == Imported(existing.value.id, false, o.result.typologies)) &&
            (o.result == CreateFailed <==> existing.None? && !acceptsP(insert)) &&
            (o.result.Imported? && o.result.isNew <==> existing.None? && acceptsP(insert)) &&
            (o.result.Imported? && o.result.isNew ==> p' == InsertAll(p, [insert]) && o.result.projectId == p.nextId) &&
            (o.result == CreateFailed ==> p' == p && t' == t)
  {
  }

  /**
   * A group's step ends as the group reports (the messages and counts of
   * `Reported`), keeps both tables well formed, and only lets them grow.
   */
  lemma ImportStepFacts(p: State, t: State, acceptsP: Fields -> bool, acceptsT: Fields -> bool,
                        key: string, rows: seq<CsvRow>, now: string)
    requires rows != [] && WellFormed(p) && WellFormed(t)
    ensures var r := ImportStep(p, t, acceptsP, acceptsT, key, rows, now);
            Reported(key, rows, r.2) && Extends(p, r.0) && ExtendsKeys(t, r.1, TypologyKey) && WellFormed(r.0) && WellFormed(r.1)
  {
    if Named(rows[0]) {
      var save := GroupSave(p, acceptsP, rows, now);
      SaveGrows(p, acceptsP, rows, now);
      AfterSaveFacts(key, save, t, acceptsT, rows);
    }
  }

  /** Saving a named group's project keeps the projects table well formed and loses no row. */
  lemma SaveGrows(p: State, acceptsP: Fields -> bool, rows: seq<CsvRow>, now: string)
    requires rows != [] && Named(rows[0]) && WellFormed(p)
    ensures Extends(p, GroupSave(p, acceptsP, rows, now).0) && WellFormed(GroupSave(p, acceptsP, rows, now).0)
  {
    var name, commune := ProjectNameOf(rows[0]), CommuneOf(rows[0]);
    var existing := SelectOne(p, NameConds(name, commune));
    if existing.Some? {
      var update := ProjectUpdate(Trimmed(rows[0], "INMOBILIARIA"), Trimmed(rows[0], "REGION"), TotalsOf(rows), now);
      assert GroupSave(p, acceptsP, rows, now).0 == if acceptsP(update) then UpdateAll(p, existing.value.id, update) else p;
    } else {
      var insert := NewProject(name, commune, Trimmed(rows[0], "INMOBILIARIA"), Trimmed(rows[0], "REGION"), TotalsOf(rows));
      assert GroupSave(p, acceptsP, rows, now).0 == if acceptsP(insert) then InsertAll(p, [insert]) else p;
    }
  }

  /** After the save, the group reports as `Reported` says and the typologies table only grows. */
  lemma AfterSaveFacts(key: string, save: (State, Saved), t: State, acceptsT: Fields -> bool, rows: seq<CsvRow>)
    requires rows != [] && Named(rows[0]) && WellFormed(t)
    ensures var r := AfterSave(save, t, acceptsT, rows);
            Reported(key, rows, r.2) && r.0 == save.0 && ExtendsKeys(t, r.1, TypologyKey) && WellFormed(r.1)
  {
    if save.1.Saved? {
      UpsertEachExtends(t, acceptsT, TypologyRecords(save.1.id, TypologiesOf(rows)), TypologyKey);
    }
  }

  /**
   * Every group of the fold reports its group, and its tables only grow:
   * no project row is lost and every stored typology key stays stored.
   */
  lemma {:induction false} ImportFoldReported(keys: seq<string>, groups: map<string, seq<CsvRow>>, p: State, t: State,
                                              acceptsP: Fields -> bool, acceptsT: Fields -> bool, now: string)
    requires GroupsGiven(keys, groups) && WellFormed(p) && WellFormed(t)
    ensures var r := ImportFold(keys, groups, p, t, acceptsP, acceptsT, now);
            AllReported(keys, groups, r.2) && Extends(p, r.0) && ExtendsKeys(t, r.1, TypologyKey) && WellFormed(r.0) && WellFormed(r.1)
    decreases |keys|
  {
    if keys != [] {
      var n := |keys| - 1;
      ImportFoldReported(keys[..n], groups, p, t, acceptsP, acceptsT, now);
      var r := ImportFold(keys[..n], groups, p, t, acceptsP, acceptsT, now);
      var s := ImportStep(r.0, r.1, acceptsP, acceptsT, keys[n], groups[keys[n]], now);
      ImportStepFacts(r.0, r.1, acceptsP, acceptsT, keys[n], groups[keys[n]], now);
      FoldStep(keys, groups, n, p, t, acceptsP, acceptsT, now, r.0, r.1, r.2, s.0, s.1, s.2);
      assert keys[..n + 1] == keys;
      AllReportedLonger(keys[..n], keys, groups, r.2);
      AllReportedSnoc(keys, groups, r.2, s.2);
      ExtendsKeysTransitive(t, r.1, s.1, TypologyKey);
    }
  }

  /** Outcomes that report the groups of a prefix of the keys report the same groups of the whole list. */
  lemma {:induction false} AllReportedLonger(prefix: seq<string>, keys: seq<string>, groups: map<string, seq<CsvRow>>, outcomes: seq<GroupOutcome>)
    requires prefix <= keys && AllReported(prefix, groups, outcomes)
    ensures AllReported(keys, groups, outcomes)
    decreases |outcomes|
  {
    if outcomes != [] {
      AllReportedLonger(prefix, keys, groups, outcomes[..|outcomes| - 1]);
    }
  }

  /** The ending `ImportGroup` promises is the group's step. */
  lemma EndedAsStep(key: string, rows: seq<CsvRow>, result: GroupResult, errors: seq<ImportError>,
                    p0: State, t0: State, acceptsP: Fields -> bool, acceptsT: Fields -> bool, p1: State, t1: State, now: string)
    requires rows != []
    requires result.MissingName? <==> !Named(rows[0])
    requires !Named(rows[0]) ==> errors == [MissingFields(key)] && p1 == p0 && t1 == t0
    requires Named(rows[0]) ==> SavedAs(GroupSave(p0, acceptsP, rows, now), p1, result)
    requires Named(rows[0]) && result == CreateFailed ==> errors == [ProjectNotCreated(ProjectNameOf(rows[0]))] && t1 == t0
    requires Named(rows[0]) && result.Imported? ==> TypologiesUpserted(rows, result.projectId, t0, acceptsT, t1, result.typologies, errors)
    ensures (p1, t1, GroupOutcome(result, errors)) == ImportStep(p0, t0, acceptsP, acceptsT, key, rows, now)
  {
    if Named(rows[0]) {
      SavedAsStep(GroupSave(p0, acceptsP, rows, now), rows, result, errors, t0, acceptsT, p1, t1);
    }
  }

  lemma SavedAsStep(save: (State, Saved), rows: seq<CsvRow>, result: GroupResult, errors: seq<ImportError>,
                    t0: State, acceptsT: Fields -> bool, p1: State, t1: State)
    requires rows != [] && Named(rows[0])
    requires SavedAs(save, p1, result)
    requires result == CreateFailed ==> errors == [ProjectNotCreated(ProjectNameOf(rows[0]))] && t1 == t0
    requires result.Imported? ==> TypologiesUpserted(rows, result.projectId, t0, acceptsT, t1, result.typologies, errors)
    ensures (p1, t1, GroupOutcome(result, errors)) == AfterSave(save, t0, acceptsT, rows)
  {
    if result.Imported? {
      SavedStep(save, rows, result, errors, t0, acceptsT, p1, t1);
    }
  }

  /** A saved project: the typology upserts, counted, with one message per refused record. */
  lemma SavedStep(save: (State, Saved), rows: seq<CsvRow>, result: GroupResult, errors: seq<ImportError>,
                  t0: State, acceptsT: Fields -> bool, p1: State, t1: State)
    requires rows != [] && Named(rows[0]) && result.Imported?
    requires save.1 == Saved(result.projectId, result.isNew) && p1 == save.0
    requires TypologiesUpserted(rows, result.projectId, t0, acceptsT, t1, result.typologies, errors)
    ensures (p1, t1, GroupOutcome(result, errors)) == AfterSave(save, t0, acceptsT, rows)
  {
    AllFailures(errors, ProjectNameOf(rows[0]));
    AfterSaved(save, t0, acceptsT, rows);
  }

  /** What `AfterSave` gives once the project is saved. */
  lemma AfterSaved(save: (State, Saved), t: State, acceptsT: Fields -> bool, rows: seq<CsvRow>)
    requires rows != [] && Named(rows[0]) && save.1.Saved?
    ensures var recs := TypologyRecords(save.1.id, TypologiesOf(rows));
            var n := CountOf(recs, acceptsT);
            AfterSave(save, t, acceptsT, rows)
            == (save.0, UpsertEach(t, acceptsT, recs, TypologyKey),
                GroupOutcome(Imported(save.1.id, save.1.isNew, n), Failures(|recs| - n, ProjectNameOf(rows[0]))))
  {
  }

  /** `ImportGroup` as the loop over the groups sees it: the group's outcome, and both tables only growing. */
  method ReportGroup(key: string, rows: seq<CsvRow>, projects: Table, typologies: Table, now: string)
      returns (result: GroupResult, errors: seq<ImportError>)
    requires rows != [] && projects != typologies
    requires projects.Valid() && typologies.Valid()
    modifies projects, typologies
    ensures projects.Valid() && typologies.Valid()
    ensures (projects.Snapshot(), typologies.Snapshot(), GroupOutcome(result, errors))
            == ImportStep(old(projects.Snapshot()), old(typologies.Snapshot()), projects.accepts, typologies.accepts, key, rows, now)
    ensures Reported(key, rows, GroupOutcome(result, errors))
    ensures Extends(old(projects.Snapshot()), projects.Snapshot())
    ensures ExtendsKeys(old(typologies.Snapshot()), typologies.Snapshot(), TypologyKey)
  {
    ghost var p0, t0 := projects.Snapshot(), typologies.Snapshot();
    result, errors := ImportGroup(key, rows, projects, typologies, now);
    GroupReported(key, rows, result, errors, t0, typologies.accepts, typologies.Snapshot());
    EndedAsStep(key, rows, result, errors, p0, t0, projects.accepts, typologies.accepts, projects.Snapshot(), typologies.Snapshot(), now);
  }

  /** The counters of the loop over the groups, as sums over the groups' outcomes. */
  predicate Tallied(outcomes: seq<GroupOutcome>, created: nat, updated: nat, typologies: nat, errors: seq<ImportError>) {
    created == CountOf(outcomes, CreatedGroup) && updated == CountOf(outcomes, UpdatedGroup) &&
    typologies == SumInt(outcomes, TypologiesAdded) && errors == Flatten(MapSeq(outcomes, ErrorsOf))
  }

  /** The counters after one more group. */
  lemma TallyStep(outcomes: seq<GroupOutcome>, o: GroupOutcome, created: nat, updated: nat, typologies: nat, errors: seq<ImportError>,
                  created': nat, updated': nat, typologies': nat)
    requires Tallied(outcomes, created, updated, typologies, errors)
    requires created' == created + (if CreatedGroup(o) then 1 else 0)
    requires updated' == updated + (if UpdatedGroup(o) then 1 else 0)
    requires typologies' == typologies + TypologiesAdded(o)
    ensures Tallied(outcomes + [o], created', updated', typologies', errors + o.errors)
  {
    OutcomeSnoc(outcomes, o);
  }

  /**
   * The loop over `Object.entries(projectGroups)`: every group is processed
   * once, in order; `created`, `updated` and `typologies` add up what the
   * groups report, and the error list is their messages one group after the
   * other.
   */
  method ImportGroups(keys: seq<string>, groups: map<string, seq<CsvRow>>, projects: Table, typologies: Table, now: string)
      returns (stats: Stats, errors: seq<ImportError>, ghost outcomes: seq<GroupOutcome>)
    requires forall i :: 0 <= i < |keys| ==> keys[i] in groups && groups[keys[i]] != []
    requires projects != typologies && projects.Valid() && typologies.Valid()
    modifies projects, typologies
    ensures projects.Valid() && typologies.Valid()
    ensures (projects.Snapshot(), typologies.Snapshot(), outcomes)
            == ImportFold(keys, groups, old(projects.Snapshot()), old(typologies.Snapshot()), projects.accepts, typologies.accepts, now)
    ensures |outcomes| == |keys|
    ensures AllReported(keys, groups, outcomes)
    ensures stats.processed == |keys| && stats.errors == |errors|
    ensures Tallied(outcomes, stats.created, stats.updated, stats.typologies, errors)
    ensures stats.created + stats.updated + CountOf(errors, IsGroupError) == stats.processed
    ensures Extends(old(projects.Snapshot()), projects.Snapshot())
    ensures ExtendsKeys(old(typologies.Snapshot()), typologies.Snapshot(), TypologyKey)
  {
    ghost var p0, t0 := projects.Snapshot(), typologies.Snapshot();
    var processed, created, updated, typologiesCreated := 0, 0, 0, 0;
    errors, outcomes := [], [];
    assert keys[..0] == [];
    for g := 0 to |keys|
      invariant projects.Valid() && typologies.Valid()
      invariant processed == g == |outcomes|
      invariant (projects.Snapshot(), typologies.Snapshot(), outcomes) == ImportFold(keys[..g], groups, p0, t0, projects.accepts, typologies.accepts, now)
      invariant Tallied(outcomes, created, updated, typologiesCreated, errors)
    {
      var key := keys[g];
      var rows := groups[key];
      processed := processed + 1;
      ghost var c0, u0, n0 := created, updated, typologiesCreated;
      ghost var p, t := projects.Snapshot(), typologies.Snapshot();
      var result, groupErrors := ReportGroup(key, rows, projects, typologies, now);
      ghost var o := GroupOutcome(result, groupErrors);
      FoldStep(keys, groups, g, p0, t0, projects.accepts, typologies.accepts, now, p, t, outcomes, projects.Snapshot(), typologies.Snapshot(), o);
      match result {
        case MissingName =>
        case CreateFailed =>
        case Imported(_, isNew, n) =>
          if isNew {
            created := created + 1;
          } else {
            updated := updated + 1;
          }
          typologiesCreated := typologiesCreated + n;
      }
      TallyStep(outcomes, o, c0, u0, n0, errors, created, updated, typologiesCreated);
      errors := errors + groupErrors;
      outcomes := outcomes + [o];
    }
    assert keys[..|keys|] == keys;
    ImportFoldReported(keys, groups, p0, t0, projects.accepts, typologies.accepts, now);
    AllEndedOnce(keys, groups, outcomes);
    ReportedTally(outcomes);
    stats := Stats(processed, created, updated, typologiesCreated, |errors|);
  }

  /** The uploaded form field `file`. */
  datatype Upload = Upload(name: string, content: string)

  /** The causes of a 400 response. */
  datatype Rejection = NoFile | NotCsv | NoDataRows

  datatype Response = BadRequest(reason: Rejection) | Complete(stats: Stats, errors: seq<ImportError>)

  /** The groups of an upload's data lines, in order of first appearance. */
  ghost function GroupKeys(content: string): seq<string>
    requires |Lines(content)| >= 1
  {
    var lines := Lines(content);
    Keys(DataRows(HeaderNames(lines[0]), lines[1..]), RowKey)
  }

  /** The data lines of an upload, grouped by project key. */
  ghost function GroupMap(content: string): map<string, seq<CsvRow>>
    requires |Lines(content)| >= 1
  {
    var lines := Lines(content);
    var rows := DataRows(HeaderNames(lines[0]), lines[1..]);
    map k | k in Keys(rows, RowKey) :: Members(rows, RowKey, k)
  }

  /** The groups `GroupRows` builds from an upload are the upload's groups. */
  lemma UploadGroups(content: string, keys: seq<string>, groups: map<string, seq<CsvRow>>)
    requires |Lines(content)| >= 1
    requires GroupsOf(DataRows(HeaderNames(Lines(content)[0]), Lines(content)[1..]), RowKey, keys, groups)
    ensures keys == GroupKeys(content) && groups == GroupMap(content)
  {
    var lines := Lines(content);
    GroupsAsMap(DataRows(HeaderNames(lines[0]), lines[1..]), RowKey, keys, groups);
  }

  /**
   * A completed import of an upload: one outcome per group of its data lines,
   * each reporting its group, and the counters and error list adding them up.
   */
  ghost predicate Completed(content: string, stats: Stats, allErrors: seq<ImportError>, outcomes: seq<GroupOutcome>) {
    |Lines(content)| >= 2 &&
    |outcomes| == |GroupKeys(content)| == stats.processed &&
    AllReported(GroupKeys(content), GroupMap(content), outcomes) &&
    Tallied(outcomes, stats.created, stats.updated, stats.typologies, allErrors) &&
    stats.errors == |allErrors|
  }

  /**
   * The tables after importing an upload: the groups of its data lines
   * imported one after the other from the tables `p0` and `t0`.
   */
  ghost predicate ImportedUpload(content: string, p0: State, t0: State, acceptsP: Fields -> bool, acceptsT: Fields -> bool,
                                 now: string, p: State, t: State, outcomes: seq<GroupOutcome>) {
    |Lines(content)| >= 1 && GroupsGiven(GroupKeys(content), GroupMap(content)) &&
    (p, t, outcomes) == ImportFold(GroupKeys(content), GroupMap(content), p0, t0, acceptsP, acceptsT, now)
  }

  /**
   * `POST /api/admin/import-tinsa` once the caller is an administrator: a
   * missing file, a name not ending in `.csv` and fewer than two non-blank
   * lines are 400s that touch nothing; otherwise one outcome per group of the
   * upload, the counts adding up those outcomes, and the first ten of their
   * messages returned.  `now` is the request's clock reading; `allErrors` is
   * the whole error list.
   */
  method Post(file: Option<Upload>, projects: Table, typologies: Table, now: string)
      returns (response: Response, ghost allErrors: seq<ImportError>, ghost outcomes: seq<GroupOutcome>)
    requires projects != typologies && projects.Valid() && typologies.Valid()
    modifies projects, typologies
    ensures projects.Valid() && typologies.Valid()
    ensures response == BadRequest(NoFile) <==> file.None?
    ensures response == BadRequest(NotCsv) <==> file.Some? && !EndsWith(file.value.name, ".csv")
    ensures response == BadRequest(NoDataRows) <==> file.Some? && EndsWith(file.value.name, ".csv") && |Lines(file.value.content)| < 2
    ensures response.BadRequest? ==> unchanged(projects, typologies)
    ensures response.Complete? ==>
      file.Some? && Completed(file.value.content, response.stats, allErrors, outcomes) &&
      ImportedUpload(file.value.content, old(projects.Snapshot()), old(typologies.Snapshot()), projects.accepts, typologies.accepts,
                     now, projects.Snapshot(), typologies.Snapshot(), outcomes) &&
      response.stats.created + response.stats.updated + CountOf(allErrors, IsGroupError) == response.stats.processed &&
      response.errors == Take(allErrors, 10)
    ensures Extends(old(projects.Snapshot()), projects.Snapshot())
    ensures ExtendsKeys(old(typologies.Snapshot()), typologies.Snapshot(), TypologyKey)
  {
    allErrors, outcomes := [], [];
    if file.None? {
      return BadRequest(NoFile), allErrors, outcomes;
    }
    if !EndsWith(file.value.name, ".csv") {
      return BadRequest(NotCsv), allErrors, outcomes;
    }
    var lines := Lines(file.value.content);
    if |lines| < 2 {
      return BadRequest(NoDataRows), allErrors, outcomes;
    }
    var header := HeaderNames(lines[0]);
    var keys, groups := GroupRows(header, lines[1..]);
    forall i | 0 <= i < |keys|
      ensures keys[i] in groups && groups[keys[i]] != []
    {
      MembersNonEmpty(DataRows(header, lines[1..]), RowKey, keys[i]);
    }
    UploadGroups(file.value.content, keys, groups);
    var stats, errors;
    stats, errors, outcomes := ImportGroups(keys, groups, projects, typologies, now);
    allErrors := errors;
    response := Complete(stats, Take(errors, 10));
  }
}
