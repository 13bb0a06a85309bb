/**
 * `transform_projects` of backend/app/etl/tinsa_importer.py: every CSV row is
 * one typology of one project in one period.  The rows are ordered latest
 * period first, grouped per (PROYECTO, COMUNA_INCOIN), and each group gives
 * one project record, built from the rows of its latest period, and one
 * typology record per such row that carries a typology code.
 *
 * Records are the dictionaries the importer builds: column name to value,
 * with `VNull` for Python's `None`.
 */
module TinsaTransform {
  import opened Wrappers
  import opened Text
  import opened Numeric
  import opened Collections
  import opened Storage
  import opened TinsaParsers

  /** A CSV row: column name to cell; a column the file lacks is absent. */
  type CsvRow = map<string, Cell>

  /** `row.get(col)`: the cell, `None` for a column the file lacks. */
  function Get(row: CsvRow, col: string): Cell {
    if col in row then row[col] else None
  }

  /** `row.get(a, row.get(b))`: column `a` when the file has it, even when the cell is NaN. */
  function GetOr(row: CsvRow, a: string, b: string): Cell {
    if a in row then row[a] else Get(row, b)
  }

  /** Python `str()` of a cell: NaN prints as `"nan"`. */
  function StrOf(c: Cell): string {
    match c
    case None => "nan"
    case Some(s) => s
  }

  /** `str(row.get(col, ""))`. */
  function GetText(row: CsvRow, col: string): string {
    if col in row then StrOf(row[col]) else ""
  }

  /** `str(row.get(a, row.get(b, "")))`. */
  function GetOrText(row: CsvRow, a: string, b: string): string {
    if a in row then StrOf(row[a]) else GetText(row, b)
  }

  // ---------------------------------------------------------------------------
  // Ordering rows latest period first
  // ---------------------------------------------------------------------------

  /** `pd.to_numeric(AÑO, errors="coerce").fillna(0).astype(int)`. */
  function YearOf(row: CsvRow): int {
    match Get(row, "AÑO")
    case None => 0
    case Some(s) =>
      match PyFloat(s)
      case None => 0
      case Some(x) => Trunc(x)
  }

  function DigitValue(c: char): (d: nat)
    requires IsDigit(c)
    ensures d <= 9
  {
    c as int - '0' as int
  }

  /**
   * The period rank as written: the leading digit of the stripped label, read
   * with `int(str(x)[0])` from the unstripped label.  `None` stands for the
   * `ValueError` raised when the label starts with whitespace.
   */
  function PeriodRankAsWritten(c: Cell): Option<nat> {
    var s := StrOf(c);
    var t := Strip(s);
    if s != [] && t != [] && IsDigit(t[0]) then
      if IsDigit(s[0]) then Some(DigitValue(s[0])) else None
    else Some(0)
  }

  /** The period rank: the leading digit of the stripped label (`"2P"` is 2), else 0. */
  function PeriodRank(c: Cell): (r: nat)
    ensures r <= 9
    ensures r > 0 ==> Strip(StrOf(c)) != [] && IsDigit(Strip(StrOf(c))[0]) && r == DigitValue(Strip(StrOf(c))[0])
  {
    var t := Strip(StrOf(c));
    if t != [] && IsDigit(t[0]) then DigitValue(t[0]) else 0
  }

  /** Both readings agree whenever the label does not start with whitespace. */
  lemma PeriodRankAgrees(c: Cell)
    requires StrOf(c) == [] || !IsSpace(StrOf(c)[0])
    ensures PeriodRankAsWritten(c) == Some(PeriodRank(c))
  {
    var s := StrOf(c);
    if s != [] {
      TrimStartNoSpace(s);
      var t := Strip(s);
      StripHead(s);
    }
  }

  lemma TrimStartNoSpace(s: string)
    requires s != [] && !IsSpace(s[0])
    ensures TrimStart(s) == s
  {
  }

  /** A non-empty strip of a string that does not start with a space starts with its first character. */
  lemma StripHead(s: string)
    requires s != [] && !IsSpace(s[0])
    ensures Strip(s) != [] && Strip(s)[0] == s[0]
  {
    TrimStartNoSpace(s);
  }

  /** A label with leading whitespace and a digit makes the as-written rank raise. */
  lemma PeriodRankLeadingSpace()
    ensures PeriodRankAsWritten(Some(" 2P")) == None
    ensures PeriodRank(Some(" 2P")) == 2
  {
    StripLeadingSpace();
  }

  lemma StripLeadingSpace()
    ensures Strip(" 2P") == "2P"
  {
  }

  /** The sort key: year first, then period rank (a single digit). */
  function SortKey(row: CsvRow): real {
    (YearOf(row) * 10 + PeriodRank(Get(row, "PERIODO"))) as real
  }

  /** Descending by the key is descending by year, then by period rank. */
  lemma SortKeyOrder(a: CsvRow, b: CsvRow)
    ensures SortKey(a) >= SortKey(b) <==>
              (YearOf(a) > YearOf(b)
               || (YearOf(a) == YearOf(b) && PeriodRank(Get(a, "PERIODO")) >= PeriodRank(Get(b, "PERIODO"))))
  {
  }

  /** `sort_values(["_year", "_period_sort"], ascending=False)`, stable. */
  function LatestFirst(rows: seq<CsvRow>): (r: seq<CsvRow>)
    ensures multiset(r) == multiset(rows)
  {
    Sort(rows, ByKeyDesc(SortKey))
  }

  lemma LatestFirstSorted(rows: seq<CsvRow>)
    ensures Sorted(LatestFirst(rows), ByKeyDesc(SortKey))
  {
    ByKeyDescPreorder(SortKey);
    SortSorted(rows, ByKeyDesc(SortKey));
  }

  // ---------------------------------------------------------------------------
  // Grouping and the latest period of a group
  // ---------------------------------------------------------------------------

  /** pandas `groupby` drops rows whose key has a NaN. */
  predicate HasGroupKey(row: CsvRow) {
    Get(row, "PROYECTO").Some? && Get(row, "COMUNA_INCOIN").Some?
  }

  /** The (name, commune) key of a row that has one. */
  function GroupKey(row: CsvRow): (string, string) {
    (Get(row, "PROYECTO").GetOr(""), Get(row, "COMUNA_INCOIN").GetOr(""))
  }

  /** The rows that enter the grouping, latest period first. */
  function Grouped(rows: seq<CsvRow>): (g: seq<CsvRow>)
    ensures forall i :: 0 <= i < |g| ==> HasGroupKey(g[i])
  {
    Filter(LatestFirst(rows), HasGroupKey)
  }

  /** The groups, in order of first appearance (`sort=False`). */
  function GroupKeys(rows: seq<CsvRow>): seq<(string, string)> {
    Keys(Grouped(rows), GroupKey)
  }

  function Group(rows: seq<CsvRow>, k: (string, string)): seq<CsvRow> {
    Members(Grouped(rows), GroupKey, k)
  }

  /** The rows of a group are in latest-period-first order. */
  lemma GroupSorted(rows: seq<CsvRow>, k: (string, string))
    ensures Sorted(Group(rows, k), ByKeyDesc(SortKey))
  {
    LatestFirstSorted(rows);
    FilterSorted(LatestFirst(rows), ByKeyDesc(SortKey), HasGroupKey);
    MembersSorted(Grouped(rows), GroupKey, k, ByKeyDesc(SortKey));
  }

  /** `not project_name or not commune or str(project_name) == "nan"`. */
  predicate Skipped(k: (string, string)) {
    k.0 == "" || k.1 == "" || k.0 == "nan"
  }

  /** The rows sharing the first row's year and PERIODO, with pandas' `==` (NaN equals nothing). */
  function LatestRowsAsWritten(group: seq<CsvRow>): seq<CsvRow>
    requires group != []
  {
    var y := YearOf(group[0]);
    var p := Get(group[0], "PERIODO");
    Filter(group, r => YearOf(r) == y && p.Some? && Get(r, "PERIODO") == p)
  }

  /** When the first row's PERIODO is NaN no row is retained, and `latest_rows.iloc[0]` raises. */
  lemma LatestRowsAsWrittenNaN(group: seq<CsvRow>)
    requires group != [] && Get(group[0], "PERIODO").None?
    ensures LatestRowsAsWritten(group) == []
  {
    var y := YearOf(group[0]);
    var p := Get(group[0], "PERIODO");
    FilterNone(group, r => YearOf(r) == y && p.Some? && Get(r, "PERIODO") == p);
  }

  /** The rows sharing the first row's year and PERIODO, NaN matching NaN. */
  function LatestRows(group: seq<CsvRow>): (r: seq<CsvRow>)
    requires group != []
    ensures forall i :: 0 <= i < |r| ==> YearOf(r[i]) == YearOf(group[0]) && Get(r[i], "PERIODO") == Get(group[0], "PERIODO")
  {
    var y := YearOf(group[0]);
    var p := Get(group[0], "PERIODO");
    Filter(group, r => YearOf(r) == y && Get(r, "PERIODO") == p)
  }

  /** The first row of a group is always retained, and comes first. */
  lemma LatestRowsHead(group: seq<CsvRow>)
    requires group != []
    ensures LatestRows(group) != [] && LatestRows(group)[0] == group[0]
  {
    var y := YearOf(group[0]);
    var p := Get(group[0], "PERIODO");
    assert group == [group[0]] + group[1..];
    FilterCons(group[0], group[1..], r => YearOf(r) == y && Get(r, "PERIODO") == p);
  }

  /** Only the latest period survives: no row of a sorted group ranks above a retained row. */
  lemma LatestRowsAreLatest(group: seq<CsvRow>, i: nat)
    requires i < |group| && Sorted(group, ByKeyDesc(SortKey))
    ensures forall j :: 0 <= j < |LatestRows(group)| ==> SortKey(LatestRows(group)[j]) >= SortKey(group[i])
  {
    var l := LatestRows(group);
    forall j | 0 <= j < |l|
      ensures SortKey(l[j]) >= SortKey(group[i])
    {
      assert SortKey(l[j]) == SortKey(group[0]);
      if i > 0 {
        assert ByKeyDesc(SortKey)(group[0], group[i]);
      }
    }
  }

  /** The rows a group keeps are those of its latest year and period. */
  lemma GroupLatest(rows: seq<CsvRow>, k: (string, string), i: nat)
    requires i < |Group(rows, k)|
    ensures forall j :: 0 <= j < |LatestRows(Group(rows, k))| ==>
              SortKey(LatestRows(Group(rows, k))[j]) >= SortKey(Group(rows, k)[i])
  {
    GroupSorted(rows, k);
    LatestRowsAreLatest(Group(rows, k), i);
  }

  // ---------------------------------------------------------------------------
  // Aggregation over the latest rows
  // ---------------------------------------------------------------------------

  /** `sum(parse_chilean_int(r.get(a, r.get(b))) or 0 for r in rows)`. */
  function SumUnits(rows: seq<CsvRow>, a: string, b: string): int {
    SumInt(rows, r => ParseChileanInt(GetOr(r, a, b)).GetOr(0))
  }

  /** The sums do not depend on the order of the rows. */
  lemma SumUnitsPermutation(rows: seq<CsvRow>, rows': seq<CsvRow>, a: string, b: string)
    requires multiset(rows) == multiset(rows')
    ensures SumUnits(rows, a, b) == SumUnits(rows', a, b)
  {
    SumIntPermutation(rows, rows', r => ParseChileanInt(GetOr(r, a, b)).GetOr(0));
  }

  predicate IsPositive(v: Option<real>) {
    v.Some? && v.value > 0.0
  }

  function ValueOrZero(v: Option<real>): real {
    v.GetOr(0.0)
  }

  /** The parsed values of one column over the rows, `r.get(a, r.get(b))`. */
  function ColumnValues(rows: seq<CsvRow>, a: string, b: string): (vs: seq<Option<real>>)
    ensures |vs| == |rows|
    ensures forall i :: 0 <= i < |rows| ==> vs[i] == ParseChileanNumber(GetOr(rows[i], a, b))
  {
    seq(|rows|, i requires 0 <= i < |rows| => ParseChileanNumber(GetOr(rows[i], a, b)))
  }

  /** The mean of the strictly positive values, `None` when there is none. */
  function MeanPositive(vs: seq<Option<real>>): (r: Option<real>)
    ensures r.Some? <==> exists i :: 0 <= i < |vs| && IsPositive(vs[i])
    ensures r.Some? ==> r.value > 0.0
    ensures r.Some? ==> r.value * CountOf(vs, IsPositive) as real == SumOf(Filter(vs, IsPositive), ValueOrZero)
  {
    var ps := Filter(vs, IsPositive);
    FilterMembersExist(vs, IsPositive);
    if ps == [] then None
    else
      MeanOfPositives(ps);
      MeanOf(ps, ValueOrZero)
  }

  /** A mean of positive values is positive. */
  lemma MeanOfPositives(ps: seq<Option<real>>)
    requires ps != [] && forall i :: 0 <= i < |ps| ==> IsPositive(ps[i])
    ensures MeanOf(ps, ValueOrZero).value > 0.0
  {
    MeanBetween(ps, ValueOrZero);
  }

  /** A positive value exists exactly when the filtered list is non-empty. */
  lemma FilterMembersExist(vs: seq<Option<real>>, p: Option<real> -> bool)
    ensures Filter(vs, p) != [] <==> exists i :: 0 <= i < |vs| && p(vs[i])
  {
    FilterMembers(vs, p);
    var f := Filter(vs, p);
    if f != [] {
      assert f[0] in multiset(vs);
      var j :| 0 <= j < |vs| && vs[j] == f[0];
      assert p(vs[j]);
    }
  }

  /** The smallest strictly positive value. */
  function MinPositive(vs: seq<Option<real>>): (r: Option<real>)
    ensures r.Some? <==> exists i :: 0 <= i < |vs| && IsPositive(vs[i])
    ensures r.Some? ==> r.value > 0.0
    ensures r.Some? ==> forall i :: 0 <= i < |vs| && IsPositive(vs[i]) ==> r.value <= vs[i].value
    ensures r.Some? ==> exists i :: 0 <= i < |vs| && vs[i] == Some(r.value)
  {
    var ps := Filter(vs, IsPositive);
    FilterMembersExist(vs, IsPositive);
    if ps == [] then None
    else
      var m := MinOf(ps, ValueOrZero);
      PositiveMembers(vs);
      Some(m)
  }

  /** The largest strictly positive value. */
  function MaxPositive(vs: seq<Option<real>>): (r: Option<real>)
    ensures r.Some? <==> exists i :: 0 <= i < |vs| && IsPositive(vs[i])
    ensures r.Some? ==> r.value > 0.0
    ensures r.Some? ==> forall i :: 0 <= i < |vs| && IsPositive(vs[i]) ==> vs[i].value <= r.value
    ensures r.Some? ==> exists i :: 0 <= i < |vs| && vs[i] == Some(r.value)
  {
    var ps := Filter(vs, IsPositive);
    FilterMembersExist(vs, IsPositive);
    if ps == [] then None
    else
      var m := MaxOf(ps, ValueOrZero);
      PositiveMembers(vs);
      Some(m)
  }

  /** The positive values are exactly the members of the filtered list. */
  lemma PositiveMembers(vs: seq<Option<real>>)
    ensures forall i :: 0 <= i < |vs| && IsPositive(vs[i]) ==> vs[i] in Filter(vs, IsPositive)
    ensures forall x :: x in Filter(vs, IsPositive) ==> x in vs && IsPositive(x)
  {
    FilterMembers(vs, IsPositive);
    var f := Filter(vs, IsPositive);
    forall x | x in f
      ensures x in vs && IsPositive(x)
    {
      assert x in multiset(vs);
      var j :| 0 <= j < |f| && f[j] == x;
    }
  }

  /** The mean of the positive prices lies between their minimum and maximum. */
  lemma PriceMeanBetween(vs: seq<Option<real>>)
    requires exists i :: 0 <= i < |vs| && IsPositive(vs[i])
    ensures MinPositive(vs).value <= MeanPositive(vs).value <= MaxPositive(vs).value
  {
    var ps := Filter(vs, IsPositive);
    FilterMembersExist(vs, IsPositive);
    MeanBetween(ps, ValueOrZero);
  }

  /** `x if x > 0 else None` for a unit total. */
  function PositiveOrNull(n: int): (v: Value)
    ensures v == VNull <==> n <= 0
  {
    if n > 0 then VInt(n) else VNull
  }

  function IntValue(o: Option<int>): Value {
    match o
    case None => VNull
    case Some(n) => VInt(n)
  }

  function RealValue(o: Option<real>): Value {
    match o
    case None => VNull
    case Some(x) => VReal(x)
  }

  function BoolValue(o: Option<bool>): Value {
    match o
    case None => VNull
    case Some(b) => VBool(b)
  }

  function TextValue(o: Option<string>): Value {
    match o
    case None => VNull
    case Some(s) => VStr(s)
  }

  /** `str(x).strip() or None`. */
  function StrippedOrNull(s: string): Value {
    var t := Strip(s);
    if t == "" then VNull else VStr(t)
  }

  // ---------------------------------------------------------------------------
  // Cleaning of text fields
  // ---------------------------------------------------------------------------

  /** The strings the cleaning step replaces by `None`: `"nan"`, `"none"` in any case, and `""`. */
  predicate IsNoneText(s: string) {
    var l := Lower(s);
    l == "nan" || l == "none" || l == ""
  }

  function CleanValue(v: Value): (r: Value)
    ensures !(r.VStr? && IsNoneText(r.s))
    ensures !v.VStr? ==> r == v
    ensures v.VStr? && !IsNoneText(v.s) ==> r == v
  {
    if v.VStr? && IsNoneText(v.s) then VNull else v
  }

  /** The cleaning loop over a record: a none-like string becomes `None`, nothing else changes. */
  function Clean(f: Fields): (r: Fields)
    ensures r.Keys == f.Keys
    ensures forall k :: k in r ==> r[k] == CleanValue(f[k])
  {
    map k | k in f :: CleanValue(f[k])
  }

  /** No string field of a cleaned record is none-like. */
  lemma CleanHasNoNoneText(f: Fields)
    ensures forall k :: k in Clean(f) && Clean(f)[k].VStr? ==> !IsNoneText(Clean(f)[k].s)
  {
  }

  // ---------------------------------------------------------------------------
  // Project records
  // ---------------------------------------------------------------------------

  /** `int(latest_year) if latest_year else None`. */
  function YearValue(y: int): Value {
    if y != 0 then VInt(y) else VNull
  }

  /** `str(latest_period).strip() if latest_period else None`: NaN is truthy and prints as `nan`. */
  function PeriodValue(p: Cell): Value {
    match p
    case None => VStr("nan")
    case Some(s) => if s == "" then VNull else VStr(Strip(s))
  }

  /** The project record of the group `k`: `row` is the first of its latest rows `rows`. */
  function ProjectRecord(k: (string, string), row: CsvRow, rows: seq<CsvRow>): Fields {
    var coords := FixCoordinatesSpec(Get(row, "LATITUD"), Get(row, "LONGITUD"));
    var stock := SumUnits(rows, "STOCK INICIAL", "STOCK INICIAL (PERIODO)");
    var available := SumUnits(rows, "OFERTA DISPONIBLE (PERIODO)", "OFERTA DISPONIBLE");
    var sold := SumUnits(rows, "UNIDADES VENDIDAS (PERIODO)", "UNIDADES VENDIDAS");
    var offer := SumUnits(rows, "OFERTA DEL PERIODO", "OFERTA DEL PERIODO");
    Clean(map[
      "name" := VStr(Strip(k.0)),
      "commune" := VStr(Strip(k.1)),
      "region" := StrippedOrNull(GetText(row, "REGION")),
      "zona" := StrippedOrNull(GetText(row, "ZONA")),
      "address" := StrippedOrNull(GetText(row, "DIRECCION")),
      "street_number" := StrippedOrNull(GetText(row, "NUMERO")),
      "developer" := StrippedOrNull(GetText(row, "DESARROLLADOR")),
      "seller" := StrippedOrNull(GetText(row, "VENDE")),
      "builder" := StrippedOrNull(GetText(row, "CONSTRUYE")),
      "property_type" := StrippedOrNull(GetText(row, "TIPO DE PROPIEDAD")),
      "category" := StrippedOrNull(GetText(row, "TIPO CATEGORIA")),
      "project_status" := StrippedOrNull(GetOrText(row, "ESTADO PROYECTO (PERIODO)", "ESTADO PROYECTO")),
      "construction_status" := StrippedOrNull(GetOrText(row, "ESTADO OBRA (PERIODO)", "ESTADO OBRA")),
      "latitude" := if coords.Some? then VReal(coords.value.0) else VNull,
      "longitude" := if coords.Some? then VReal(coords.value.1) else VNull,
      "year" := YearValue(YearOf(row)),
      "period" := PeriodValue(Get(row, "PERIODO")),
      "sales_start_date" := TextValue(ParseDateSpec(Get(row, "INICIO VENTAS"))),
      "delivery_date" := TextValue(ParseDateSpec(Get(row, "FECHA ENTREGA ESTIMADA"))),
      "initial_stock" := PositiveOrNull(stock),
      "total_units" := PositiveOrNull(stock),
      "available_units" := VInt(available),
      "sold_units" := VInt(sold),
      "period_offer" := PositiveOrNull(offer),
      "sales_speed_monthly" := RealValue(MeanPositive(ColumnValues(rows, "UNIDADES/MES (AÑO)", "UNIDADES/MES (A)"))),
      "velocity_projected" := RealValue(MeanPositive(ColumnValues(rows, "UNIDADES/MES (PERIODO)", "UNIDADES/MES (P)"))),
      "months_to_sell_out" := RealValue(ParseChileanNumber(GetOr(row, "MESES PARA AGOTAR STOCK (PERIODO)", "MESES PARA AGOTAR STOCK (A)"))),
      "months_on_sale" := RealValue(ParseChileanNumber(GetOr(row, "MESES EN VENTA (PERIODO)", "MESES EN VENTA"))),
      "min_price_uf" := RealValue(MinPositive(ColumnValues(rows, "PRECIO MINIMO UF", "PRECIO MINIMO UF"))),
      "max_price_uf" := RealValue(MaxPositive(ColumnValues(rows, "PRECIO MAXIMO UF", "PRECIO MAXIMO UF"))),
      "avg_price_uf" := RealValue(MeanPositive(ColumnValues(rows, "PRECIO PROMEDIO", "PRECIO PROMEDIO"))),
      "avg_price_m2_uf" := RealValue(MeanPositive(ColumnValues(rows, "UF/M² PROMEDIO", "UF/M² PROMEDIO"))),
      "total_floors" := IntValue(ParseChileanInt(Get(row, "NRO. PISOS"))),
      "total_apartments" := PositiveOrNull(stock),
      "parking_count" := IntValue(ParseChileanInt(Get(row, "CANT ESTACIONAMIENTOS"))),
      "parking_price" := RealValue(ParseChileanNumber(Get(row, "PRECIO ESTACIONAMIENTO"))),
      "storage_price" := RealValue(ParseChileanNumber(Get(row, "PRECIO BODEGA"))),
      "pilot_available" := BoolValue(ParseBoolean(Get(row, "PILOTO DISPONIBLE"))),
      "sales_room" := BoolValue(ParseBoolean(Get(row, "SALA DE VENTAS EN EL PROYECTO"))),
      "discount_percentage" := RealValue(ParsePercentage(Get(row, "DESCUENTO PROMEDIO"))),
      "subsidy_type" := StrippedOrNull(GetText(row, "TIPO DE SUBSIDIO"))
    ])
  }

  // ---------------------------------------------------------------------------
  // Typology records
  // ---------------------------------------------------------------------------

  /** Length of the run of digits at the start of `s`. */
  function DigitRun(s: string): (n: nat)
    ensures n <= |s|
    ensures AllDigits(s[..n])
    ensures n < |s| ==> !IsDigit(s[n])
  {
    if s != [] && IsDigit(s[0]) then
      var n := 1 + DigitRun(s[1..]);
      assert s[..n] == [s[0]] + s[1..][..n - 1];
      n
    else 0
  }

  /** `re.match(r"(\d+)D[+-](\d+)B", code)`: bedrooms and bathrooms at the start of the code. */
  function MatchTypology(code: string): (r: Option<(nat, nat)>)
  {
    var n := DigitRun(code);
    if n == 0 || n + 1 >= |code| || code[n] != 'D' || (code[n + 1] != '+' && code[n + 1] != '-') then None
    else
      var rest := code[n + 2..];
      var m := DigitRun(rest);
      if m == 0 || m >= |rest| || rest[m] != 'B' then None
      else Some((DigitsValue(code[..n]), DigitsValue(rest[..m])))
  }

  /** A code made of two digit runs around `D+` or `D-` and a `B` reads as those runs. */
  lemma MatchTypologyOf(a: string, sep: char, b: string, tail: string)
    requires a != [] && AllDigits(a) && b != [] && AllDigits(b)
    requires sep == '+' || sep == '-'
    ensures MatchTypology(a + ['D', sep] + b + "B" + tail) == Some((DigitsValue(a), DigitsValue(b)))
  {
    var rest := b + "B" + tail;
    var code := a + ['D', sep] + rest;
    assert a + ['D', sep] + b + "B" + tail == code;
    assert code == a + (['D', sep] + rest);
    DigitRunOf(a, ['D', sep] + rest);
    var n := DigitRun(code);
    assert n == |a|;
    assert code[n] == 'D' && code[n + 1] == sep;
    assert code[..n] == a;
    assert code[n + 2..] == rest;
    assert rest == b + ("B" + tail);
    DigitRunOf(b, "B" + tail);
    assert rest[..|b|] == b;
    assert rest[|b|] == 'B';
  }

  /** A code written from two counts reads back as those counts, whatever follows it. */
  lemma MatchTypologyRoundTrip(beds: nat, baths: nat, sep: char, tail: string)
    requires sep == '+' || sep == '-'
    ensures MatchTypology(NatToString(beds) + ['D', sep] + NatToString(baths) + "B" + tail) == Some((beds, baths))
  {
    DigitsValueOfNatToString(beds);
    DigitsValueOfNatToString(baths);
    MatchTypologyOf(NatToString(beds), sep, NatToString(baths), tail);
  }

  /** The digit run of digits followed by a non-digit is the digits. */
  lemma {:induction false} DigitRunOf(a: string, b: string)
    requires AllDigits(a) && (b == [] || !IsDigit(b[0]))
    ensures DigitRun(a + b) == |a|
  {
    if a != [] {
      assert (a + b)[1..] == a[1..] + b;
      DigitRunOf(a[1..], b);
    } else {
      assert a + b == b;
    }
  }

  /** A code that does not start with a digit has no counts. */
  lemma MatchTypologyNoDigit(code: string)
    requires code == [] || !IsDigit(code[0])
    ensures MatchTypology(code) == None
  {
  }

  /** `surface - terrace if surface and terrace else surface` (rounding not modelled). */
  function SurfaceIndoor(surface: Option<real>, terrace: Option<real>): (r: Option<real>)
    ensures Truthy(surface) && Truthy(terrace) ==> r == Some(surface.value - terrace.value)
    ensures !(Truthy(surface) && Truthy(terrace)) ==> r == surface
  {
    if Truthy(surface) && Truthy(terrace) then Some(surface.value - terrace.value) else surface
  }

  /** The stripped typology code of a row. */
  function TypologyCode(row: CsvRow): string {
    Strip(GetText(row, "TIPOLOGIA"))
  }

  /** A row gives a typology when its code is neither empty nor `"nan"`. */
  predicate HasTypology(row: CsvRow) {
    var c := TypologyCode(row);
    c != "" && c != "nan"
  }

  /** `str(trow.get("NOMBRE TIPOLOGIA", "")).strip() or typ_code`. */
  function TypologyName(row: CsvRow): string {
    var n := Strip(GetText(row, "NOMBRE TIPOLOGIA"));
    if n == "" then TypologyCode(row) else n
  }

  /** The typology record of a retained row of the group with key `k`. */
  function TypologyRecord(k: (string, string), row: CsvRow): Fields {
    var code := TypologyCode(row);
    var counts := MatchTypology(code);
    var surface := ParseChileanNumber(Get(row, "SUPERFICIE PROMEDIO"));
    var terrace := ParseChileanNumber(Get(row, "SUP TERRAZA PROMEDIO"));
    Clean(map[
      "_project_name" := VStr(Strip(k.0)),
      "_project_commune" := VStr(Strip(k.1)),
      "name" := VStr(TypologyName(row)),
      "typology_code" := VStr(code),
      "bedrooms" := if counts.Some? then VInt(counts.value.0) else VNull,
      "bathrooms" := if counts.Some? then VInt(counts.value.1) else VNull,
      "surface_total" := RealValue(surface),
      "surface_indoor" := RealValue(SurfaceIndoor(surface, terrace)),
      "surface_terrace" := RealValue(terrace),
      "land_surface" := RealValue(ParseChileanNumber(Get(row, "SUPERFICIE TERRENO"))),
      "kitchen_type" := StrippedOrNull(GetText(row, "TIPO DE COCINA")),
      "parking_spots" := IntValue(ParseChileanInt(Get(row, "PLAZAS"))),
      "avg_price_uf" := RealValue(ParseChileanNumber(Get(row, "PRECIO PROMEDIO"))),
      "price_per_m2_uf" := RealValue(ParseChileanNumber(Get(row, "UF/M² PROMEDIO"))),
      "min_price_uf" := RealValue(ParseChileanNumber(Get(row, "PRECIO MINIMO UF"))),
      "max_price_uf" := RealValue(ParseChileanNumber(Get(row, "PRECIO MAXIMO UF"))),
      "current_price_uf" := RealValue(ParseChileanNumber(Get(row, "PRECIO PROMEDIO"))),
      "stock" := IntValue(ParseChileanInt(GetOr(row, "OFERTA DISPONIBLE (PERIODO)", "OFERTA DISPONIBLE"))),
      "total_units" := IntValue(ParseChileanInt(GetOr(row, "STOCK INICIAL (PERIODO)", "STOCK INICIAL")))
    ])
  }

  /** A typology record that names its project, as `insert_typologies` expects. */
  predicate CarriesParent(t: Fields) {
    "_project_name" in t && "_project_commune" in t
  }

  lemma TypologyRecordCarriesParent(k: (string, string), row: CsvRow)
    ensures CarriesParent(TypologyRecord(k, row))
  {
  }

  /** Builds the record of a group from its key, its first latest row and all its latest rows. */
  type ProjectBuilder = ((string, string), CsvRow, seq<CsvRow>) -> Fields

  /** Builds the record of one typology row of a group. */
  type TypologyBuilder = ((string, string), CsvRow) -> Fields

  /** The typology records of the latest rows of a group, one per row with a code, in row order. */
  function TypologiesOf(k: (string, string), rows: seq<CsvRow>, typology: TypologyBuilder): (r: seq<Fields>)
    ensures |r| == CountOf(rows, HasTypology)
  {
    if rows == [] then []
    else
      var last := rows[|rows| - 1];
      TypologiesOf(k, rows[..|rows| - 1], typology) + (if HasTypology(last) then [typology(k, last)] else [])
  }

  /** Every typology record comes from a latest row that has a code. */
  lemma {:induction false} TypologiesFromRows(k: (string, string), rows: seq<CsvRow>, typology: TypologyBuilder, i: nat)
    returns (j: nat)
    requires i < |TypologiesOf(k, rows, typology)|
    ensures j < |rows| && HasTypology(rows[j]) && TypologiesOf(k, rows, typology)[i] == typology(k, rows[j])
  {
    var init := rows[..|rows| - 1];
    var last := rows[|rows| - 1];
    var prev := TypologiesOf(k, init, typology);
    var tail := if HasTypology(last) then [typology(k, last)] else [];
    var all := TypologiesOf(k, rows, typology);
    assert all == prev + tail;
    if i < |prev| {
      j := TypologiesFromRows(k, init, typology, i);
      assert all[i] == prev[i];
      assert rows[j] == init[j];
    } else {
      assert HasTypology(last) && tail == [typology(k, last)];
      j := |rows| - 1;
      assert all[i] == tail[0];
    }
  }

  // ---------------------------------------------------------------------------
  // The whole transformation
  // ---------------------------------------------------------------------------

  /** What `transform_projects` returns, with the count of skipped groups it prints. */
  datatype Transformed = Transformed(projects: seq<Fields>, typologies: seq<Fields>, skipped: nat)

  /** The groups `ks` of the grouped rows `g`, processed in order. */
  function TransformGroups(g: seq<CsvRow>, ks: seq<(string, string)>, project: ProjectBuilder, typology: TypologyBuilder): (r: Transformed)
    requires forall i :: 0 <= i < |ks| ==> Members(g, GroupKey, ks[i]) != []
    ensures |r.projects| + r.skipped == |ks|
  {
    if ks == [] then Transformed([], [], 0)
    else
      var k := ks[|ks| - 1];
      var prev := TransformGroups(g, ks[..|ks| - 1], project, typology);
      if Skipped(k) then prev.(skipped := prev.skipped + 1)
      else
        var latest := LatestRows(Members(g, GroupKey, k));
        LatestRowsHead(Members(g, GroupKey, k));
        Transformed(prev.projects + [project(k, latest[0], latest)],
                    prev.typologies + TypologiesOf(k, latest, typology),
                    prev.skipped)
  }

  lemma GroupsNonEmpty(rows: seq<CsvRow>)
    ensures forall i :: 0 <= i < |GroupKeys(rows)| ==> Group(rows, GroupKeys(rows)[i]) != []
  {
    forall i | 0 <= i < |GroupKeys(rows)|
      ensures Group(rows, GroupKeys(rows)[i]) != []
    {
      MembersNonEmpty(Grouped(rows), GroupKey, GroupKeys(rows)[i]);
    }
  }

  /** `transform_projects` on the rows of a file. */
  function TransformSpec(rows: seq<CsvRow>): (r: Transformed)
    ensures |r.projects| + r.skipped == |GroupKeys(rows)|
  {
    GroupsNonEmpty(rows);
    TransformGroups(Grouped(rows), GroupKeys(rows), ProjectRecord, TypologyRecord)
  }

  /** `transform_projects`. */
  method TransformProjects(rows: seq<CsvRow>) returns (projects: seq<Fields>, typologies: seq<Fields>, skipped: nat)
    ensures Transformed(projects, typologies, skipped) == TransformSpec(rows)
  {
    GroupsNonEmpty(rows);
    projects, typologies, skipped := TransformLoop(Grouped(rows), GroupKeys(rows), ProjectRecord, TypologyRecord);
  }

  /** The loop over the groups: skip, or append one project and its typologies. */
  method TransformLoop(g: seq<CsvRow>, ks: seq<(string, string)>, project: ProjectBuilder, typology: TypologyBuilder)
    returns (projects: seq<Fields>, typologies: seq<Fields>, skipped: nat)
    requires forall i :: 0 <= i < |ks| ==> Members(g, GroupKey, ks[i]) != []
    ensures Transformed(projects, typologies, skipped) == TransformGroups(g, ks, project, typology)
  {
    projects, typologies, skipped := [], [], 0;
    for i := 0 to |ks|
      invariant Transformed(projects, typologies, skipped) == TransformGroups(g, ks[..i], project, typology)
    {
      var k := ks[i];
      TransformGroupsStep(g, ks, i, project, typology);
      if Skipped(k) {
        skipped := skipped + 1;
        continue;
      }
      var group := Members(g, GroupKey, k);
      var latest := LatestRows(group);
      LatestRowsHead(group);
      projects := projects + [project(k, latest[0], latest)];
      var ts := CollectTypologies(k, latest, typology);
      typologies := typologies + ts;
    }
    assert ks[..|ks|] == ks;
  }

  /** One more group: counted as skipped, or adding its project and its typologies. */
  lemma TransformGroupsStep(g: seq<CsvRow>, ks: seq<(string, string)>, i: nat, project: ProjectBuilder, typology: TypologyBuilder)
    requires i < |ks|
    requires forall j :: 0 <= j < |ks| ==> Members(g, GroupKey, ks[j]) != []
    ensures LatestRows(Members(g, GroupKey, ks[i])) != []
    ensures var prev := TransformGroups(g, ks[..i], project, typology);
            var k := ks[i];
            var latest := LatestRows(Members(g, GroupKey, k));
            TransformGroups(g, ks[..i + 1], project, typology) ==
              if Skipped(k) then prev.(skipped := prev.skipped + 1)
              else Transformed(prev.projects + [project(k, latest[0], latest)],
                               prev.typologies + TypologiesOf(k, latest, typology),
                               prev.skipped)
  {
    LatestRowsHead(Members(g, GroupKey, ks[i]));
    assert ks[..i + 1][..i] == ks[..i];
    assert ks[..i + 1][i] == ks[i];
  }

  /** The inner loop: one typology record per latest row that has a code, in row order. */
  method CollectTypologies(k: (string, string), latest: seq<CsvRow>, typology: TypologyBuilder) returns (ts: seq<Fields>)
    ensures ts == TypologiesOf(k, latest, typology)
  {
    ts := [];
    for j := 0 to |latest|
      invariant ts == TypologiesOf(k, latest[..j], typology)
    {
      assert latest[..j + 1][..j] == latest[..j];
      if HasTypology(latest[j]) {
        ts := ts + [typology(k, latest[j])];
      }
    }
    assert latest[..|latest|] == latest;
  }

  /** The number of typology rows a group contributes: none when it is skipped. */
  function KeptTypologies(g: seq<CsvRow>, k: (string, string)): nat {
    var group := Members(g, GroupKey, k);
    if Skipped(k) || group == [] then 0 else CountOf(LatestRows(group), HasTypology)
  }

  /** One typology per latest row with a code, over the kept groups. */
  lemma {:induction false} TypologyCount(g: seq<CsvRow>, ks: seq<(string, string)>, project: ProjectBuilder, typology: TypologyBuilder)
    requires forall i :: 0 <= i < |ks| ==> Members(g, GroupKey, ks[i]) != []
    ensures |TransformGroups(g, ks, project, typology).typologies| ==
              SumInt(ks, k => KeptTypologies(g, k))
  {
    if ks != [] {
      TypologyCount(g, ks[..|ks| - 1], project, typology);
    }
  }

  /** The project records are those of the kept groups, in group order. */
  lemma {:induction false} ProjectsOfKeptGroups(g: seq<CsvRow>, ks: seq<(string, string)>, project: ProjectBuilder, typology: TypologyBuilder)
    requires forall i :: 0 <= i < |ks| ==> Members(g, GroupKey, ks[i]) != []
    ensures |TransformGroups(g, ks, project, typology).projects| == CountOf(ks, k => !Skipped(k))
    ensures TransformGroups(g, ks, project, typology).skipped == CountOf(ks, Skipped)
  {
    if ks != [] {
      ProjectsOfKeptGroups(g, ks[..|ks| - 1], project, typology);
    }
  }

  lemma {:induction false} TypologiesCarryParent(k: (string, string), rows: seq<CsvRow>, typology: TypologyBuilder)
    requires forall k', row :: CarriesParent(typology(k', row))
    ensures forall i :: 0 <= i < |TypologiesOf(k, rows, typology)| ==> CarriesParent(TypologiesOf(k, rows, typology)[i])
  {
    if rows != [] {
      TypologiesCarryParent(k, rows[..|rows| - 1], typology);
    }
  }

  lemma {:induction false} GroupsCarryParent(g: seq<CsvRow>, ks: seq<(string, string)>, project: ProjectBuilder, typology: TypologyBuilder)
    requires forall i :: 0 <= i < |ks| ==> Members(g, GroupKey, ks[i]) != []
    requires forall k', row :: CarriesParent(typology(k', row))
    ensures forall i :: 0 <= i < |TransformGroups(g, ks, project, typology).typologies| ==>
              CarriesParent(TransformGroups(g, ks, project, typology).typologies[i])
  {
    if ks != [] {
      var k := ks[|ks| - 1];
      GroupsCarryParent(g, ks[..|ks| - 1], project, typology);
      if !Skipped(k) {
        LatestRowsHead(Members(g, GroupKey, k));
        TypologiesCarryParent(k, LatestRows(Members(g, GroupKey, k)), typology);
      }
    }
  }

  /** Every typology `transform_projects` emits names its project. */
  lemma TransformCarriesParent(rows: seq<CsvRow>)
    ensures forall i :: 0 <= i < |TransformSpec(rows).typologies| ==> CarriesParent(TransformSpec(rows).typologies[i])
  {
    forall k', row
      ensures CarriesParent(TypologyRecord(k', row))
    {
      TypologyRecordCarriesParent(k', row);
    }
    GroupsNonEmpty(rows);
    GroupsCarryParent(Grouped(rows), GroupKeys(rows), ProjectRecord, TypologyRecord);
  }
}
