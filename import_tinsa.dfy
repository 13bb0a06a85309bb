/**
 * The first-generation TINSA importer (backend/app/etl/import_tinsa.py): one
 * project record per CSV row, then one record per (name, commune) by merging
 * the rows of a project, then batched upserts.
 *
 * This importer reads the CSV without a dtype, so a cell is NaN, a number or
 * text.  A number carries the text Python's `str()` gives it, because `str()`
 * of a float is not modelled; `float(str(x))` gives `x` back.
 */
module ImportTinsa {
  import opened Wrappers
  import opened Text
  import opened Numeric
  import opened Collections
  import opened Storage

  const BatchSize: nat := 50

  /** `on_conflict="name,commune"`. */
  const ConflictColumns: seq<string> := ["name", "commune"]

  // ---------------------------------------------------------------------------
  // Cells
  // ---------------------------------------------------------------------------

  /** A cell of a DataFrame read with inferred types. */
  datatype PdCell = NaN | Num(value: real, repr: string) | Str(s: string)

  /** A row: column to cell; an absent key is a column the file does not have. */
  type PdRow = map<string, PdCell>

  /** `row.get(c)`: `None` for a column the file does not have. */
  function Get(row: PdRow, c: string): Option<PdCell> {
    if c in row then Some(row[c]) else None
  }

  /** `pd.isna(v)`: NaN, or the `None` of a missing column. */
  predicate IsNa(v: Option<PdCell>) {
    v.None? || v.value.NaN?
  }

  /** `str(v)`. */
  function StrOfCell(v: PdCell): string {
    match v
    case NaN => "nan"
    case Num(_, r) => r
    case Str(s) => s
  }

  /** `str(row.get(c, default))`. */
  function StrOr(row: PdRow, c: string, default: string): string {
    if c in row then StrOfCell(row[c]) else default
  }

  // ---------------------------------------------------------------------------
  // clean_numeric
  // ---------------------------------------------------------------------------

  /**
   * `clean_numeric`: NaN and `'-'` are absent, numbers pass through, text is
   * read by `float` after the commas become points and the spaces go.
   */
  function CleanNumeric(v: Option<PdCell>): Option<real> {
    match v
    case None => None
    case Some(NaN) => None
    case Some(Num(x, _)) => Some(x)
    case Some(Str(s)) => if s == "-" then None else PyFloat(DeleteChar(ReplaceChar(s, ',', '.'), ' '))
  }

  /** A decimal comma is read as the decimal point: `"12,5"` is 12.5. */
  lemma CleanNumericDecimalComma(w: string, f: string)
    requires AllDigits(w) && AllDigits(f) && w != []
    ensures CleanNumeric(Some(Str(w + "," + f))) == Some(DigitsValue(w + f) as real / Pow10(|f|) as real)
  {
    var s := w + "," + f;
    assert s != "-" by { assert s[|w|] == ','; }
    var t := ReplaceChar(s, ',', '.');
    assert t == w + "." + f by {
      assert ',' !in w && ',' !in f;
      assert forall i :: 0 <= i < |t| ==> t[i] == (w + "." + f)[i];
    }
    assert ' ' !in t;
    DeleteAbsentChar(t, ' ');
    PyFloatOfPointNumber(w, f);
  }

  /** Dots are not removed: text without commas or spaces is read by `float` as it is. */
  lemma CleanNumericKeepsDots(t: string)
    requires t != "-" && ',' !in t && ' ' !in t
    ensures CleanNumeric(Some(Str(t))) == PyFloat(t)
  {
    assert ReplaceChar(t, ',', '.') == t;
    DeleteAbsentChar(t, ' ');
  }

  /** So a thousands dot is read as a decimal point: `"1.234"` is 1.234, not 1234. */
  lemma CleanNumericThousandsDot(w: string, f: string)
    requires AllDigits(w) && AllDigits(f) && w != []
    ensures CleanNumeric(Some(Str(w + "." + f))) == Some(DigitsValue(w + f) as real / Pow10(|f|) as real)
  {
    var t := w + "." + f;
    assert t != "-" by { assert t[|w|] == '.' && |t| > 1; }
    assert ',' !in t && ' ' !in t by {
      assert forall i :: 0 <= i < |t| ==> t[i] == '.' || IsDigit(t[i]);
    }
    CleanNumericKeepsDots(t);
    PyFloatOfPointNumber(w, f);
  }

  // ---------------------------------------------------------------------------
  // clean_coordinates
  // ---------------------------------------------------------------------------

  function Abs(x: real): real {
    if x >= 0.0 then x else -x
  }

  /** Several commas are thousands separators and go; a single one is the decimal point. */
  function CommaNormalized(t: string): (r: string)
    ensures ',' !in r
    ensures CountChar(t, ',') <= 1 ==> |r| == |t|
  {
    var n := CountChar(t, ',');
    if n > 1 then DeleteChar(t, ',')
    else if n == 1 then ReplaceChar(t, ',', '.')
    else
      CountCharZero(t, ',');
      t
  }

  /** A value above 100 in magnitude lost its decimal point: divided by a power of ten so that two integer digits remain. */
  function Rescaled(x: real): (r: real)
    ensures Abs(x) <= 100.0 ==> r == x
    ensures Abs(x) > 100.0 ==> 10.0 <= Abs(r) < 100.0 && (x < 0.0 <==> r < 0.0)
  {
    if Abs(x) > 100.0 then
      var d := IntegerDigits(x);
      RescaledBounds(x);
      ScaledSign(x, Pow10(d - 2) as real);
      x / Pow10(d - 2) as real
    else x
  }

  lemma ScaledSign(x: real, p: real)
    requires p > 0.0
    ensures Abs(x / p) == Abs(x) / p && (x < 0.0 <==> x / p < 0.0)
  {
  }

  lemma QuotientStrict(a: real, p: real, lo: real, hi: real)
    requires p > 0.0 && lo * p <= a < hi * p
    ensures lo <= a / p < hi
  {
    assert a / p * p == a;
  }

  /** A natural number of at least 100 has `d >= 3` digits and lies in `[10 * 10^(d-2), 100 * 10^(d-2))`. */
  lemma DigitCountBounds(n: nat)
    requires n >= 100
    ensures |NatToString(n)| >= 3
    ensures 10 * Pow10(|NatToString(n)| - 2) <= n < 100 * Pow10(|NatToString(n)| - 2)
  {
    var d := |NatToString(n)|;
    NatToStringLength(n);
    assert Pow10(2) == 100;
    Pow10Add(1, d - 2);
    Pow10Add(2, d - 2);
  }

  /** `abs(x) > 100` divided by `10^(d-2)`, `d` its number of integer digits, is in `[10, 100)`. */
  lemma RescaledBounds(x: real)
    requires Abs(x) > 100.0
    ensures IntegerDigits(x) >= 3
    ensures 10.0 <= Abs(x) / Pow10(IntegerDigits(x) - 2) as real < 100.0
  {
    var a := Abs(x);
    var n := a.Floor;
    assert IntegerDigits(x) == |NatToString(n)|;
    DigitCountBounds(n);
    var q := Pow10(IntegerDigits(x) - 2);
    assert (10 * q) as real <= a < (100 * q) as real;
    QuotientStrict(a, q as real, 10.0, 100.0);
  }

  /** Both axes of `clean_coordinates` before the range check; `None` where `float` raises. */
  function CleanAxis(v: PdCell): (r: Option<real>)
    ensures v.NaN? ==> r == None
    ensures r.Some? ==> Abs(r.value) <= 100.0
  {
    match v
    case NaN => None
    case Num(x, _) => Some(Rescaled(x))
    case Str(s) =>
      match PyFloat(CommaNormalized(Strip(s)))
      case None => None
      case Some(x) => Some(Rescaled(x))
  }

  /** The Chilean ranges of `clean_coordinates`. */
  predicate InChile(lat: real, lon: real) {
    -56.0 <= lat <= -17.0 && -75.0 <= lon <= -66.0
  }

  /**
   * `clean_coordinates`: both axes cleaned and inside the Chilean ranges, or
   * `None` for `(None, None)`.  The axes are never exchanged.
   */
  function CleanCoordinates(lat: Option<PdCell>, lon: Option<PdCell>): (r: Option<(real, real)>)
    ensures r.Some? ==> InChile(r.value.0, r.value.1)
    ensures IsNa(lat) || IsNa(lon) ==> r == None
    ensures r.Some? <==> !IsNa(lat) && !IsNa(lon) && CleanAxis(lat.value).Some? && CleanAxis(lon.value).Some?
                         && InChile(CleanAxis(lat.value).value, CleanAxis(lon.value).value)
    ensures r.Some? ==> r.value == (CleanAxis(lat.value).value, CleanAxis(lon.value).value)
  {
    if IsNa(lat) || IsNa(lon) then None
    else
      match (CleanAxis(lat.value), CleanAxis(lon.value))
      case (Some(a), Some(b)) => if InChile(a, b) then Some((a, b)) else None
      case _ => None
  }

  /** A pair that only fits the ranges with its axes exchanged is rejected. */
  lemma CleanCoordinatesNoSwap(lat: real, lon: real)
    requires Abs(lat) <= 100.0 && Abs(lon) <= 100.0
    requires InChile(lon, lat)
    ensures CleanCoordinates(Some(Num(lat, "")), Some(Num(lon, ""))) == None
  {
  }

  /**
   * A latitude that pandas read as the number -3345650 (the cell `-3,345,650`
   * with its thousands commas removed) becomes -33.4565.
   */
  lemma CleanAxisThousandsCommas()
    ensures CleanAxis(Num(-3345650.0, "-3345650.0")) == Some(-33.4565)
  {
    ExampleDigits();
    assert Pow10(5) == 100000;
    assert Rescaled(-3345650.0) == -3345650.0 / 100000.0;
  }

  lemma ExampleDigits()
    ensures IntegerDigits(-3345650.0) == 7
  {
    var a := 3345650.0;
    assert a.Floor == 3345650;
    var d := |NatToString(3345650)|;
    NatToStringLength(3345650);
    assert Pow10(6) == 1000000 && Pow10(7) == 10000000;
    if d < 7 {
      Pow10Monotone(d, 6);
    } else if d > 7 {
      Pow10Monotone(7, d - 1);
    }
  }

  // ---------------------------------------------------------------------------
  // map_tinsa_to_supabase
  // ---------------------------------------------------------------------------

  /** `int(v)` on a cell that is not NaN: truncation of a number, `int(s)` of text, `None` where it raises. */
  function IntOfCell(v: PdCell): Option<int> {
    match v
    case NaN => None
    case Num(x, _) => Some(Trunc(x))
    case Str(s) => PyIntOfString(s)
  }

  /** `int(row.get(c, 0)) if pd.notna(row.get(c)) else 0`; `None` where `int` raises. */
  function CountOr0(row: PdRow, c: string): (r: Option<int>)
    ensures IsNa(Get(row, c)) ==> r == Some(0)
  {
    if IsNa(Get(row, c)) then Some(0) else IntOfCell(row[c])
  }

  /** The available units and total units derived from stock, sold and available. */
  function Units(stock: int, sold: int, available: int): (r: (int, int))
  {
    var available' := if available == 0 && stock > 0 then (if stock - sold > 0 then stock - sold else 0) else available;
    (available', if stock > 0 then stock else sold + available')
  }

  /**
   * The unit rules: a nonzero available count is kept; a zero one is
   * recomputed from the stock, never negative; the total is the stock when
   * there is one, and otherwise sold plus available, so that with a
   * consistent stock the sold and available units add up to the total.
   */
  lemma UnitsRules(stock: int, sold: int, available: int)
    ensures available != 0 || stock <= 0 ==> Units(stock, sold, available).0 == available
    ensures available == 0 && stock > 0 ==> Units(stock, sold, available).0 >= 0
    ensures available == 0 && 0 <= sold <= stock ==> Units(stock, sold, available).0 + sold == Units(stock, sold, available).1
    ensures stock <= 0 ==> Units(stock, sold, available).1 == sold + Units(stock, sold, available).0
    ensures stock > 0 ==> Units(stock, sold, available).1 == stock
  {
  }

  /** `velocidad_a if velocidad_a else velocidad_p`: 0 and absent are falsy. */
  function SalesSpeed(annual: Option<real>, period: Option<real>): (r: Option<real>)
    ensures annual.Some? && annual.value != 0.0 ==> r == annual
    ensures annual.None? || annual.value == 0.0 ==> r == period
  {
    if annual.Some? && annual.value != 0.0 then annual else period
  }

  /** `f"{direccion} {numero}".strip() if direccion else None`, both parts stripped. */
  function Address(row: PdRow): Value {
    AddressOf(StrOr(row, "DIRECCION", ""), StrOr(row, "NUMERO", ""))
  }

  /** The stripped street, then one space and the stripped number, stripped again; NULL without a street. */
  function AddressOf(street: string, number: string): Value {
    var direccion := Strip(street);
    var numero := Strip(number);
    if direccion == "" then VNull else VStr(Strip(direccion + " " + numero))
  }

  /** A non-empty stripped string followed by a space strips back to itself. */
  lemma StripTrailingSpace(d: string)
    requires d != [] && Strip(d) == d
    ensures Strip(d + " ") == d
  {
    var s := d + " ";
    assert !IsSpace(d[0]) && !IsSpace(d[|d| - 1]);
    assert s[0] == d[0];
    assert TrimStart(s) == s;
    assert s[..|s| - 1] == d;
    assert TrimEnd(d) == d;
  }

  /** Two non-empty stripped strings joined by a space are stripped. */
  lemma StripJoined(d: string, n: string)
    requires d != [] && Strip(d) == d && n != [] && Strip(n) == n
    ensures Strip(d + " " + n) == d + " " + n
  {
    var s := d + " " + n;
    assert !IsSpace(d[0]) && !IsSpace(n[|n| - 1]);
    assert s[0] == d[0] && s[|s| - 1] == n[|n| - 1];
    StripNoSpace(s);
  }

  /** The address is the street, and the number after one space when there is one. */
  lemma AddressJoin(street: string, number: string)
    ensures Strip(street) == [] ==> AddressOf(street, number) == VNull
    ensures var d := Strip(street);
            var n := Strip(number);
            d != [] ==> AddressOf(street, number) == VStr(if n == [] then d else d + " " + n)
  {
    var d := Strip(street);
    var n := Strip(number);
    StripIdempotent(street);
    StripIdempotent(number);
    if d != [] {
      JoinStripped(d, n);
    }
  }

  lemma JoinStripped(d: string, n: string)
    requires d != [] && Strip(d) == d && Strip(n) == n
    ensures Strip(d + " " + n) == if n == [] then d else d + " " + n
  {
    if n == [] {
      assert d + " " + n == d + " ";
      StripTrailingSpace(d);
    } else {
      StripJoined(d, n);
    }
  }

  /** `str(row.get(c)).strip() if pd.notna(row.get(c)) else None`. */
  function TextOrNull(row: PdRow, c: string): (r: Value)
    ensures IsNa(Get(row, c)) <==> r == VNull
  {
    if IsNa(Get(row, c)) then VNull else VStr(Strip(StrOfCell(row[c])))
  }

  /** `str(row.get('PROYECTO', 'Sin nombre')).strip()`, as written: a NaN name becomes the text `nan`. */
  function NameAsWritten(row: PdRow): string {
    Strip(StrOr(row, "PROYECTO", "Sin nombre"))
  }

  /** The project name with NaN treated as missing, as the commune is: the row is then skipped. */
  function Name(row: PdRow): (r: Value)
    ensures Get(row, "PROYECTO") == Some(NaN) ==> r == VNull
    ensures Get(row, "PROYECTO") != Some(NaN) ==> r == VStr(NameAsWritten(row))
  {
    if Get(row, "PROYECTO") == Some(NaN) then VNull else VStr(NameAsWritten(row))
  }

  /** As written, a row whose PROYECTO is NaN gets the name `nan`, which passes the name check. */
  lemma NameOfNaNAsWritten(row: PdRow)
    requires Get(row, "PROYECTO") == Some(NaN)
    ensures NameAsWritten(row) == "nan"
  {
    NaNText(row, "PROYECTO", "Sin nombre");
    StripNan();
  }

  lemma NaNText(row: PdRow, c: string, default: string)
    requires Get(row, c) == Some(NaN)
    ensures StrOr(row, c, default) == "nan"
  {
  }

  lemma StripNan()
    ensures Strip("nan") == "nan"
  {
    var s := "nan";
    assert !IsSpace(s[0]) && !IsSpace(s[|s| - 1]);
    StripNoSpace(s);
  }

  function RealOrNull(x: Option<real>): Value {
    if x.Some? then VReal(x.value) else VNull
  }

  /** `int(row.get(c, 0)) if pd.notna(row.get(c)) else None`, with `None` where `int` raises. */
  function FloorsOf(row: PdRow): Option<Value> {
    if IsNa(Get(row, "NRO. PISOS")) then Some(VNull)
    else match IntOfCell(row["NRO. PISOS"])
         case None => None
         case Some(n) => Some(VInt(n))
  }

  /**
   * `map_tinsa_to_supabase`: the project record of a row, or `None` when an
   * integer column holds text `int` cannot read (the function's `except`).
   */
  function MapRow(row: PdRow): (r: Option<Fields>)
    ensures r.Some? <==> CountOr0(row, "STOCK INICIAL").Some? && CountOr0(row, "UNIDADES VENDIDAS").Some?
                         && CountOr0(row, "OFERTA DISPONIBLE").Some? && FloorsOf(row).Some?
  {
    match (CountOr0(row, "STOCK INICIAL"), CountOr0(row, "UNIDADES VENDIDAS"), CountOr0(row, "OFERTA DISPONIBLE"), FloorsOf(row))
    case (Some(stock), Some(sold), Some(available), Some(floors)) =>
      var coords := CleanCoordinates(Get(row, "LATITUD"), Get(row, "LONGITUD"));
      var units := Units(stock, sold, available);
      Some(ProjectFields(DescriptiveFields(row, coords, floors), Name(row), TextOrNull(row, "COMUNA_INCOIN"), sold, units.0, units.1))
    case _ => None
  }

  /** The record of a row whose integer columns were read: the descriptive columns with the key and the unit counts set. */
  function ProjectFields(base: Fields, name: Value, commune: Value, sold: int, available: int, total: int): (f: Fields)
    ensures "name" in f && f["name"] == name
    ensures "commune" in f && f["commune"] == commune
    ensures "sold_units" in f && f["sold_units"] == VInt(sold)
    ensures "available_units" in f && f["available_units"] == VInt(available)
    ensures "total_units" in f && f["total_units"] == VInt(total)
  {
    base["name" := name]["commune" := commune]["sold_units" := VInt(sold)]
        ["available_units" := VInt(available)]["total_units" := VInt(total)]
  }

  /** The columns of the record other than the key and the unit counts. */
  function DescriptiveFields(row: PdRow, coords: Option<(real, real)>, floors: Value): Fields
  {
    map[
      "developer" := TextOrNull(row, "DESARROLLADOR"),
      "region" := VStr(Strip(StrOr(row, "REGION", "RM"))),
      "address" := Address(row),
      "latitude" := if coords.Some? then VReal(coords.value.0) else VNull,
      "longitude" := if coords.Some? then VReal(coords.value.1) else VNull,
      "avg_price_uf" := RealOrNull(CleanNumeric(Get(row, "PRECIO PROMEDIO"))),
      "avg_price_m2_uf" := RealOrNull(CleanNumeric(Get(row, "UF/M² PROMEDIO"))),
      "min_price_uf" := RealOrNull(CleanNumeric(Get(row, "PRECIO MINIMO UF"))),
      "max_price_uf" := RealOrNull(CleanNumeric(Get(row, "PRECIO MAXIMO UF"))),
      "sales_speed_monthly" := RealOrNull(SalesSpeed(CleanNumeric(Get(row, "UNIDADES/MES (A)")), CleanNumeric(Get(row, "UNIDADES/MES (P)")))),
      "months_to_sell_out" := RealOrNull(CleanNumeric(Get(row, "MESES PARA AGOTAR STOCK (A)"))),
      "project_status" := TextOrNull(row, "ESTADO PROYECTO"),
      "property_type" := VStr(Strip(StrOr(row, "TIPO DE PROPIEDAD", "DEPARTAMENTO"))),
      "category" := TextOrNull(row, "TIPO CATEGORIA"),
      "total_floors" := floors
    ]
  }

  // ---------------------------------------------------------------------------
  // migrate_file: rows to records
  // ---------------------------------------------------------------------------

  /** Python truthiness of a record value. */
  predicate Truthy(v: Value) {
    match v
    case VStr(s) => s != []
    case VInt(i) => i != 0
    case VReal(r) => r != 0.0
    case VBool(b) => b
    case VNull => false
  }

  /** `project.get('name') and project.get('commune')`. */
  predicate HasKey(p: Fields) {
    Truthy(Column(p, "name")) && Truthy(Column(p, "commune"))
  }

  /** The records of the rows that map (by `mapRow`) and have a name and a commune, in order. */
  function Kept(rows: seq<PdRow>, mapRow: PdRow -> Option<Fields>): (r: seq<Fields>)
    ensures |r| <= |rows|
    ensures forall i :: 0 <= i < |r| ==> HasKey(r[i])
  {
    if rows == [] then []
    else
      var p := mapRow(rows[|rows| - 1]);
      Kept(rows[..|rows| - 1], mapRow) + if p.Some? && HasKey(p.value) then [p.value] else []
  }

  /** The first loop of `migrate_file`: the kept records and the number of skipped rows. */
  method KeepRows(rows: seq<PdRow>, mapRow: PdRow -> Option<Fields>) returns (projects: seq<Fields>, skipped: nat)
    ensures projects == Kept(rows, mapRow)
    ensures skipped == |rows| - |Kept(rows, mapRow)|
  {
    projects, skipped := [], 0;
    for i := 0 to |rows|
      invariant projects == Kept(rows[..i], mapRow)
      invariant skipped == i - |projects|
    {
      assert rows[..i + 1][..i] == rows[..i];
      var project := mapRow(rows[i]);
      if project.Some? && HasKey(project.value) {
        projects := projects + [project.value];
      } else {
        skipped := skipped + 1;
      }
    }
    assert rows[..|rows|] == rows;
  }

  lemma KeptOne(row: PdRow, mapRow: PdRow -> Option<Fields>)
    ensures Kept([row], mapRow) == if mapRow(row).Some? && HasKey(mapRow(row).value) then [mapRow(row).value] else []
  {
    assert [row][..0] == [];
  }

  /** The record of a row carries the row's name and commune. */
  lemma MapRowKey(row: PdRow)
    requires MapRow(row).Some?
    ensures Column(MapRow(row).value, "name") == Name(row)
    ensures Column(MapRow(row).value, "commune") == TextOrNull(row, "COMUNA_INCOIN")
  {
  }

  /** A row whose PROYECTO is NaN is skipped. */
  lemma NaNNameSkipped(row: PdRow)
    requires Get(row, "PROYECTO") == Some(NaN)
    ensures Kept([row], MapRow) == []
  {
    NaNNameNoKey(row);
    KeptNone(row, MapRow);
  }

  lemma NaNNameNoKey(row: PdRow)
    requires Get(row, "PROYECTO") == Some(NaN)
    ensures MapRow(row).None? || !HasKey(MapRow(row).value)
  {
    var m := MapRow(row);
    if m.Some? {
      MapRowKey(row);
      NullNameNoKey(m.value);
    }
  }

  lemma NullNameNoKey(p: Fields)
    requires Column(p, "name") == VNull
    ensures !HasKey(p)
  {
  }

  lemma KeptNone(row: PdRow, mapRow: PdRow -> Option<Fields>)
    requires mapRow(row).None? || !HasKey(mapRow(row).value)
    ensures Kept([row], mapRow) == []
  {
    KeptOne(row, mapRow);
  }

  // ---------------------------------------------------------------------------
  // migrate_file: merging the rows of a project
  // ---------------------------------------------------------------------------

  /** The key of `projects_dict`. */
  function NameCommune(p: Fields): (Value, Value) {
    (Column(p, "name"), Column(p, "commune"))
  }

  /** The unit counts the merge takes the maximum of. */
  predicate IsMaxField(f: string) {
    f == "sold_units" || f == "available_units"
  }

  /** `x or 0` on a unit count. */
  function CountOf0(v: Value): int {
    if v.VInt? then v.i else 0
  }

  /** The merged value of one column when a later record of the same project carries `value`. */
  function MergeValue(existing: Fields, f: string, value: Value): Value
    requires f in existing || value != VNull
  {
    if value != VNull && (Column(existing, f) == VNull || IsMaxField(f)) then
      if IsMaxField(f) || f == "total_units" then
        var a := CountOf0(Column(existing, f));
        var b := CountOf0(value);
        VInt(if a >= b then a else b)
      else value
    else existing[f]
  }

  /**
   * The inner loop of the merge: a later record fills the columns the kept
   * one has as `None` (or lacks), except that the sold and available units
   * become the larger of the two.
   */
  function Merge(existing: Fields, p: Fields): (r: Fields)
    ensures r.Keys == existing.Keys + (set f | f in p && p[f] != VNull)
    ensures forall f :: f in existing && Column(existing, f) != VNull && !IsMaxField(f) ==> r[f] == existing[f]
    ensures forall f :: f in p && p[f] != VNull && Column(existing, f) == VNull && !IsMaxField(f) && f != "total_units" ==> r[f] == p[f]
  {
    map f | f in existing.Keys + (set g | g in p && p[g] != VNull) ::
      MergeValue(existing, f, if f in p then p[f] else VNull)
  }

  /** The merged record of a project: its records folded left to right. */
  function MergeAll(g: seq<Fields>): Fields
    requires g != []
  {
    FoldLeft1(g, Merge)
  }

  /** The largest value of a unit column over the records. */
  function MaxCount(g: seq<Fields>, f: string): int
    requires g != []
  {
    if |g| == 1 then CountOf0(Column(g[0], f))
    else
      var m := MaxCount(g[..|g| - 1], f);
      var v := CountOf0(Column(g[|g| - 1], f));
      if m >= v then m else v
  }

  /** The merged sold and available units are the maximum over all the records of the project. */
  lemma {:induction false} MergeAllMax(g: seq<Fields>, f: string)
    requires g != [] && IsMaxField(f)
    requires forall i :: 0 <= i < |g| ==> f in g[i] && g[i][f].VInt?
    ensures f in MergeAll(g) && MergeAll(g)[f] == VInt(MaxCount(g, f))
  {
    if |g| > 1 {
      var init := g[..|g| - 1];
      assert forall i :: 0 <= i < |init| ==> init[i] == g[i];
      MergeAllMax(init, f);
      assert MergeAll(g) == Merge(MergeAll(init), g[|g| - 1]);
      MergeMaxStep(MergeAll(init), g[|g| - 1], f, MaxCount(init, f));
    }
  }

  /** `MaxCount` is at least the count of every record. */
  lemma {:induction false} MaxCountBounds(g: seq<Fields>, f: string)
    requires g != []
    ensures forall i :: 0 <= i < |g| ==> CountOf0(Column(g[i], f)) <= MaxCount(g, f)
  {
    if |g| > 1 {
      var init := g[..|g| - 1];
      MaxCountBounds(init, f);
      assert forall i :: 0 <= i < |init| ==> init[i] == g[i];
    }
  }

  /** Merging one more record keeps the larger count of a maximised column. */
  lemma MergeMaxStep(existing: Fields, p: Fields, f: string, m: int)
    requires IsMaxField(f) && f in existing && existing[f] == VInt(m) && f in p && p[f].VInt?
    ensures f in Merge(existing, p) && Merge(existing, p)[f] == VInt(if m >= p[f].i then m else p[f].i)
  {
  }

  /** A column the first record has (not NULL, not a maximised count) keeps the first record's value. */
  lemma {:induction false} MergeAllKeepsFirst(g: seq<Fields>, f: string)
    requires g != [] && f in g[0] && g[0][f] != VNull && !IsMaxField(f)
    ensures f in MergeAll(g) && MergeAll(g)[f] == g[0][f]
  {
    if |g| > 1 {
      var init := g[..|g| - 1];
      assert init[0] == g[0];
      MergeAllKeepsFirst(init, f);
    }
  }

  /** The first non-NULL value of a column over the records, NULL when there is none. */
  function FirstValue(g: seq<Fields>, f: string): Value {
    if g == [] then VNull
    else if Column(g[0], f) != VNull then g[0][f]
    else FirstValue(g[1..], f)
  }

  lemma {:induction false} FirstValueSnoc(g: seq<Fields>, p: Fields, f: string)
    ensures FirstValue(g + [p], f) == if FirstValue(g, f) != VNull then FirstValue(g, f) else Column(p, f)
  {
    if g == [] {
      assert [p][1..] == [];
    } else {
      assert (g + [p])[1..] == g[1..] + [p];
      FirstValueSnoc(g[1..], p, f);
    }
  }

  /** Every other descriptive column of the merged record is its first non-NULL value among the records. */
  lemma {:induction false} MergeAllFirstValue(g: seq<Fields>, f: string)
    requires g != [] && !IsMaxField(f) && f != "total_units"
    ensures Column(MergeAll(g), f) == FirstValue(g, f)
  {
    if |g| == 1 {
      assert g == [] + [g[0]];
      FirstValueSnoc([], g[0], f);
    } else {
      var init := g[..|g| - 1];
      MergeAllFirstValue(init, f);
      assert g == init + [g[|g| - 1]];
      FirstValueSnoc(init, g[|g| - 1], f);
    }
  }

  /** The merge of one more record keeps the name and commune of the kept record. */
  lemma MergeKeepsKey(existing: Fields, p: Fields)
    requires HasKey(existing)
    ensures NameCommune(Merge(existing, p)) == NameCommune(existing)
  {
  }

  /** `projects_dict` after the records `ps`: the keys in insertion order and the merged record of each. */
  function Dedup(ps: seq<Fields>): (r: (seq<(Value, Value)>, map<(Value, Value), Fields>))
    ensures forall k :: k in r.1 <==> k in r.0
  {
    Combine(ps, NameCommune, Merge)
  }

  /** The keys of the dictionary are those of the records, in order of first appearance. */
  lemma DedupOrder(ps: seq<Fields>)
    ensures Dedup(ps).0 == Keys(ps, NameCommune)
  {
    CombineOrder(ps, NameCommune, Merge);
  }

  /** Each entry of the dictionary is the merge, in order, of the records with that key. */
  lemma DedupGroups(ps: seq<Fields>)
    ensures forall k :: k in Dedup(ps).1 ==> Members(ps, NameCommune, k) != [] &&
                                             Dedup(ps).1[k] == MergeAll(Members(ps, NameCommune, k))
  {
    CombineGroups(ps, NameCommune, Merge);
  }

  /** `list(projects_dict.values())`. */
  function Values(ks: seq<(Value, Value)>, d: map<(Value, Value), Fields>): (r: seq<Fields>)
    requires forall i :: 0 <= i < |ks| ==> ks[i] in d
    ensures |r| == |ks| && forall i :: 0 <= i < |ks| ==> r[i] == d[ks[i]]
  {
    seq(|ks|, i requires 0 <= i < |ks| => d[ks[i]])
  }

  /** The records `migrate_file` upserts. */
  function Unique(ps: seq<Fields>): (r: seq<Fields>)
    ensures |r| == |Dedup(ps).0|
  {
    Values(Dedup(ps).0, Dedup(ps).1)
  }

  /** The merge loop of `migrate_file`, with the dictionary and its insertion order. */
  method DedupProjects(projects: seq<Fields>) returns (unique: seq<Fields>)
    ensures unique == Unique(projects)
  {
    var order: seq<(Value, Value)> := [];
    var dict: map<(Value, Value), Fields> := map[];
    for i := 0 to |projects|
      invariant (order, dict) == Dedup(projects[..i])
    {
      var project := projects[i];
      var key := NameCommune(project);
      assert projects[..i + 1][..i] == projects[..i];
      if key !in dict {
        order := order + [key];
        dict := dict[key := project];
      } else {
        dict := dict[key := Merge(dict[key], project)];
      }
    }
    assert projects[..|projects|] == projects;
    unique := [];
    for j := 0 to |order|
      invariant unique == Values(order[..j], dict)
    {
      unique := unique + [dict[order[j]]];
    }
    assert order[..|order|] == order;
  }

  /** The merged records keep their key, and each key of the dictionary appears once. */
  lemma {:induction false} DedupKeys(ps: seq<Fields>)
    requires forall i :: 0 <= i < |ps| ==> HasKey(ps[i])
    ensures forall k :: k in Dedup(ps).1 ==> NameCommune(Dedup(ps).1[k]) == k && HasKey(Dedup(ps).1[k])
    ensures forall i, j :: 0 <= i < j < |Dedup(ps).0| ==> Dedup(ps).0[i] != Dedup(ps).0[j]
  {
    DedupGroups(ps);
    if ps != [] {
      var init := ps[..|ps| - 1];
      DedupKeys(init);
      var p := ps[|ps| - 1];
      if NameCommune(p) in Dedup(init).1 {
        MergeKeepsKey(Dedup(init).1[NameCommune(p)], p);
      }
    }
  }

  /** The conflict key of a record with a name and a commune is its dictionary key. */
  lemma KeyOfNameCommune(p: Fields)
    requires HasKey(p)
    ensures KeyOf(p, ConflictColumns) == Some([NameCommune(p).0, NameCommune(p).1])
  {
    var cols := ConflictColumns;
    assert cols[0] == "name" && cols[1] == "commune" && |cols| == 2;
    assert forall i :: 0 <= i < |cols| ==> Column(p, cols[i]) != VNull;
    KeyOfColumns(p, cols);
    var c := ColumnsOf(p, cols);
    assert c[0] == NameCommune(p).0 && c[1] == NameCommune(p).1 && |c| == 2;
    assert c == [NameCommune(p).0, NameCommune(p).1];
  }

  /** No two upserted records share their (name, commune): a batch never fails on a repeated conflict key. */
  lemma UniqueDistinctKeys(ps: seq<Fields>)
    requires forall i :: 0 <= i < |ps| ==> HasKey(ps[i])
    ensures DistinctKeys(Unique(ps), ConflictColumns)
    ensures forall i :: 0 <= i < |Unique(ps)| ==> HasKey(Unique(ps)[i])
  {
    DedupKeys(ps);
    var u := Unique(ps);
    var ks := Dedup(ps).0;
    forall i, j | 0 <= i < j < |u| && KeyOf(u[i], ConflictColumns).Some?
      ensures KeyOf(u[i], ConflictColumns) != KeyOf(u[j], ConflictColumns)
    {
      KeyOfNameCommune(u[i]);
      KeyOfNameCommune(u[j]);
      assert NameCommune(u[i]) == ks[i] && NameCommune(u[j]) == ks[j];
    }
  }

  // ---------------------------------------------------------------------------
  // migrate_file: writing
  // ---------------------------------------------------------------------------

  /** The batches an upsert carries out, as a predicate on batches. */
  function Passes(accepts: Fields -> bool): seq<Fields> -> bool {
    batch => Admits(accepts, batch, ConflictColumns)
  }

  /** The records written by the batch loop: those of the slices of 50 the table admits, in order. */
  function Written(accepts: Fields -> bool, unique: seq<Fields>): seq<Fields> {
    Flatten(Filter(Chunks(unique, BatchSize), Passes(accepts)))
  }

  /**
   * The batch loop: one upsert per slice of 50; a failed batch is counted and
   * skipped.  The table ends as the admitted slices upserted in order, and
   * `inserted` counts their records; when the table accepts every record and
   * the keys are distinct, every record is written and no batch fails.
   */
  method UpsertBatches(db: Table, unique: seq<Fields>) returns (inserted: nat, errors: nat)
    requires db.Valid()
    modifies db
    ensures db.Valid()
    ensures db.Snapshot() == UpsertAll(old(db.Snapshot()), Written(db.accepts, unique), ConflictColumns).0
    ensures forall x :: x in Written(db.accepts, unique) ==> KeyStored(db.Snapshot(), ColumnsOf(x, ConflictColumns), ConflictColumns)
    ensures inserted == |Written(db.accepts, unique)|
    ensures errors == CountOf(Chunks(unique, BatchSize), Refuses(db.accepts, ConflictColumns))
    ensures Admits(db.accepts, unique, ConflictColumns) ==> inserted == |unique| && errors == 0
  {
    ghost var st0 := db.Snapshot();
    ghost var acc := db.accepts;
    var batches := Chunks(unique, BatchSize);
    inserted, errors := 0, 0;
    ghost var written: seq<Fields> := [];
    for b := 0 to |batches|
      invariant db.Valid()
      invariant written == Flatten(Filter(batches[..b], Passes(acc)))
      invariant db.Snapshot() == UpsertAll(st0, written, ConflictColumns).0
      invariant inserted == |written|
      invariant errors == CountOf(batches[..b], Refuses(acc, ConflictColumns))
    {
      BatchStep(acc, batches, b);
      ghost var before := db.Snapshot();
      var ok := UpsertSlice(db, batches[b]);
      if ok {
        UpsertAllAppend(st0, written, batches[b], ConflictColumns);
        written := written + batches[b];
        inserted := inserted + |batches[b]|;
      } else {
        errors := errors + 1;
      }
    }
    assert batches[..|batches|] == batches;
    WrittenFacts(st0, acc, unique);
  }

  /** One more slice: its records are written when it is admitted, otherwise it counts as an error. */
  lemma BatchStep(acc: Fields -> bool, batches: seq<seq<Fields>>, b: nat)
    requires b < |batches|
    ensures var ok := Admits(acc, batches[b], ConflictColumns);
            Flatten(Filter(batches[..b + 1], Passes(acc))) == Flatten(Filter(batches[..b], Passes(acc))) + (if ok then batches[b] else []) &&
            CountOf(batches[..b + 1], Refuses(acc, ConflictColumns)) == CountOf(batches[..b], Refuses(acc, ConflictColumns)) + if ok then 0 else 1
  {
    var done := Filter(batches[..b], Passes(acc));
    FilterPrefixStep(batches, b, Passes(acc));
    assert batches[..b + 1][..b] == batches[..b];
    if Admits(acc, batches[b], ConflictColumns) {
      assert (done + [batches[b]])[..|done|] == done;
    } else {
      assert done + [] == done;
      assert Flatten(done) + [] == Flatten(done);
    }
  }

  /** What the whole loop has written: every record stored under its key, and everything when all slices are admitted. */
  lemma WrittenFacts(st0: State, acc: Fields -> bool, unique: seq<Fields>)
    ensures forall x :: x in Written(acc, unique) ==>
              KeyStored(UpsertAll(st0, Written(acc, unique), ConflictColumns).0, ColumnsOf(x, ConflictColumns), ConflictColumns)
    ensures Admits(acc, unique, ConflictColumns) ==>
              Written(acc, unique) == unique && CountOf(Chunks(unique, BatchSize), Refuses(acc, ConflictColumns)) == 0
  {
    UpsertAllKeysStored(st0, Written(acc, unique), ConflictColumns);
    if Admits(acc, unique, ConflictColumns) {
      var batches := Chunks(unique, BatchSize);
      ChunksAdmitted(acc, unique, BatchSize, ConflictColumns);
      FilterAll(batches, Passes(acc));
      CountOfPositive(batches, Refuses(acc, ConflictColumns));
    }
  }

  /** One batch of the records in one upsert; whether it went through, which leaves the table unchanged when not. */
  method UpsertSlice(db: Table, batch: seq<Fields>) returns (ok: bool)
    requires db.Valid()
    modifies db
    ensures db.Valid()
    ensures ok <==> Admits(db.accepts, batch, ConflictColumns)
    ensures ok ==> db.Snapshot() == UpsertAll(old(db.Snapshot()), batch, ConflictColumns).0
    ensures !ok ==> db.Snapshot() == old(db.Snapshot())
  {
    var res := db.Upsert(batch, ConflictColumns);
    ok := res.Some?;
  }

  /** What `migrate_file` returns: the records written (or, in a dry run, the unique records) and the failed batches. */
  method MigrateFile(rows: seq<PdRow>, dryRun: bool, db: Table) returns (count: nat, errors: nat)
    requires db.Valid()
    modifies db
    ensures db.Valid()
    ensures dryRun ==> count == |Unique(Kept(rows, MapRow))| && errors == 0 && unchanged(db)
    ensures !dryRun ==> var unique := Unique(Kept(rows, MapRow));
            db.Snapshot() == UpsertAll(old(db.Snapshot()), Written(db.accepts, unique), ConflictColumns).0 &&
            count == |Written(db.accepts, unique)| &&
            errors == CountOf(Chunks(unique, BatchSize), Refuses(db.accepts, ConflictColumns))
    ensures !dryRun && (forall i :: 0 <= i < |Unique(Kept(rows, MapRow))| ==> db.accepts(Unique(Kept(rows, MapRow))[i]))
            ==> count == |Unique(Kept(rows, MapRow))| && errors == 0
  {
    var projects, skipped := KeepRows(rows, MapRow);
    var unique := DedupProjects(projects);
    if dryRun {
      return |unique|, 0;
    }
    UniqueDistinctKeys(projects);
    count, errors := UpsertBatches(db, unique);
  }
}
