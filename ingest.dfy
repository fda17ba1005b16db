/**
 * The Excel service: the cleanup of the sheet, the date and numeric
 * columns, the month filter and the row loop that turns the sheet into gas
 * records. A DataFrame is a sequence of column names and a sequence of rows
 * of cells; the conversions pandas and Python perform on one cell are taken
 * as given functions (see `Library`).
 */
module Ingest {
  import opened Wrappers
  import opened Text
  import Currency

  // ---------------------------------------------------------------------
  // Cells, tables and the library conversions
  // ---------------------------------------------------------------------

  /** A cell as pandas hands it over. */
  datatype Value =
    | NaN                 // an empty cell, `NaN` or `NaT`
    | Null                // `None`
    | Num(x: real)        // an `int` or a `float`
    | Str(s: string)
    | Other(repr: string) // any other object (a timestamp, say), by its `str()`

  datatype Table = Table(columns: seq<string>, rows: seq<seq<Value>>)

  /** Every row has one cell per column, as in any DataFrame. */
  predicate Rectangular(t: Table) {
    forall i :: 0 <= i < |t.rows| ==> |t.rows[i]| == |t.columns|
  }

  datatype Date = Date(day: nat, month: nat, year: nat)

  /** A date pandas can hold: its timestamps run from 1677 to 2262. */
  type CalendarDate = d: Date | 1 <= d.day <= 31 && 1 <= d.month <= 12 && 1677 <= d.year <= 2262
    witness Date(1, 1, 2000)

  /** The conversions of one value that pandas and Python perform for the service. */
  datatype Library = Library(
    toDate: Value -> Option<CalendarDate>,   // `pd.to_datetime(x, format="%d/%m/%Y", errors="coerce")`, `None` for NaT
    toNumber: Value -> Option<real>,         // `pd.to_numeric(x, errors="coerce")`, `None` for NaN
    parseFloat: string -> Option<real>,      // `float(s)`, `None` where it raises ValueError
    show: real -> string)                    // `str(x)` of a number

  /** `row.get(name, default)`. */
  function Get(columns: seq<string>, row: seq<Value>, name: string, default: Value): Value {
    if name in columns && IndexOf(columns, name) < |row| then row[IndexOf(columns, name)] else default
  }

  /** `pd.isna(v) or v is None`. */
  predicate IsMissing(v: Value) {
    v.NaN? || v.Null?
  }

  // ---------------------------------------------------------------------
  // _safe_float_convert
  // ---------------------------------------------------------------------

  /** The cleanup of a numeric string: ',' to '.', then the symbols go. */
  function CleanNumeric(t: string): string {
    DropSymbols(Replace(t, ",", "."))
  }

  /** "R$" and '%' removed, then strip(). */
  function DropSymbols(t: string): string {
    Strip(Replace(Replace(t, "R$", ""), "%", ""))
  }

  /** `_safe_float_convert(v)`: never raises, 0.0 wherever no number can be read. */
  function SafeFloat(v: Value, parseFloat: string -> Option<real>): real {
    match v
    case NaN => 0.0
    case Null => 0.0
    case Num(x) => x
    case Str(s) =>
      var t := Strip(s);
      if t == [] then 0.0
      else (
        match parseFloat(CleanNumeric(t))
        case Some(x) => x
        case None => 0.0)
    case Other(_) => 0.0
  }

  /** The cleaned string has no ',' and no '%' left. */
  lemma CleanNumericRemoves(t: string)
    ensures ',' !in CleanNumeric(t) && '%' !in CleanNumeric(t)
  {
    var a := Replace(t, ",", ".");
    var b := Replace(a, "R$", "");
    var c := Replace(b, "%", "");
    assert ',' !in a;
    assert ',' !in b;
    StripMembers(c);
  }

  /** A plain number, already stripped and free of ',', 'R' and '%', reaches the parser unchanged. */
  lemma CleanNumericKeeps(t: string)
    requires ',' !in t && 'R' !in t && '%' !in t
    requires t != [] ==> !IsSpace(t[0]) && !IsSpace(t[|t| - 1])
    ensures CleanNumeric(t) == t
  {
    ReplaceAbsent(t, ',', ".");
    DropSymbolsKeeps(t);
  }

  lemma DropSymbolsKeeps(t: string)
    requires 'R' !in t && '%' !in t
    requires t != [] ==> !IsSpace(t[0]) && !IsSpace(t[|t| - 1])
    ensures DropSymbols(t) == t
  {
    ReplaceMissing(t, "R$", "");
    ReplaceAbsent(t, '%', "");
    StripUnchanged(t);
  }

  /** Missing values, blank strings and values of any other type all give 0.0. */
  lemma SafeFloatZero(v: Value, parseFloat: string -> Option<real>)
    requires IsMissing(v) || v.Other? || (v.Str? && IsBlank(v.s))
    ensures SafeFloat(v, parseFloat) == 0.0
  {
  }

  /** A string whose cleanup does not parse gives 0.0 rather than an error. */
  lemma SafeFloatUnparsed(s: string, parseFloat: string -> Option<real>)
    requires parseFloat(CleanNumeric(Strip(s))) == None
    ensures SafeFloat(Str(s), parseFloat) == 0.0
  {
  }

  /** A plain number string is read by the parser exactly as written. */
  lemma SafeFloatPlain(s: string, x: real, parseFloat: string -> Option<real>)
    requires s != [] && !IsSpace(s[0]) && !IsSpace(s[|s| - 1])
    requires ',' !in s && 'R' !in s && '%' !in s
    requires parseFloat(s) == Some(x)
    ensures SafeFloat(Str(s), parseFloat) == x
  {
    StripUnchanged(s);
    CleanNumericKeeps(s);
  }

  /** A decimal comma becomes a point and nothing else changes. */
  lemma CleanNumericComma(whole: string, decimals: string)
    requires ',' !in whole && 'R' !in whole && '%' !in whole
    requires ',' !in decimals && 'R' !in decimals && '%' !in decimals
    requires whole != [] && !IsSpace(whole[0]) && decimals != [] && !IsSpace(decimals[|decimals| - 1])
    ensures CleanNumeric(whole + "," + decimals) == whole + "." + decimals
  {
    var point := whole + "." + decimals;
    calc {
      Replace(whole + "," + decimals, ",", ".");
      { ReplaceCharAppend(whole + ",", decimals, ',', "."); }
      Replace(whole + ",", ",", ".") + Replace(decimals, ",", ".");
      { ReplaceCharAppend(whole, ",", ',', "."); ReplaceCharUnfold(",", ',', "."); }
      Replace(whole, ",", ".") + "." + Replace(decimals, ",", ".");
      { ReplaceAbsent(whole, ',', "."); ReplaceAbsent(decimals, ',', "."); }
      point;
    }
    assert point[0] == whole[0] && point[|point| - 1] == decimals[|decimals| - 1];
    assert 'R' !in point && '%' !in point;
    DropSymbolsKeeps(point);
  }

  /** "1.234,56" reaches the parser as "1.234.56", which is no number: its thousands point stays. */
  lemma CleanNumericBrazilian(s: string)
    requires s == "1.234,56"
    ensures CleanNumeric(s) == "1.234.56"
  {
    assert s == "1.234" + "," + "56";
    CleanNumericComma("1.234", "56");
  }

  // ---------------------------------------------------------------------
  // _format_dataframe: cleanup
  // ---------------------------------------------------------------------

  /** `name.contains("^Unnamed")`: the header pandas gives a column without one. */
  predicate Unnamed(name: string) {
    StartsWith(name, "Unnamed")
  }

  predicate Named(name: string) {
    !Unnamed(name)
  }

  /** The entries of `xs` that sit under a named column. */
  function KeepNamed<T>(names: seq<string>, xs: seq<T>): (r: seq<T>)
    requires |names| == |xs|
    ensures |r| == |Filter(Named, names)|
  {
    if xs == [] then []
    else (if Named(names[0]) then [xs[0]] else []) + KeepNamed(names[1..], xs[1..])
  }

  /** The names kept are the named ones, in their order. */
  lemma {:induction false} KeepNamedColumns(names: seq<string>)
    ensures KeepNamed(names, names) == Filter(Named, names)
  {
    if names != [] {
      KeepNamedColumns(names[1..]);
    }
  }

  /** `dropna(how="all")` keeps a row that has at least one present value. */
  predicate HasValue(row: seq<Value>) {
    exists i :: 0 <= i < |row| && !IsMissing(row[i])
  }

  /** Every row with its unnamed columns dropped. */
  function Projected(t: Table): (rows: seq<seq<Value>>)
    requires Rectangular(t)
    ensures |rows| == |t.rows|
    ensures forall i :: 0 <= i < |rows| ==> |rows[i]| == |Filter(Named, t.columns)|
  {
    seq(|t.rows|, i requires 0 <= i < |t.rows| => KeepNamed(t.columns, t.rows[i]))
  }

  /** `df.loc[:, ~df.columns.str.contains("^Unnamed")]`, then `dropna(how="all")`. */
  function Cleanup(t: Table): (r: Table)
    requires Rectangular(t)
    ensures Rectangular(r)
  {
    var rows := Projected(t);
    FilterMembers(HasValue, rows);
    Table(KeepNamed(t.columns, t.columns), Filter(HasValue, rows))
  }

  /**
   * Cleanup keeps exactly the named columns, in order, and the rows that
   * still hold a value, in order; no unnamed column and no empty row is left.
   */
  lemma CleanupSpec(t: Table, row: seq<Value>)
    requires Rectangular(t)
    ensures Cleanup(t).columns == Filter(Named, t.columns)
    ensures forall i :: 0 <= i < |Cleanup(t).columns| ==> !Unnamed(Cleanup(t).columns[i])
    ensures forall i :: 0 <= i < |Cleanup(t).rows| ==> HasValue(Cleanup(t).rows[i])
    ensures IsSubsequence(Cleanup(t).rows, Projected(t))
    ensures multiset(Cleanup(t).rows)[row] == if HasValue(row) then multiset(Projected(t))[row] else 0
  {
    KeepNamedColumns(t.columns);
    FilterMembers(Named, t.columns);
    FilterMembers(HasValue, Projected(t));
    FilterIsSubsequence(HasValue, Projected(t));
    FilterCounts(HasValue, Projected(t), row);
  }

  // ---------------------------------------------------------------------
  // _format_dataframe: the date and numeric columns
  // ---------------------------------------------------------------------

  const DateColumn: string := "Data Leitura"

  /** The four numeric columns, in the order the loop visits them. */
  const NumericColumns: seq<string> := ["Leitura atual", "Consumo(m\U{B3})", "C\U{E1}lculo", "Valor final(R$)"]

  /** `strftime("%d/%m/%Y")`. */
  function FormatDate(d: CalendarDate): string {
    Currency.Pad2(d.day) + "/" + Currency.Pad2(d.month) + "/" + NatToString(d.year)
  }

  /** One date cell: the text of the date it parses as, or "" for NaT. */
  function DateCell(v: Value, toDate: Value -> Option<CalendarDate>): Value {
    match toDate(v)
    case Some(d) => Str(FormatDate(d))
    case None => Str("")
  }

  /** The two column conversions `_format_dataframe` applies. */
  datatype Conversion =
    | Dates(toDate: Value -> Option<CalendarDate>)
    | Numbers(toNumber: Value -> Option<real>)

  function Convert(c: Conversion, v: Value): Value {
    match c
    case Dates(toDate) => DateCell(v, toDate)
    case Numbers(toNumber) => NumberCell(v, toNumber)
  }

  /** Column `j` of every row converted, every other cell as it was. */
  function MapColumn(t: Table, j: nat, c: Conversion): (r: Table)
    requires Rectangular(t) && j < |t.columns|
    ensures Rectangular(r) && r.columns == t.columns && |r.rows| == |t.rows|
    ensures forall i, k :: 0 <= i < |r.rows| && 0 <= k < |r.rows[i]| ==>
      r.rows[i][k] == if k == j then Convert(c, t.rows[i][j]) else t.rows[i][k]
  {
    Table(t.columns, seq(|t.rows|, i requires 0 <= i < |t.rows| => t.rows[i][j := Convert(c, t.rows[i][j])]))
  }

  /** `df["Data Leitura"] = to_datetime(...).apply(strftime or "")`, when the column exists. */
  function FormatDates(t: Table, toDate: Value -> Option<CalendarDate>): (r: Table)
    requires Rectangular(t)
    ensures Rectangular(r) && r.columns == t.columns && |r.rows| == |t.rows|
  {
    if DateColumn in t.columns then MapColumn(t, IndexOf(t.columns, DateColumn), Dates(toDate))
    else t
  }

  /** One numeric cell: `to_numeric(errors="coerce").fillna(0)`. */
  function NumberCell(v: Value, toNumber: Value -> Option<real>): Value {
    match toNumber(v)
    case Some(x) => Num(x)
    case None => Num(0.0)
  }

  /** One pass of the numeric loop: column `col`, when it exists. */
  function FormatNumbers(t: Table, col: string, toNumber: Value -> Option<real>): (r: Table)
    requires Rectangular(t)
    ensures Rectangular(r) && r.columns == t.columns && |r.rows| == |t.rows|
  {
    if col in t.columns then MapColumn(t, IndexOf(t.columns, col), Numbers(toNumber))
    else t
  }

  /** The numeric loop after its first `k` passes. */
  function NumericPasses(t: Table, k: nat, toNumber: Value -> Option<real>): (r: Table)
    requires Rectangular(t) && k <= |NumericColumns|
    ensures Rectangular(r) && r.columns == t.columns && |r.rows| == |t.rows|
  {
    if k == 0 then t else FormatNumbers(NumericPasses(t, k - 1, toNumber), NumericColumns[k - 1], toNumber)
  }

  /** What `_format_dataframe(df)` returns. */
  function Formatted(t: Table, lib: Library): (r: Table)
    requires Rectangular(t)
    ensures Rectangular(r)
  {
    NumericPasses(FormatDates(Cleanup(t), lib.toDate), |NumericColumns|, lib.toNumber)
  }

  /** `_format_dataframe`: cleanup, the date column, then the loop over the numeric columns. */
  method FormatDataframe(t: Table, lib: Library) returns (df: Table)
    requires Rectangular(t)
    ensures df == Formatted(t, lib)
  {
    df := Cleanup(t);
    if DateColumn in df.columns {
      df := MapColumn(df, IndexOf(df.columns, DateColumn), Dates(lib.toDate));
    }
    df := FormatNumericColumns(df, lib.toNumber);
  }

  /** `for col in numeric_columns: if col in df.columns: df[col] = ...`. */
  method FormatNumericColumns(t: Table, toNumber: Value -> Option<real>) returns (df: Table)
    requires Rectangular(t)
    ensures df == NumericPasses(t, |NumericColumns|, toNumber)
  {
    df := t;
    for k := 0 to |NumericColumns|
      invariant df == NumericPasses(t, k, toNumber)
    {
      var col := NumericColumns[k];
      if col in df.columns {
        df := MapColumn(df, IndexOf(df.columns, col), Numbers(toNumber));
      }
    }
  }

  /** The numeric passes leave every column but the numeric ones untouched. */
  lemma {:induction false} NumericPassesKeep(t: Table, k: nat, toNumber: Value -> Option<real>, j: nat)
    requires Rectangular(t) && k <= |NumericColumns| && j < |t.columns|
    requires forall m :: 0 <= m < k ==> NumericColumns[m] != t.columns[j]
    ensures |NumericPasses(t, k, toNumber).rows| == |t.rows|
    ensures forall i :: 0 <= i < |t.rows| ==> NumericPasses(t, k, toNumber).rows[i][j] == t.rows[i][j]
  {
    if k > 0 {
      NumericPassesKeep(t, k - 1, toNumber, j);
    }
  }

  /** The four numeric column names are different, so each pass converts a column of its own. */
  lemma NumericColumnsDistinct(a: nat, b: nat)
    requires a < b < |NumericColumns|
    ensures NumericColumns[a] != NumericColumns[b]
  {
    assert NumericColumns[0][0] == 'L' && NumericColumns[1][1] == 'o';
    assert NumericColumns[2][1] == '\U{E1}' && NumericColumns[3][0] == 'V';
  }

  /**
   * After the numeric passes, a numeric column that exists holds the
   * coerced number of each of its original cells, or 0 where there is none.
   */
  lemma {:induction false} NumericPassesFill(t: Table, k: nat, toNumber: Value -> Option<real>, m: nat)
    requires Rectangular(t) && m < k <= |NumericColumns|
    requires NumericColumns[m] in t.columns
    ensures |NumericPasses(t, k, toNumber).rows| == |t.rows|
    ensures forall i :: 0 <= i < |t.rows| ==>
      var j := IndexOf(t.columns, NumericColumns[m]);
      NumericPasses(t, k, toNumber).rows[i][j] == NumberCell(t.rows[i][j], toNumber)
  {
    var j := IndexOf(t.columns, NumericColumns[m]);
    var prev := NumericPasses(t, k - 1, toNumber);
    var r := NumericPasses(t, k, toNumber);
    var col := NumericColumns[k - 1];
    assert r == FormatNumbers(prev, col, toNumber);
    if m < k - 1 {
      NumericPassesFill(t, k - 1, toNumber, m);
      NumericColumnsDistinct(m, k - 1);
      if col in prev.columns {
        var jj := IndexOf(prev.columns, col);
        assert jj != j;
        forall i | 0 <= i < |t.rows|
          ensures r.rows[i][j] == NumberCell(t.rows[i][j], toNumber)
        {
          assert r.rows[i][j] == prev.rows[i][j];
        }
      }
    } else {
      forall m' | 0 <= m' < m
        ensures NumericColumns[m'] != t.columns[j]
      {
        NumericColumnsDistinct(m', m);
      }
      NumericPassesKeep(t, m, toNumber, j);
      forall i | 0 <= i < |t.rows|
        ensures r.rows[i][j] == NumberCell(t.rows[i][j], toNumber)
      {
        assert r.rows[i][j] == NumberCell(prev.rows[i][j], toNumber);
      }
    }
  }

  /** The date column is none of the numeric ones, so the numeric loop never touches it. */
  lemma DateNotNumeric(m: nat)
    requires m < |NumericColumns|
    ensures NumericColumns[m] != DateColumn
  {
    assert NumericColumns[m][0] != DateColumn[0];
  }

  /** `_format_dataframe` keeps the named columns in order and one row per cleaned row. */
  lemma FormattedShape(t: Table, lib: Library)
    requires Rectangular(t)
    ensures Formatted(t, lib).columns == Filter(Named, t.columns)
    ensures |Formatted(t, lib).rows| == |Cleanup(t).rows|
  {
    CleanupSpec(t, []);
  }

  /** The date column, when present, holds the text of each cleaned cell's date, or "". */
  lemma FormattedDates(t: Table, lib: Library)
    requires Rectangular(t)
    ensures DateColumn in Formatted(t, lib).columns ==>
      var j := IndexOf(Formatted(t, lib).columns, DateColumn);
      forall i :: 0 <= i < |Formatted(t, lib).rows| ==>
        Formatted(t, lib).rows[i][j] == DateCell(Cleanup(t).rows[i][j], lib.toDate)
  {
    var c := Cleanup(t);
    var d := FormatDates(c, lib.toDate);
    assert Formatted(t, lib) == NumericPasses(d, |NumericColumns|, lib.toNumber);
    if DateColumn in c.columns {
      var j := IndexOf(c.columns, DateColumn);
      forall m | 0 <= m < |NumericColumns|
        ensures NumericColumns[m] != d.columns[j]
      {
        DateNotNumeric(m);
      }
      NumericPassesKeep(d, |NumericColumns|, lib.toNumber, j);
    }
  }

  /**
   * Every numeric column present holds, row by row, the number its cleaned
   * cell coerces to, or 0 where it coerces to nothing.
   */
  lemma FormattedNumbers(t: Table, lib: Library)
    requires Rectangular(t)
    ensures Formatted(t, lib).columns == Cleanup(t).columns
    ensures |Formatted(t, lib).rows| == |Cleanup(t).rows|
    ensures forall m :: 0 <= m < |NumericColumns| && NumericColumns[m] in Formatted(t, lib).columns ==>
      var j := IndexOf(Formatted(t, lib).columns, NumericColumns[m]);
      forall i :: 0 <= i < |Formatted(t, lib).rows| ==>
        Formatted(t, lib).rows[i][j] == NumberCell(Cleanup(t).rows[i][j], lib.toNumber)
  {
    var c := Cleanup(t);
    var d := FormatDates(c, lib.toDate);
    assert Formatted(t, lib) == NumericPasses(d, |NumericColumns|, lib.toNumber);
    forall m | 0 <= m < |NumericColumns| && NumericColumns[m] in d.columns
      ensures var j := IndexOf(d.columns, NumericColumns[m]);
        forall i :: 0 <= i < |Formatted(t, lib).rows| ==>
          Formatted(t, lib).rows[i][j] == NumberCell(c.rows[i][j], lib.toNumber)
    {
      var j := IndexOf(d.columns, NumericColumns[m]);
      NumericPassesFill(d, |NumericColumns|, lib.toNumber, m);
      DateNotNumeric(m);
      forall i | 0 <= i < |d.rows|
        ensures d.rows[i][j] == c.rows[i][j]
      {
        if DateColumn in c.columns {
          assert j != IndexOf(c.columns, DateColumn);
        }
      }
    }
  }

  // ---------------------------------------------------------------------
  // _filter_by_month
  // ---------------------------------------------------------------------

  /** `s.zfill(width)`: zeros on the left, after a leading sign if there is one. */
  function ZFill(s: string, width: nat): (r: string)
    ensures |r| == if |s| >= width then |s| else width
  {
    if |s| >= width then s
    else if s != [] && (s[0] == '+' || s[0] == '-') then [s[0]] + Repeat('0', width - |s|) + s[1..]
    else Repeat('0', width - |s|) + s
  }

  /** A non-empty run of ASCII digits and its value. */
  function ParseDigits(s: string): Option<nat> {
    if s != [] && forall i :: 0 <= i < |s| ==> IsDigit(s[i]) then Some(DigitsValue(s)) else None
  }

  /** `int(s)`: surrounding whitespace, an optional sign, then digits; None where it raises. */
  function ParseInt(s: string): Option<int> {
    var t := Strip(s);
    if t != [] && (t[0] == '+' || t[0] == '-') then
      match ParseDigits(t[1..])
      case Some(n) => Some(if t[0] == '-' then 0 - n else n as int)
      case None => None
    else
      match ParseDigits(t)
      case Some(n) => Some(n)
      case None => None
  }

  datatype MonthYear = MonthYear(month: string, year: string)

  const DefaultYear: string := "2025"

  /** `month, year = target_month.split("/")`, or `zfill(2)` and "2025"; None where the unpacking raises. */
  function SplitTarget(target: string): Option<MonthYear> {
    if '/' in target then
      var parts := Split(target, '/');
      if |parts| == 2 then Some(MonthYear(parts[0], parts[1])) else None
    else Some(MonthYear(ZFill(target, 2), DefaultYear))
  }

  /** The mask: the date cell in column `j` parses to a date of that month and year. */
  function InMonth(j: nat, month: int, year: int, toDate: Value -> Option<CalendarDate>): seq<Value> -> bool {
    row => j < |row| && toDate(row[j]).Some? && toDate(row[j]).value.month == month && toDate(row[j]).value.year == year
  }

  /** `_filter_by_month(df, target_month)`: every failure returns the table unchanged. */
  function FilterByMonth(t: Table, target: string, toDate: Value -> Option<CalendarDate>): (r: Table)
    requires Rectangular(t)
    ensures Rectangular(r) && r.columns == t.columns
  {
    if DateColumn !in t.columns then t
    else
      match SplitTarget(target)
      case None => t
      case Some(my) =>
        match (ParseInt(my.month), ParseInt(my.year))
        case (Some(m), Some(y)) =>
          var keep := InMonth(IndexOf(t.columns, DateColumn), m, y, toDate);
          FilterMembers(keep, t.rows);
          Table(t.columns, Filter(keep, t.rows))
        case _ => t
  }

  /** Zeros in front of a run of digits do not change its value. */
  lemma {:induction false} LeadingZeros(k: nat, s: string)
    requires forall i :: 0 <= i < |s| ==> IsDigit(s[i])
    ensures forall i :: 0 <= i < |Repeat('0', k) + s| ==> IsDigit((Repeat('0', k) + s)[i])
    ensures DigitsValue(Repeat('0', k) + s) == DigitsValue(s)
  {
    var z := Repeat('0', k);
    if s == [] {
      assert z + s == z;
      AllZeros(k);
    } else {
      LeadingZeros(k, s[..|s| - 1]);
      assert (z + s)[..|z + s| - 1] == z + s[..|s| - 1];
    }
  }

  lemma {:induction false} AllZeros(k: nat)
    ensures forall i :: 0 <= i < k ==> IsDigit(Repeat('0', k)[i])
    ensures DigitsValue(Repeat('0', k)) == 0
  {
    if k > 0 {
      AllZeros(k - 1);
      var z := Repeat('0', k);
      assert z[..k - 1] == Repeat('0', k - 1);
    }
  }

  /** `int(str(n)) == n`. */
  lemma ParseIntNat(n: nat)
    ensures ParseInt(NatToString(n)) == Some(n)
  {
    var s := NatToString(n);
    StripUnchanged(s);
    NatToStringRoundTrip(n);
  }

  /** `int(str(n).zfill(2)) == n`: a one-digit month reads the same once padded. */
  lemma ParseIntZFill(n: nat)
    ensures ParseInt(ZFill(NatToString(n), 2)) == Some(n)
  {
    var s := NatToString(n);
    if |s| < 2 {
      var z := ZFill(s, 2);
      assert z == Repeat('0', 2 - |s|) + s;
      LeadingZeros(2 - |s|, s);
      StripUnchanged(z);
      NatToStringRoundTrip(n);
    } else {
      ParseIntNat(n);
    }
  }

  lemma ParseDefaultYear()
    ensures ParseInt(DefaultYear) == Some(2025)
  {
    assert DefaultYear == NatToString(2025);
    ParseIntNat(2025);
  }

  /** A target "MM/YYYY" splits into its month and its year. */
  lemma SplitTargetPair(month: string, year: string)
    requires '/' !in month && '/' !in year
    ensures SplitTarget(month + "/" + year) == Some(MonthYear(month, year))
  {
    SplitPair(month, year, '/');
  }

  /** A target without '/' is a month of 2025: "3" reads as month 3 of 2025. */
  lemma SplitTargetMonth(n: nat)
    ensures SplitTarget(NatToString(n)).Some?
    ensures ParseInt(SplitTarget(NatToString(n)).value.month) == Some(n)
    ensures ParseInt(SplitTarget(NatToString(n)).value.year) == Some(2025)
  {
    assert '/' !in NatToString(n);
    ParseIntZFill(n);
    ParseDefaultYear();
  }

  /** The unpacking fails exactly when the target holds two or more '/'. */
  lemma SplitTargetFails(target: string)
    ensures SplitTarget(target).None? <==> multiset(target)['/'] >= 2
  {
    SplitCount(target, '/');
  }

  /**
   * Filtering by month keeps, in their order, exactly the rows whose date
   * falls in the target month and year; a table without the date column, a
   * target that does not unpack and a month or year that is no integer all
   * leave the table as it was.
   */
  lemma FilterByMonthSpec(t: Table, target: string, toDate: Value -> Option<CalendarDate>, row: seq<Value>)
    requires Rectangular(t)
    ensures DateColumn !in t.columns || SplitTarget(target).None? ==> FilterByMonth(t, target, toDate) == t
    ensures DateColumn in t.columns && SplitTarget(target).Some? ==>
      var my := SplitTarget(target).value;
      var r := FilterByMonth(t, target, toDate);
      if ParseInt(my.month).Some? && ParseInt(my.year).Some? then
        var keep := InMonth(IndexOf(t.columns, DateColumn), ParseInt(my.month).value, ParseInt(my.year).value, toDate);
        && (forall i :: 0 <= i < |r.rows| ==> keep(r.rows[i]))
        && IsSubsequence(r.rows, t.rows)
        && multiset(r.rows)[row] == if keep(row) then multiset(t.rows)[row] else 0
      else r == t
  {
    if DateColumn in t.columns && SplitTarget(target).Some? {
      var my := SplitTarget(target).value;
      if ParseInt(my.month).Some? && ParseInt(my.year).Some? {
        var keep := InMonth(IndexOf(t.columns, DateColumn), ParseInt(my.month).value, ParseInt(my.year).value, toDate);
        FilterMembers(keep, t.rows);
        FilterIsSubsequence(keep, t.rows);
        FilterCounts(keep, t.rows, row);
      }
    }
  }

  // ---------------------------------------------------------------------
  // process_excel_content: the row loop
  // ---------------------------------------------------------------------

  /** One gas record: `item` in the row loop. */
  datatype Item = Item(
    dataLeitura: string,
    apartamento: string,
    leituraAtual: real,
    consumoM3: real,
    calculo: real,
    valorFinal: real)

  const AptColumn: string := "Apartamento"
  const DateHeader: string := "data leitura"
  const AptHeader: string := "apartamento"

  /** `str(x or "")`: the falsy values (None, 0, "") give "", NaN is truthy. */
  function TextOf(v: Value, show: real -> string): string {
    match v
    case NaN => "nan"
    case Null => ""
    case Num(x) => if x == 0.0 then "" else show(x)
    case Str(s) => s
    case Other(repr) => repr
  }

  /** `str(row.get(name, "") or "").strip()`. */
  function Field(columns: seq<string>, row: seq<Value>, name: string, show: real -> string): string {
    Strip(TextOf(Get(columns, row, name, Str("")), show))
  }

  /** A data row: a reading date and an apartment, neither empty nor a repeated header. */
  predicate IsDataRow(columns: seq<string>, row: seq<Value>, show: real -> string) {
    var date := Field(columns, row, DateColumn, show);
    var apt := Field(columns, row, AptColumn, show);
    date != [] && Lower(date) != DateHeader && apt != [] && Lower(apt) != AptHeader
  }

  /** `_safe_float_convert(row.get(name, 0))`. */
  function NumberOf(columns: seq<string>, row: seq<Value>, name: string, parseFloat: string -> Option<real>): real {
    SafeFloat(Get(columns, row, name, Num(0.0)), parseFloat)
  }

  /** The record built from a data row. */
  function ItemOf(columns: seq<string>, row: seq<Value>, lib: Library): Item {
    Item(
      Field(columns, row, DateColumn, lib.show),
      Field(columns, row, AptColumn, lib.show),
      NumberOf(columns, row, NumericColumns[0], lib.parseFloat),
      NumberOf(columns, row, NumericColumns[1], lib.parseFloat),
      NumberOf(columns, row, NumericColumns[2], lib.parseFloat),
      NumberOf(columns, row, NumericColumns[3], lib.parseFloat))
  }

  /** `make` of every row that passes `keep`, in row order. */
  function Collect<R, T>(keep: R -> bool, make: R -> T, rows: seq<R>): seq<T> {
    if rows == [] then []
    else
      var last := rows[|rows| - 1];
      Collect(keep, make, rows[..|rows| - 1]) + (if keep(last) then [make(last)] else [])
  }

  function DataRow(columns: seq<string>, show: real -> string): seq<Value> -> bool {
    row => IsDataRow(columns, row, show)
  }

  function Record(columns: seq<string>, lib: Library): seq<Value> -> Item {
    row => ItemOf(columns, row, lib)
  }

  /** The records of the data rows among `rows`, in row order. */
  function Items(columns: seq<string>, rows: seq<seq<Value>>, lib: Library): seq<Item> {
    Collect(DataRow(columns, lib.show), Record(columns, lib), rows)
  }

  /** One more row adds its record when it is a data row, and nothing otherwise. */
  lemma ItemsStep(columns: seq<string>, rows: seq<seq<Value>>, i: nat, lib: Library)
    requires i < |rows|
    ensures Items(columns, rows[..i + 1], lib)
      == Items(columns, rows[..i], lib) + if IsDataRow(columns, rows[i], lib.show) then [ItemOf(columns, rows[i], lib)] else []
  {
    assert rows[..i + 1][..i] == rows[..i];
  }

  /** The loop over `formatted_df.iterrows()`: `gas_data` and `target_date`. */
  method ProcessRows(t: Table, lib: Library) returns (gasData: seq<Item>, targetDate: string)
    ensures gasData == Items(t.columns, t.rows, lib)
    ensures targetDate == if gasData == [] then "" else gasData[0].dataLeitura
  {
    gasData := [];
    targetDate := "";
    for i := 0 to |t.rows|
      invariant gasData == Items(t.columns, t.rows[..i], lib)
      invariant gasData != [] ==> gasData[0].dataLeitura != ""
      invariant targetDate == if gasData == [] then "" else gasData[0].dataLeitura
    {
      ItemsStep(t.columns, t.rows, i, lib);
      var row := t.rows[i];
      var dataLeitura := Field(t.columns, row, DateColumn, lib.show);
      var apartamento := Field(t.columns, row, AptColumn, lib.show);
      if dataLeitura == [] || Lower(dataLeitura) == DateHeader {
        continue;
      }
      if apartamento == [] || Lower(apartamento) == AptHeader {
        continue;
      }
      var item := ItemOf(t.columns, row, lib);
      gasData := gasData + [item];
      if targetDate == "" && item.dataLeitura != "" {
        targetDate := item.dataLeitura;
      }
    }
    assert t.rows[..|t.rows|] == t.rows;
  }

  /** Rows are processed in order: what two runs of rows give is what each gives, one after the other. */
  lemma {:induction false} CollectAppend<R, T>(keep: R -> bool, make: R -> T, a: seq<R>, b: seq<R>)
    ensures Collect(keep, make, a + b) == Collect(keep, make, a) + Collect(keep, make, b)
    decreases |b|
  {
    if b == [] {
      assert a + b == a;
    } else {
      var k := |b| - 1;
      assert (a + b)[..|a + b| - 1] == a + b[..k];
      CollectAppend(keep, make, a, b[..k]);
    }
  }

  /** `x` is what `make` gives for some row of `rows` that passes `keep`. */
  ghost predicate MadeFrom<R, T>(keep: R -> bool, make: R -> T, rows: seq<R>, x: T) {
    exists j :: 0 <= j < |rows| && keep(rows[j]) && x == make(rows[j])
  }

  /** Everything collected is made from a row that passes. */
  lemma {:induction false} CollectFrom<R, T>(keep: R -> bool, make: R -> T, rows: seq<R>)
    ensures forall k :: 0 <= k < |Collect(keep, make, rows)| ==> MadeFrom(keep, make, rows, Collect(keep, make, rows)[k])
  {
    if rows != [] {
      var n := |rows| - 1;
      var front := rows[..n];
      CollectFrom(keep, make, front);
      var out := Collect(keep, make, rows);
      forall k | 0 <= k < |out|
        ensures MadeFrom(keep, make, rows, out[k])
      {
        if k < |Collect(keep, make, front)| {
          assert MadeFrom(keep, make, front, out[k]);
          var j :| 0 <= j < |front| && keep(front[j]) && out[k] == make(front[j]);
          assert rows[j] == front[j];
        } else {
          assert keep(rows[n]) && out[k] == make(rows[n]);
        }
      }
    }
  }

  /** Nothing is collected exactly when no row passes. */
  lemma {:induction false} CollectEmpty<R, T>(keep: R -> bool, make: R -> T, rows: seq<R>)
    ensures Collect(keep, make, rows) == [] <==> forall j :: 0 <= j < |rows| ==> !keep(rows[j])
  {
    if rows != [] {
      var n := |rows| - 1;
      var front := rows[..n];
      CollectEmpty(keep, make, front);
      if forall j :: 0 <= j < |rows| ==> !keep(rows[j]) {
        assert forall j :: 0 <= j < |front| ==> front[j] == rows[j];
      } else {
        var j :| 0 <= j < |rows| && keep(rows[j]);
        if j < n {
          assert front[j] == rows[j];
        }
      }
    }
  }

  /** Rows are processed in order: the records of two runs of rows are those of each, one after the other. */
  lemma ItemsAppend(columns: seq<string>, a: seq<seq<Value>>, b: seq<seq<Value>>, lib: Library)
    ensures Items(columns, a + b, lib) == Items(columns, a, lib) + Items(columns, b, lib)
  {
    CollectAppend(DataRow(columns, lib.show), Record(columns, lib), a, b);
  }

  /** When everything `keep` lets through is made into something `P` holds of, `P` holds of all collected. */
  lemma {:induction false} CollectAll<R, T>(keep: R -> bool, make: R -> T, P: T -> bool, rows: seq<R>)
    requires forall r :: keep(r) ==> P(make(r))
    ensures forall k :: 0 <= k < |Collect(keep, make, rows)| ==> P(Collect(keep, make, rows)[k])
  {
    if rows != [] {
      CollectAll(keep, make, P, rows[..|rows| - 1]);
    }
  }

  /** A record with a date and an apartment, neither empty nor a header word. */
  predicate ValidItem(it: Item) {
    it.dataLeitura != [] && Lower(it.dataLeitura) != DateHeader && it.apartamento != [] && Lower(it.apartamento) != AptHeader
  }

  lemma DataRowValid(columns: seq<string>, row: seq<Value>, lib: Library)
    requires IsDataRow(columns, row, lib.show)
    ensures ValidItem(ItemOf(columns, row, lib))
  {
  }

  /** `it` is the record of some data row of `rows`. */
  ghost predicate FromDataRow(columns: seq<string>, rows: seq<seq<Value>>, lib: Library, it: Item) {
    exists j :: 0 <= j < |rows| && IsDataRow(columns, rows[j], lib.show) && it == ItemOf(columns, rows[j], lib)
  }

  /** Every record is that of a data row. */
  lemma ItemsFrom(columns: seq<string>, rows: seq<seq<Value>>, lib: Library)
    ensures forall k :: 0 <= k < |Items(columns, rows, lib)| ==> FromDataRow(columns, rows, lib, Items(columns, rows, lib)[k])
  {
    var keep, make := DataRow(columns, lib.show), Record(columns, lib);
    var items := Collect(keep, make, rows);
    CollectFrom(keep, make, rows);
    forall k | 0 <= k < |items|
      ensures FromDataRow(columns, rows, lib, items[k])
    {
      assert MadeFrom(keep, make, rows, items[k]);
      var j :| 0 <= j < |rows| && keep(rows[j]) && items[k] == make(rows[j]);
      assert IsDataRow(columns, rows[j], lib.show) && items[k] == ItemOf(columns, rows[j], lib);
    }
  }

  /** Every record has a non-empty date and apartment that are not the header words. */
  lemma ItemsValid(columns: seq<string>, rows: seq<seq<Value>>, lib: Library)
    ensures forall k :: 0 <= k < |Items(columns, rows, lib)| ==> ValidItem(Items(columns, rows, lib)[k])
  {
    var keep, make := DataRow(columns, lib.show), Record(columns, lib);
    forall r | keep(r)
      ensures ValidItem(make(r))
    {
      DataRowValid(columns, r, lib);
    }
    CollectAll(keep, make, it => ValidItem(it), rows);
  }

  /** There is no record exactly when no row is a data row. */
  lemma ItemsNone(columns: seq<string>, rows: seq<seq<Value>>, lib: Library)
    ensures Items(columns, rows, lib) == [] <==> forall j :: 0 <= j < |rows| ==> !IsDataRow(columns, rows[j], lib.show)
  {
    var keep, make := DataRow(columns, lib.show), Record(columns, lib);
    CollectEmpty(keep, make, rows);
    assert forall j :: 0 <= j < |rows| ==> keep(rows[j]) == IsDataRow(columns, rows[j], lib.show);
  }

  // ---------------------------------------------------------------------
  // process_excel_content
  // ---------------------------------------------------------------------

  /** The dictionary the service returns. */
  datatype Processed = Processed(targetDate: string, data: seq<Item>)

  const ErrorPrefix: string := "Error processing Excel file: "
  const NoDataMessage: string := "No valid data found in Excel file."
  const UnknownDate: string := "Data desconhecida"

  /** The table the row loop reads: formatted, then filtered when a month is given. */
  function Prepared(t: Table, targetMonth: string, lib: Library): (r: Table)
    requires Rectangular(t)
    ensures Rectangular(r)
  {
    var f := Formatted(t, lib);
    if targetMonth != "" then FilterByMonth(f, targetMonth, lib.toDate) else f
  }

  /** The outcome once the records are known: an error without any, otherwise the date of the first and all of them. */
  function Outcome(items: seq<Item>): Result<Processed, string> {
    if items == [] then Err(ErrorPrefix + NoDataMessage)
    else Ok(Processed(if items[0].dataLeitura != "" then items[0].dataLeitura else UnknownDate, items))
  }

  /**
   * What `process_excel_content` returns or raises. Reading the sheet is
   * given as its outcome: the table, or the message of the exception.
   */
  function Process(read: Result<Table, string>, targetMonth: string, lib: Library): Result<Processed, string>
    requires read.Ok? ==> Rectangular(read.value)
  {
    match read
    case Err(e) => Err(ErrorPrefix + e)
    case Ok(t) =>
      var p := Prepared(t, targetMonth, lib);
      Outcome(Items(p.columns, p.rows, lib))
  }

  /** `process_excel_content(content, filename, target_month)`. */
  method ProcessExcelContent(read: Result<Table, string>, targetMonth: string, lib: Library)
    returns (r: Result<Processed, string>)
    requires read.Ok? ==> Rectangular(read.value)
    ensures r == Process(read, targetMonth, lib)
  {
    if read.Err? {
      return Err(ErrorPrefix + read.error);
    }
    var df := FormatDataframe(read.value, lib);
    if targetMonth != "" {
      df := FilterByMonth(df, targetMonth, lib.toDate);
    }
    var gasData, targetDate := ProcessRows(df, lib);
    if gasData == [] {
      return Err(ErrorPrefix + NoDataMessage);
    }
    r := Ok(Processed(if targetDate != "" then targetDate else UnknownDate, gasData));
  }

  /**
   * The outcome of processing: an error exactly when reading failed or no
   * data row is left, with the message prefixed; otherwise the records, of
   * which there is at least one, and the date of the first, so the
   * "Data desconhecida" fallback is never taken.
   */
  lemma ProcessSpec(read: Result<Table, string>, targetMonth: string, lib: Library)
    requires read.Ok? ==> Rectangular(read.value)
    ensures read.Err? ==> Process(read, targetMonth, lib) == Err(ErrorPrefix + read.error)
    ensures read.Ok? ==>
      var p := Prepared(read.value, targetMonth, lib);
      var r := Process(read, targetMonth, lib);
      && (r.Err? <==> forall j :: 0 <= j < |p.rows| ==> !IsDataRow(p.columns, p.rows[j], lib.show))
      && (r.Err? ==> r.error == ErrorPrefix + NoDataMessage)
      && (r.Ok? ==>
            r.value.data == Items(p.columns, p.rows, lib) && r.value.data != []
            && r.value.targetDate == r.value.data[0].dataLeitura)
  {
    if read.Ok? {
      var p := Prepared(read.value, targetMonth, lib);
      var items := Items(p.columns, p.rows, lib);
      ItemsNone(p.columns, p.rows, lib);
      ItemsValid(p.columns, p.rows, lib);
      assert items != [] ==> ValidItem(items[0]);
    }
  }
}
